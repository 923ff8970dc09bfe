/** The one-shot intersection observers: the scroll-reveal observer (one per
    animated element) and the statistics observer. Each reacts to the first
    intersecting entry of its target and then unobserves it for good. */
module OneShot {

  /** An observed target: still observed, or already unobserved after firing. */
  datatype Phase = Observing | Unobserved

  /** One entry delivered for the target: the new phase and whether the callback's
      effect ran. Once unobserved, the target receives no further effect. */
  function OnEntry(p: Phase, isIntersecting: bool): (r: (Phase, bool))
    ensures r.1 <==> p.Observing? && isIntersecting
    ensures r.0.Unobserved? <==> (p.Unobserved? || isIntersecting)
  {
    if p.Observing? && isIntersecting then (Unobserved, true) else (p, false)
  }

  /** How many times the effect runs over a sequence of entries, and the final phase. */
  function Replay(p: Phase, entries: seq<bool>): (r: (Phase, nat))
    decreases |entries|
  {
    if entries == [] then (p, 0)
    else
      var (next, fired) := OnEntry(p, entries[0]);
      var (last, count) := Replay(next, entries[1..]);
      (last, count + if fired then 1 else 0)
  }

  /** The effect runs at most once; exactly once iff the target was still observed
      and some entry intersected; the phase never returns to observing. */
  lemma {:induction false} FiresAtMostOnce(p: Phase, entries: seq<bool>)
    ensures Replay(p, entries).1 <= 1
    ensures Replay(p, entries).1 == 1 <==>
      p.Observing? && exists k :: 0 <= k < |entries| && entries[k]
    ensures p.Unobserved? ==> Replay(p, entries).0.Unobserved?
    decreases |entries|
  {
    if entries != [] {
      var (next, fired) := OnEntry(p, entries[0]);
      FiresAtMostOnce(next, entries[1..]);
      if p.Observing? && !entries[0] {
        if exists k :: 0 <= k < |entries| && entries[k] {
          var k :| 0 <= k < |entries| && entries[k];
          assert entries[1..][k - 1];
        }
      }
    }
  }

  /** What the reveal callback writes on the element: full opacity at once under
      reduced motion, otherwise the fade-in animation. */
  datatype RevealStyle = Hidden | Opaque | FadeInUp

  function Reveal(reducedMotion: bool): (s: RevealStyle)
    ensures s != Hidden
    ensures s == Opaque <==> reducedMotion
  {
    if reducedMotion then Opaque else FadeInUp
  }

  /** One element registered with the reveal observer, starting with opacity 0. */
  class RevealTarget {
    var phase: Phase
    var style: RevealStyle

    constructor ()
      ensures phase == Observing && style == Hidden
    {
      phase, style := Observing, Hidden;
    }

    /** The observer delivers an entry for this element. */
    method OnObserverEntry(isIntersecting: bool, reducedMotion: bool)
      modifies this
      ensures (phase, old(phase).Observing? && isIntersecting) == OnEntry(old(phase), isIntersecting)
      ensures style == if old(phase).Observing? && isIntersecting then Reveal(reducedMotion) else old(style)
    {
      if phase.Observing? && isIntersecting {
        if reducedMotion {
          style := Opaque;
        } else {
          style := FadeInUp;
        }
        phase := Unobserved;
      }
    }
  }
}
