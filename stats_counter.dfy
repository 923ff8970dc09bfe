/** The animated statistics counters: each `.stat-number` climbs towards its
    `data-target` by `ceil(shown + target / 200)` per tick, then shows the target,
    with a "+" for a fixed list of targets. */
module StatsCounter {
  import opened Options

  /** `speed` in the script: a tick adds target / Speed before rounding up. */
  const Speed := 200

  /** The targets whose final text gets a trailing "+"; configuration, not a rule. */
  const PlusTargets: set<int> := {90, 2, 10000, 10, 15}

  /** A counter's `innerText`: a plain number, or a number with the "+" suffix. */
  datatype CounterText = Plain(n: int) | WithPlus(n: int)

  /** `+counter.innerText`: a plain number parses; the "+" suffix makes it NaN (None). */
  function Parse(t: CounterText): (v: Option<int>)
    ensures v.Some? <==> t.Plain?
    ensures v.Some? ==> v.value == t.n
  {
    match t
    case Plain(n) => Some(n)
    case WithPlus(_) => None
  }

  /** One tick, `Math.ceil(shown + target / speed)`, in exact arithmetic: the least
      integer not below shown + target / 200. It moves up whenever the target is positive. */
  function NextShown(shown: int, target: int): (r: int)
    ensures (r - 1) * Speed < shown * Speed + target <= r * Speed
    ensures target > 0 ==> shown < r
  {
    (shown * Speed + target + Speed - 1) / Speed
  }

  /** The text set once the counter has reached its target. */
  function FinalText(target: int): (t: CounterText)
    ensures t.n == target
    ensures t.WithPlus? <==> target in PlusTargets
  {
    if target == 90 || target == 2 || target == 10000 || target == 10 || target == 15 then
      WithPlus(target)
    else
      Plain(target)
  }

  /** One call of `animate`: the new text and whether it rescheduled itself. NaN
      compares false, so a suffixed text goes straight to the final branch. */
  function Animate(t: CounterText, target: int): (r: (CounterText, bool))
    ensures r.1 <==> (t.Plain? && t.n < target)
    ensures r.1 ==> r.0 == Plain(NextShown(t.n, target))
    ensures !r.1 ==> r.0 == FinalText(target)
  {
    match Parse(t)
    case Some(data) =>
      if data < target then (Plain(NextShown(data, target)), true) else (FinalText(target), false)
    case None => (FinalText(target), false)
  }

  /** The chain of calls reaches its final branch: the target is positive, or the
      counter does not start below it. With a start below a target of 0 or less a
      tick never moves up, and the script reschedules forever. */
  predicate Terminates(t: CounterText, target: int)
  {
    target > 0 || !(t.Plain? && t.n < target)
  }

  /** Distance from the final branch, for termination. */
  function Remaining(t: CounterText, target: int): nat
  {
    if t.Plain? && t.n < target then target - t.n + 1 else 0
  }

  /** The texts displayed by the whole chain of `animate` calls, in order. */
  function Trace(t: CounterText, target: int): (tr: seq<CounterText>)
    requires Terminates(t, target)
    ensures |tr| >= 1
    decreases Remaining(t, target)
  {
    var (next, again) := Animate(t, target);
    if again then [next] + Trace(next, target) else [next]
  }

  /** One unfolding of the chain: the first call's text, then the rest if it rescheduled. */
  lemma TraceUnfold(t: CounterText, target: int)
    requires Terminates(t, target)
    ensures Animate(t, target).1 ==> Terminates(Animate(t, target).0, target)
    ensures Trace(t, target) == [Animate(t, target).0] +
      (if Animate(t, target).1 then Trace(Animate(t, target).0, target) else [])
  {
  }

  /** The chain ends on the target, with the "+" exactly for the listed targets. */
  lemma {:induction false} TraceEndsOnTarget(t: CounterText, target: int)
    requires Terminates(t, target)
    ensures Trace(t, target)[|Trace(t, target)| - 1] == FinalText(target)
    decreases Remaining(t, target)
  {
    var (next, again) := Animate(t, target);
    if again {
      TraceEndsOnTarget(next, target);
    }
  }

  /** Every text before the last one is a plain number; these climb strictly,
      starting above the initial number; all but the last of them stay below the
      target, and the last has reached it, so the final text is never above it. */
  lemma {:induction false} TraceClimbs(t: CounterText, target: int)
    requires Terminates(t, target)
    ensures forall i :: 0 <= i < |Trace(t, target)| - 1 ==> Trace(t, target)[i].Plain?
    ensures forall i, j :: 0 <= i < j < |Trace(t, target)| - 1 ==>
      Trace(t, target)[i].n < Trace(t, target)[j].n
    ensures |Trace(t, target)| > 1 ==> t.Plain? && t.n < Trace(t, target)[0].n
    ensures forall i :: 0 <= i < |Trace(t, target)| - 2 ==> Trace(t, target)[i].n < target
    ensures |Trace(t, target)| > 1 ==> target <= Trace(t, target)[|Trace(t, target)| - 2].n
    decreases Remaining(t, target)
  {
    var (next, again) := Animate(t, target);
    if again {
      TraceClimbs(next, target);
      var rest := Trace(next, target);
      assert Trace(t, target) == [next] + rest;
      if |rest| > 1 {
        assert next.n < rest[0].n;
        assert next.Plain? && next.n < target;
      }
    }
  }

  /** A counter already at or past its target finishes in one call. */
  lemma AtTargetFinishesAtOnce(t: CounterText, target: int)
    requires !(t.Plain? && t.n < target)
    ensures Trace(t, target) == [FinalText(target)]
  {
  }

  /** The final snap can move the display down: a target of 201 climbs in steps of 2
      from 0 up to 200, then shows 202 and finally 201. */
  lemma OvershootThenSnap()
    ensures NextShown(200, 201) == 202
    ensures Animate(Plain(200), 201) == (Plain(202), true)
    ensures Animate(Plain(202), 201) == (Plain(201), false)
  {
  }

  /** One `.stat-number` element. `history` records every text it has displayed. */
  class Counter {
    const target: int
    var text: CounterText
    ghost var history: seq<CounterText>

    constructor (target: int, text: CounterText)
      ensures this.target == target && this.text == text && history == []
    {
      this.target := target;
      this.text := text;
      history := [];
    }

    /** One call of `animate`: rewrite `innerText`, report whether it rescheduled. */
    method Step() returns (again: bool)
      modifies this
      ensures (text, again) == Animate(old(text), target)
      ensures history == old(history) + [text]
    {
      var value := target;
      var data := Parse(text);
      if data.Some? && data.value < value {
        text := Plain(NextShown(data.value, value));
        again := true;
      } else {
        if value == 90 || value == 2 || value == 10000 || value == 10 || value == 15 {
          text := WithPlus(value);
        } else {
          text := Plain(value);
        }
        again := false;
      }
      history := history + [text];
    }

    /** The first call of `animate` and every call it schedules, run to the end. */
    method Run()
      requires Terminates(text, target)
      modifies this
      ensures history == old(history) + Trace(old(text), target)
      ensures text == FinalText(target)
    {
      ghost var start, before := text, history;
      TraceUnfold(text, target);
      var again := Step();
      while again
        invariant again ==> text.Plain? && target > 0
        invariant !again ==> text == FinalText(target)
        invariant again ==> before + Trace(start, target) == history + Trace(text, target)
        invariant !again ==> before + Trace(start, target) == history
        decreases if again then Remaining(text, target) + 1 else 0
      {
        TraceUnfold(text, target);
        ghost var was := history;
        ghost var rest := Trace(text, target);
        again := Step();
        if again {
          assert rest == [text] + Trace(text, target);
          assert was + rest == history + Trace(text, target);
        } else {
          assert rest == [text];
        }
      }
    }
  }

  /** `animateCounters`: starts every counter's chain. The chains of different
      counters interleave through the event loop but touch disjoint elements, so
      running each to its end in turn reaches the same final texts. */
  method AnimateCounters(counters: seq<Counter>)
    requires forall c :: c in counters ==> Terminates(c.text, c.target)
    modifies set c | c in counters
    ensures forall c :: c in counters ==> c.text == FinalText(c.target)
  {
    var i := 0;
    while i < |counters|
      invariant 0 <= i <= |counters|
      invariant forall k :: 0 <= k < i ==> counters[k].text == FinalText(counters[k].target)
      invariant forall k :: i <= k < |counters| ==> Terminates(counters[k].text, counters[k].target)
    {
      counters[i].Run();
      i := i + 1;
    }
  }
}
