/** `highlightNavigation`: on every scroll, each section whose vertical extent
    contains the probe point rewrites the `active` class and `aria-current`
    attribute of every nav link, so the last containing section decides. */
module ActiveSection {
  import opened Options

  /** A `<section>` as the handler reads it: its id, `offsetTop` and `offsetHeight`,
      which are whole pixels. */
  datatype Section = Section(id: string, top: int, height: int)

  /** A nav link: its href, whether it has the `active` class and whether it
      carries `aria-current="page"`. */
  datatype NavLink = NavLink(href: string, active: bool, current: bool)

  /** The half-open interval [top, top + height) contains the probe point `pos`,
      which may be fractional since `scrollY` is. A section of height 0 or less
      contains no point. */
  predicate Contains(s: Section, pos: real): (b: bool)
    ensures b ==> s.height > 0
  {
    s.top as real <= pos < (s.top + s.height) as real
  }

  /** What the inner forEach does to one link for section `id`: clear both marks,
      then set both again when the href is that section's anchor. */
  function Mark(link: NavLink, id: string): (r: NavLink)
    ensures r.href == link.href
    ensures r.active <==> link.href == "#" + id
    ensures r.current == r.active
  {
    var isTarget := link.href == "#" + id;
    NavLink(link.href, isTarget, isTarget)
  }

  /** The inner forEach over all links. */
  function MarkAll(links: seq<NavLink>, id: string): (r: seq<NavLink>)
    ensures |r| == |links|
    ensures forall k :: 0 <= k < |r| ==> r[k].href == links[k].href
    ensures forall k :: 0 <= k < |r| ==>
      (r[k].active <==> links[k].href == "#" + id) && r[k].current == r[k].active
  {
    seq(|links|, k requires 0 <= k < |links| => Mark(links[k], id))
  }

  /** Links after the outer forEach has visited `sections`, in document order. */
  function Highlight(links: seq<NavLink>, sections: seq<Section>, pos: real): (r: seq<NavLink>)
    ensures |r| == |links|
    ensures forall k :: 0 <= k < |r| ==> r[k].href == links[k].href
    decreases |sections|
  {
    if sections == [] then links
    else
      var before := Highlight(links, sections[..|sections| - 1], pos);
      var last := sections[|sections| - 1];
      if Contains(last, pos) then MarkAll(before, last.id) else before
  }

  /** Index of the last section, in document order, that contains `pos`. */
  function LastContaining(sections: seq<Section>, pos: real): (r: Option<nat>)
    ensures r.Some? ==> r.value < |sections| && Contains(sections[r.value], pos)
    ensures r.Some? ==> forall k :: r.value < k < |sections| ==> !Contains(sections[k], pos)
    ensures r.None? <==> forall k :: 0 <= k < |sections| ==> !Contains(sections[k], pos)
    decreases |sections|
  {
    if sections == [] then None
    else if Contains(sections[|sections| - 1], pos) then Some(|sections| - 1)
    else LastContaining(sections[..|sections| - 1], pos)
  }

  /** Marking twice is marking with the second id: only the href is read. */
  lemma MarkAllOverwrites(links: seq<NavLink>, first: string, second: string)
    ensures MarkAll(MarkAll(links, first), second) == MarkAll(links, second)
  {
  }

  /** The rule the nested loops implement: with no containing section the links are
      untouched; otherwise they are marked for the last containing section. */
  lemma {:induction false} HighlightIsLastMatch(links: seq<NavLink>, sections: seq<Section>, pos: real)
    ensures Highlight(links, sections, pos) ==
      match LastContaining(sections, pos)
      case None => links
      case Some(m) => MarkAll(links, sections[m].id)
    decreases |sections|
  {
    if sections != [] {
      var init := sections[..|sections| - 1];
      HighlightIsLastMatch(links, init, pos);
      var last := sections[|sections| - 1];
      if Contains(last, pos) {
        match LastContaining(init, pos)
        case None =>
        case Some(m) => MarkAllOverwrites(links, init[m].id, last.id);
      } else {
        match LastContaining(init, pos)
        case None =>
        case Some(m) => assert init[m] == sections[m];
      }
    }
  }

  /** Nav links whose hrefs are pairwise different, as in the page's navigation. */
  predicate DistinctHrefs(links: seq<NavLink>)
  {
    forall j, k :: 0 <= j < k < |links| ==> links[j].href != links[k].href
  }

  /** With distinct hrefs, a highlight leaves at most one link active, and one is
      active exactly when some link points at the chosen section. */
  lemma HighlightSelectsOne(links: seq<NavLink>, sections: seq<Section>, pos: real)
    requires DistinctHrefs(links)
    requires LastContaining(sections, pos).Some?
    ensures forall j, k :: 0 <= j < k < |links| ==>
      !(Highlight(links, sections, pos)[j].active && Highlight(links, sections, pos)[k].active)
    ensures (exists k :: 0 <= k < |links| && Highlight(links, sections, pos)[k].active)
        <==> (exists k :: 0 <= k < |links| && links[k].href == "#" + sections[LastContaining(sections, pos).value].id)
  {
    HighlightIsLastMatch(links, sections, pos);
  }

  /** Above, below or between all sections nothing is rewritten. */
  lemma NoSectionNoChange(links: seq<NavLink>, sections: seq<Section>, pos: real)
    requires forall k :: 0 <= k < |sections| ==> !Contains(sections[k], pos)
    ensures Highlight(links, sections, pos) == links
  {
    HighlightIsLastMatch(links, sections, pos);
  }

  /** The scroll handler. `sections` is the layout read afresh on this scroll; the
      probe point sits 100 pixels below the top of the viewport. */
  method HighlightNavigation(navLinks: array<NavLink>, sections: seq<Section>, scrollY: real)
    modifies navLinks
    ensures navLinks[..] == Highlight(old(navLinks[..]), sections, scrollY + 100.0)
  {
    var scrollPosition := scrollY + 100.0;
    ghost var original := navLinks[..];
    var i := 0;
    while i < |sections|
      invariant 0 <= i <= |sections|
      invariant navLinks[..] == Highlight(original, sections[..i], scrollPosition)
    {
      var section := sections[i];
      ghost var before := navLinks[..];
      var sectionTop := section.top;
      var sectionHeight := section.height;
      if scrollPosition >= sectionTop as real && scrollPosition < (sectionTop + sectionHeight) as real {
        var j := 0;
        while j < navLinks.Length
          invariant 0 <= j <= navLinks.Length
          invariant forall k :: 0 <= k < j ==> navLinks[k] == Mark(before[k], section.id)
          invariant forall k :: j <= k < navLinks.Length ==> navLinks[k] == before[k]
        {
          var link := navLinks[j];
          link := link.(active := false, current := false);
          if link.href == "#" + section.id {
            link := link.(active := true, current := true);
          }
          navLinks[j] := link;
          j := j + 1;
        }
        assert navLinks[..] == MarkAll(before, section.id);
      }
      assert sections[..i + 1][..i] == sections[..i];
      i := i + 1;
    }
    assert sections[..|sections|] == sections;
  }
}
