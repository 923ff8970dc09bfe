/** The mobile navigation menu: one open/closed state shown four ways — the
    `active` class of `.nav-menu` and of `.hamburger`, the hamburger's
    `aria-expanded` attribute and the body's `no-scroll` class — plus the inline
    styles of the hamburger's bars. */
module MobileMenu {

  /** The four projections of the open flag. */
  datatype MenuState = MenuState(menuActive: bool, hamburgerActive: bool, ariaExpanded: string, noScroll: bool)

  /** All four projections agree. */
  predicate Consistent(s: MenuState)
  {
    s.hamburgerActive == s.menuActive
    && s.ariaExpanded == (if s.menuActive then "true" else "false")
    && s.noScroll == s.menuActive
  }

  /** `String(isOpen)` */
  function BoolText(b: bool): (t: string)
    ensures t == "true" || t == "false"
    ensures (t == "true") == b
  {
    if b then "true" else "false"
  }

  /** The hamburger click: both `active` classes toggle independently, while
      `aria-expanded` and `no-scroll` are set from the menu's new flag. The result
      is consistent exactly when the two classes agreed before the click. */
  function HamburgerClick(s: MenuState): (r: MenuState)
    ensures r.menuActive == !s.menuActive
    ensures Consistent(r) <==> s.hamburgerActive == s.menuActive
    ensures Consistent(s) ==> Consistent(r)
  {
    var isOpen := !s.menuActive;
    MenuState(isOpen, !s.hamburgerActive, BoolText(isOpen), isOpen)
  }

  /** A click on any nav link: everything is switched to closed. */
  function LinkClick(s: MenuState): (r: MenuState)
    ensures Consistent(r) && !r.menuActive
  {
    MenuState(false, false, "false", false)
  }

  /** Closing is idempotent, and reopening after a close opens all four together. */
  lemma LinkClickIdempotent(s: MenuState)
    ensures LinkClick(LinkClick(s)) == LinkClick(s)
    ensures Consistent(HamburgerClick(LinkClick(s))) && HamburgerClick(LinkClick(s)).menuActive
  {
  }

  /** Two hamburger clicks give back the starting state when it was consistent. */
  lemma HamburgerTwice(s: MenuState)
    requires Consistent(s)
    ensures HamburgerClick(HamburgerClick(s)) == s
  {
  }

  datatype Event = Hamburger | LinkClicked

  function Replay(s: MenuState, events: seq<Event>): MenuState
    decreases |events|
  {
    if events == [] then s
    else Replay(if events[0].Hamburger? then HamburgerClick(s) else LinkClick(s), events[1..])
  }

  /** From any consistent state (the markup's closed menu is one), every sequence of
      clicks keeps the four projections equal. */
  lemma {:induction false} ReplayConsistent(s: MenuState, events: seq<Event>)
    requires Consistent(s)
    ensures Consistent(Replay(s, events))
    decreases |events|
  {
    if events != [] {
      ReplayConsistent(if events[0].Hamburger? then HamburgerClick(s) else LinkClick(s), events[1..]);
    }
  }

  /** Inline style of one hamburger bar: `style.transform` and `style.opacity`. */
  datatype BarStyle = BarStyle(transform: string, opacity: string)

  /** Style of bar `index` after the menu opened: the first and third bars cross,
      the second fades out, any further bar keeps its style. */
  function OpenedBar(b: BarStyle, index: nat): (r: BarStyle)
    ensures index != 1 ==> r.opacity == b.opacity
    ensures index != 0 && index != 2 ==> r.transform == b.transform
    ensures index == 1 ==> r.opacity == "0"
    ensures index > 2 ==> r == b
  {
    if index == 0 then b.(transform := "translateY(9px) rotate(45deg)")
    else if index == 1 then b.(opacity := "0")
    else if index == 2 then b.(transform := "translateY(-9px) rotate(-45deg)")
    else b
  }

  /** Style of a bar after the menu closed: both inline styles cleared. */
  const ClosedBar := BarStyle("", "")

  class Menu {
    var menuActive: bool
    var hamburgerActive: bool
    var ariaExpanded: string
    var noScroll: bool
    const bars: array<BarStyle>

    function State(): MenuState
      reads this
    {
      MenuState(menuActive, hamburgerActive, ariaExpanded, noScroll)
    }

    /** The markup's closed menu, with bars carrying no inline style. */
    constructor (barCount: nat)
      ensures Consistent(State()) && !menuActive
      ensures fresh(bars) && bars.Length == barCount
      ensures forall k :: 0 <= k < bars.Length ==> bars[k] == ClosedBar
    {
      menuActive, hamburgerActive, ariaExpanded, noScroll := false, false, "false", false;
      bars := new BarStyle[barCount](_ => ClosedBar);
    }

    /** Hamburger click handler, including the loop over its bars. */
    method OnHamburgerClick()
      modifies this, bars
      ensures State() == HamburgerClick(old(State()))
      ensures forall k :: 0 <= k < bars.Length ==>
        bars[k] == if menuActive then OpenedBar(old(bars[k]), k) else ClosedBar
    {
      menuActive := !menuActive;
      var isOpen := menuActive;
      hamburgerActive := !hamburgerActive;
      ariaExpanded := BoolText(isOpen);
      noScroll := isOpen;

      var index := 0;
      while index < bars.Length
        modifies bars
        invariant 0 <= index <= bars.Length
        invariant forall k :: 0 <= k < index ==>
          bars[k] == if isOpen then OpenedBar(old(bars[k]), k) else ClosedBar
        invariant forall k :: index <= k < bars.Length ==> bars[k] == old(bars[k])
      {
        var bar := bars[index];
        if isOpen {
          if index == 0 { bar := bar.(transform := "translateY(9px) rotate(45deg)"); }
          if index == 1 { bar := bar.(opacity := "0"); }
          if index == 2 { bar := bar.(transform := "translateY(-9px) rotate(-45deg)"); }
        } else {
          bar := bar.(transform := "");
          bar := bar.(opacity := "");
        }
        bars[index] := bar;
        index := index + 1;
      }
    }

    /** Click handler of every nav link. */
    method OnNavLinkClick()
      modifies this, bars
      ensures State() == LinkClick(old(State()))
      ensures forall k :: 0 <= k < bars.Length ==> bars[k] == ClosedBar
    {
      menuActive := false;
      hamburgerActive := false;
      ariaExpanded := "false";
      noScroll := false;

      var index := 0;
      while index < bars.Length
        modifies bars
        invariant 0 <= index <= bars.Length
        invariant forall k :: 0 <= k < index ==> bars[k] == ClosedBar
      {
        bars[index] := bars[index].(transform := "", opacity := "");
        index := index + 1;
      }
    }
  }
}
