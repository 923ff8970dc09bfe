/** The threshold-driven scroll listeners: the back-to-top button's `show` class
    and the navbar's `scrolled` class, each a step function of the scroll offset.
    Offsets are CSS pixels and may be fractional, as `scrollY` is a double. */
module ScrollEffects {

  /** The back-to-top button is shown past 300 pixels. */
  const BackToTopThreshold: real := 300.0

  /** The navbar switches to its scrolled style past 100 pixels. */
  const NavbarThreshold: real := 100.0

  /** `scrollY > 300`; whenever the button shows, the navbar is scrolled too. */
  predicate BackToTopShown(scrollY: real): (b: bool)
    ensures b ==> NavbarScrolled(scrollY)
  {
    scrollY > BackToTopThreshold
  }

  /** `pageYOffset > 100`: the navbar is scrolled only once the page has moved down,
      and always once the back-to-top threshold has been passed. */
  predicate NavbarScrolled(scrollY: real): (b: bool)
    ensures b ==> scrollY > 0.0
    ensures scrollY > BackToTopThreshold ==> b
  {
    scrollY > NavbarThreshold
  }

  /** The button's flag is a monotone step function: scrolling further down never hides it. */
  lemma BackToTopMonotone(y: real, z: real)
    requires y <= z
    ensures BackToTopShown(y) ==> BackToTopShown(z)
  {
  }

  /** The navbar's flag is a monotone step function as well. */
  lemma NavbarMonotone(y: real, z: real)
    requires y <= z
    ensures NavbarScrolled(y) ==> NavbarScrolled(z)
  {
  }

  /** The button depends on the current offset alone (no hysteresis): hidden at the
      top, still hidden at 150 and at exactly 300, shown at 300.5 and beyond. */
  lemma BackToTopScenarios()
    ensures !BackToTopShown(0.0) && !BackToTopShown(150.0) && !BackToTopShown(300.0)
    ensures BackToTopShown(300.5) && BackToTopShown(301.0)
  {
  }

  /** The navbar is plain at the top and at exactly 100, and scrolled at 100.25 and 150. */
  lemma NavbarScenarios()
    ensures !NavbarScrolled(0.0) && !NavbarScrolled(100.0)
    ensures NavbarScrolled(100.25) && NavbarScrolled(150.0)
  {
  }

  /** The elements the two listeners rewrite, and the module-level `lastScroll`. */
  class ScrollWidgets {
    var backToTopShow: bool
    var navbarScrolled: bool
    var lastScroll: real

    constructor ()
      ensures !backToTopShow && !navbarScrolled && lastScroll == 0.0
    {
      backToTopShow, navbarScrolled, lastScroll := false, false, 0.0;
    }

    /** The back-to-top listener; `scrollY` is the offset it reads. */
    method OnScrollBackToTop(scrollY: real)
      modifies this
      ensures backToTopShow == BackToTopShown(scrollY)
      ensures navbarScrolled == old(navbarScrolled) && lastScroll == old(lastScroll)
    {
      if scrollY > 300.0 {
        backToTopShow := true;
      } else {
        backToTopShow := false;
      }
    }

    /** The navbar listener; `pageYOffset` is the same offset. */
    method OnScrollNavbar(pageYOffset: real)
      modifies this
      ensures navbarScrolled == NavbarScrolled(pageYOffset)
      ensures lastScroll == pageYOffset
      ensures backToTopShow == old(backToTopShow)
    {
      var currentScroll := pageYOffset;
      if currentScroll > 100.0 {
        navbarScrolled := true;
      } else {
        navbarScrolled := false;
      }
      lastScroll := currentScroll;
    }
  }
}
