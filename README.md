# Portfolio page script: a verified model of its decision rules

The portfolio site's single page script (`js/script.js`) is mostly DOM glue, but its
event handlers contain a small set of exact rules over page state. This project
models those rules in Dafny, with the browser replaced by plain values:

- **Theme controller** (`Theme`). The body's `dark-mode` class, the toggle icon's
  `fa-sun`/`fa-moon` classes and the `darkMode` key of local storage. It covers the
  load-time decision, the toggle click and the `prefers-color-scheme` change listener.
- **Mobile menu** (`MobileMenu`). One open flag shown four ways: the `active` class of
  the menu and of the hamburger, `aria-expanded` and the body's `no-scroll` class.
  It also models the inline styles of the hamburger bars.
- **Active navigation link** (`ActiveSection`). `highlightNavigation`: nested loops
  over the sections and the nav links, probing at `scrollY + 100`.
- **Project tab filter** (`ProjectFilter`). The click handler and the per-card
  callbacks that run after the 300 ms fade-out.
- **Statistics counters** (`StatsCounter`). The self-rescheduling `animate` step, the
  chain of calls it starts, and `animateCounters` over all counters.
- **External-link rel normalisation** (`SecureLinks`), built on JavaScript's
  `String.prototype.includes` (`Strings`).
- **Scroll thresholds** (`ScrollEffects`). The back-to-top button's `show` class and
  the navbar's `scrolled` class.
- **One-shot observers** (`OneShot`). The scroll-reveal observer and the stats
  observer both fire on the first intersecting entry and then unobserve the target.

State the script changes in place is a class, or an array the method rewrites.
The method's `ensures` ties the new state to a pure function of the old state.
The properties are proved about those functions. The page's layout, the OS
colour-scheme answer, the reduced-motion answer and scroll offsets are parameters.

Points where the code's behaviour is easy to misread; the model follows the code:

- The active link goes to the LAST section in document order that contains the
  probe point, because every match clears all links and marks one. When no section
  contains the point, the links keep their previous marks; they are not cleared.
- The tab filter tests `data-category` as a substring (`"web"` matches `"webgl"`).
  It does not look for `data-filter` among the words of `data-category`.
- The selector `a[target="_blank"]` compares `target` ASCII case-insensitively in an
  HTML document, so an anchor with `target="_BLANK"` is secured as well.
- At `scrollY = 150` the navbar is scrolled but the back-to-top button is still
  hidden. The threshold is `scrollY > 300`.
- The counter climbs strictly while it steps. The last step can overshoot, though,
  and the final text then moves down to the target. Example: target 201 goes
  0, 2, …, 200, 202, then shows 201.
- A stored value other than `"enabled"`, `"disabled"`, `""` and `"null"` (say `"foo"`)
  makes the page follow the OS at load, but afterwards every OS change is ignored,
  because the change listener does not count it as nothing stored.
- Local storage is shared by all tabs of the origin and the script has no `storage`
  listener. A click in another tab changes what this tab's next OS change sees, but
  not this tab's theme: after it stores "enabled", an OS switch to dark leaves a light
  tab light.
- The system-change listener treats a stored `""` or `"null"` like nothing stored
  (`!savedTheme || savedTheme === "null"`). The code has no fallback for failing
  storage calls.

## Model

| member | source | states |
|---|---|---|
| `Strings.Includes` | js/script.js:119-120 | `hay.includes(needle)` holds iff `needle` occurs at some offset of `hay` (the empty needle always does) |
| `Strings.IncludesAppend` | js/script.js:119-120 | appending to a string keeps every substring it already had |
| `Strings.AsciiLower` | js/script.js:118 | the lower-cased string has the same length, and each character is the ASCII lower case of the original one |
| `Strings.AsciiLowerIdempotent` | js/script.js:118 | lower-casing twice gives the same string as lower-casing once |
| `SecureLinks.OpensNewContextSpellings` | js/script.js:118 | the selector `a[target="_blank"]` matches "_blank", "_BLANK" and "_Blank", and not "_self", "blank" or "_blank " |
| `SecureLinks.AddNoopener` | js/script.js:119 | the first step only appends, at most the nine characters of " noopener" |
| `SecureLinks.AddNoreferrer` | js/script.js:120 | the second step adds nothing or exactly the eleven characters of " noreferrer" |
| `SecureLinks.SecureRel` | js/script.js:119-120 | the two steps together add at most twenty characters |
| `SecureLinks.OpensNewContext` | js/script.js:118 | the selector `a[target="_blank"]` compared ASCII case-insensitively; a selected target is six characters long and starts with "_" |
| `SecureLinks.Secured` | js/script.js:118-121 | the target is kept, and an anchor the selector does not match is unchanged |
| `SecureLinks.AddNoopenerGuarantees` | js/script.js:119 | afterwards rel contains "noopener"; unchanged if it already did, otherwise "noopener" appended with a space only after a non-empty rel |
| `SecureLinks.AddNoreferrerGuarantees` | js/script.js:120 | afterwards rel contains "noreferrer" and still contains "noopener" if it did; unchanged if "noreferrer" was already there |
| `SecureLinks.SecureRelGuarantees` | js/script.js:118-121 | the result contains both "noopener" and "noreferrer"; a token already present is not appended again; a rel holding both is returned unchanged |
| `SecureLinks.SecureRelKeepsPrefix` | js/script.js:119-120 | the normalisation only appends: the original rel is a prefix of the result |
| `SecureLinks.SecureRelIdempotent` | js/script.js:118-121 | normalising twice gives the same rel as normalising once |
| `SecureLinks.SecuredOnlyBlank` | js/script.js:118-121 | only anchors whose target is "_blank" in any letter case are changed, and those end with both tokens |
| `SecureLinks.NormaliseRel` | js/script.js:119-120 | the two guarded appends compute `SecureRel` |
| `SecureLinks.SecureAnchor` | js/script.js:118-121 | the forEach callback turns one anchor into its `Secured` form |
| `SecureLinks.SecureExternalLinks` | js/script.js:118-121 | every anchor of the array is replaced by its `Secured` form, in place |
| `Theme.NothingStored` | js/script.js:86 | a value the change listener treats as "nothing stored" is never one a click writes |
| `Theme.InitialDark` | js/script.js:52-60 | stored "enabled" gives dark, stored "disabled" gives light, anything else follows the OS preference |
| `Theme.Initial` | js/script.js:57-64 | after load the icon shows the sun iff the page is dark, and the dark flag is `InitialDark` |
| `Theme.Toggle` | js/script.js:66-78 | a click flips the dark flag, stores "enabled" iff now dark (else "disabled"), and the icon shows the sun iff dark |
| `Theme.SystemChange` | js/script.js:81-97 | an OS change sets dark to the new answer (icon in step) only when nothing is stored; otherwise the state is untouched; storage is never written |
| `Theme.UnknownValueFollowsOsOnlyAtLoad` | js/script.js:52-86 | a stored value outside "enabled", "disabled", "" and "null" follows the OS at load, and every later OS change leaves the state unchanged |
| `Theme.StoredElsewhere` | js/script.js:84 | another tab's write to the shared `darkMode` key replaces the stored value and leaves this tab's theme and icon alone |
| `Theme.OtherTabWriteBlocksSystem` | js/script.js:70-86 | with nothing stored, another tab storing "enabled" keeps a light tab light at an OS switch to dark, which would otherwise darken it |
| `Theme.ClearedStorageFollowsSystem` | js/script.js:84-96 | a manual choice blocks OS changes, and clearing the key elsewhere makes the next OS change decide the theme |
| `Theme.ToggleTwice` | js/script.js:66-78 | two clicks restore the dark flag and the icon; from a consistent manual choice, the whole state |
| `Theme.ToggleLocksOutSystem` | js/script.js:66-97 | after any click, an OS change leaves the state as it is |
| `Theme.ReplayKeepsIcon` | js/script.js:66-97 | over any sequence of clicks, OS changes and storage writes from other tabs the icon stays in step with the theme |
| `Theme.ManualChoiceIgnoresSystem` | js/script.js:66-97 | once a choice is stored, and other tabs only store choices too, the final dark flag is the start flipped once per click, whatever the OS reports |
| `Theme.ThemeController.constructor` | js/script.js:51-64 | the load-time block produces `Initial(saved, prefersDark)` from the light, moon-icon markup |
| `Theme.ThemeController.OnToggleClick` | js/script.js:66-78 | the handler's new state is `Toggle` of the old |
| `Theme.ThemeController.OnSystemChange` | js/script.js:81-97 | the listener re-reads the shared stored value, and its new state is `SystemChange` of the old |
| `Theme.ThemeController.OnStorageWrittenElsewhere` | js/script.js:84 | a write to the shared key by another tab changes only the stored value, as `StoredElsewhere` says |
| `MobileMenu.BoolText` | js/script.js:151 | `String(isOpen)` is "true" or "false", "true" exactly for an open menu |
| `MobileMenu.OpenedBar` | js/script.js:156-161 | on opening only bar 1 fades out (opacity "0"), only bars 0 and 2 get a transform, and bars past the third keep their style |
| `MobileMenu.HamburgerClick` | js/script.js:148-152 | the menu flag flips; the four projections agree afterwards iff the two `active` classes agreed before, so consistency is preserved |
| `MobileMenu.LinkClick` | js/script.js:170-174 | a nav-link click leaves all four projections closed and consistent |
| `MobileMenu.LinkClickIdempotent` | js/script.js:148-174 | closing twice equals closing once, and a hamburger click after it opens all four together |
| `MobileMenu.HamburgerTwice` | js/script.js:148-152 | two hamburger clicks restore a consistent state |
| `MobileMenu.ReplayConsistent` | js/script.js:148-174 | any sequence of hamburger and nav-link clicks keeps the four projections equal |
| `MobileMenu.Menu.constructor` | js/script.js:143-146 | the markup's menu is closed and consistent, its bars without inline style |
| `MobileMenu.Menu.OnHamburgerClick` | js/script.js:148-166 | the new state is `HamburgerClick` of the old; bars 0-2 take the open styles, or all bars are cleared when closed |
| `MobileMenu.Menu.OnNavLinkClick` | js/script.js:169-182 | the new state is `LinkClick` of the old and every bar's inline style is cleared |
| `ActiveSection.Contains` | js/script.js:211-213 | a (possibly fractional) probe point lies in [top, top+height); a section of height 0 or less contains none |
| `ActiveSection.Mark` | js/script.js:216-221 | one link keeps its href and ends active, with `aria-current`, iff its href is "#" + the section id |
| `ActiveSection.MarkAll` | js/script.js:215-222 | after the inner loop a link is active, and `aria-current`, iff its href is "#" + the section id; hrefs unchanged |
| `ActiveSection.Highlight` | js/script.js:203-225 | the outer loop keeps the number of links and their hrefs |
| `ActiveSection.LastContaining` | js/script.js:206-214 | the index found contains the probe in [top, top+height) and no later section does; none found iff no section contains it |
| `ActiveSection.MarkAllOverwrites` | js/script.js:215-222 | a later match overwrites an earlier one completely |
| `ActiveSection.HighlightIsLastMatch` | js/script.js:203-225 | the links end marked for the last containing section, or unchanged when none contains the probe |
| `ActiveSection.HighlightSelectsOne` | js/script.js:215-222 | with distinct hrefs at most one link ends active, and one does iff some link targets the chosen section |
| `ActiveSection.NoSectionNoChange` | js/script.js:206-224 | with no containing section the link states are unchanged |
| `ActiveSection.HighlightNavigation` | js/script.js:203-225 | the nested loops leave the link array equal to `Highlight` of its old contents at the real-valued probe `scrollY + 100` |
| `OneShot.OnEntry` | js/script.js:251-262 | an entry fires the effect iff the target is still observed and intersecting, and such an entry unobserves it |
| `OneShot.FiresAtMostOnce` | js/script.js:251-262 | over any entry sequence the effect runs at most once; exactly once iff the target was observed and some entry intersected; unobserved is terminal |
| `OneShot.Reveal` | js/script.js:254-258 | a revealed element is shown: opaque at once iff reduced motion is requested, else the fade-in animation |
| `OneShot.RevealTarget.constructor` | js/script.js:269-272 | each animated element starts hidden and observed |
| `OneShot.RevealTarget.OnObserverEntry` | js/script.js:251-262 | the element's phase follows `OnEntry`, and its style changes only when the entry fires |
| `ProjectFilter.Shows` | js/script.js:499 | a card is shown iff the filter is "all" or occurs as a substring of its `data-category` |
| `ProjectFilter.WordShows` | js/script.js:499 | a filter appearing anywhere in the category string shows the card |
| `ProjectFilter.FragmentShows` | js/script.js:499 | the test is not a word match: "web" shows "webgl"; the empty filter shows every card |
| `ProjectFilter.FadeOut` | js/script.js:495-496 | on a click a card turns transparent and shrinks to scale 0.8, keeping its category and `hide` class |
| `ProjectFilter.ActivateOnly` | js/script.js:484-488 | after a click the clicked button is the only active one; filters unchanged |
| `ProjectFilter.Settle` | js/script.js:498-509 | after the delay a card is hidden iff `Shows` fails; a shown card is opaque at scale 1, a hidden one keeps its faded style |
| `ProjectFilter.ClickThenSettle` | js/script.js:480-512 | after a click and its delay, exactly the clicked button is active and each card is hidden iff the filter is not "all" and not a substring of its category |
| `ProjectFilter.Tabs.constructor` | js/script.js:477-478 | the widget holds the page's buttons and cards, nothing scheduled |
| `ProjectFilter.Tabs.OnClick` | js/script.js:481-497 | buttons become `ActivateOnly`, every card fades out, the filter's callbacks are scheduled |
| `ProjectFilter.Tabs.OnDelayElapsed` | js/script.js:498-509 | the oldest click's callbacks settle every card by its filter |
| `StatsCounter.Parse` | js/script.js:572-573 | `+innerText` is a number exactly for a text without the "+" suffix |
| `StatsCounter.NextShown` | js/script.js:574-577 | a tick gives the least integer not below shown + target/200, and it moves up whenever the target is positive |
| `StatsCounter.FinalText` | js/script.js:580-591 | the final text is the target, with "+" iff the target is 90, 2, 10000, 10 or 15 |
| `StatsCounter.Animate` | js/script.js:571-593 | a call reschedules iff the text is a number below the target, showing the next tick; otherwise it shows the final text |
| `StatsCounter.Trace` | js/script.js:571-595 | a terminating chain of calls displays at least one text |
| `StatsCounter.TraceEndsOnTarget` | js/script.js:576-591 | the chain always ends on `FinalText(target)` |
| `StatsCounter.TraceClimbs` | js/script.js:576-579 | the stepped values are plain numbers that climb strictly from the start; all but the last are below the target, the last is not |
| `StatsCounter.AtTargetFinishesAtOnce` | js/script.js:576-591 | a counter at or past its target finishes in one call |
| `StatsCounter.OvershootThenSnap` | js/script.js:574-590 | with target 201 the step from 200 shows 202, and the next call snaps down to 201 |
| `StatsCounter.Counter.constructor` | js/script.js:566-570 | a counter starts with its markup text and nothing displayed yet |
| `StatsCounter.Counter.Step` | js/script.js:571-593 | one call of `animate` rewrites the text as `Animate` says and records it |
| `StatsCounter.Counter.Run` | js/script.js:571-595 | the whole chain displays exactly `Trace` and ends on `FinalText(target)` |
| `StatsCounter.AnimateCounters` | js/script.js:566-597 | every counter ends on its final text |
| `ScrollEffects.BackToTopShown` | js/script.js:103 | whenever the back-to-top button shows, the navbar is scrolled too |
| `ScrollEffects.NavbarScrolled` | js/script.js:191 | the navbar is scrolled only at a positive offset, and always past the back-to-top threshold of 300 |
| `ScrollEffects.BackToTopMonotone` | js/script.js:103-107 | scrolling further down never hides the button |
| `ScrollEffects.NavbarMonotone` | js/script.js:191-195 | scrolling further down never un-scrolls the navbar |
| `ScrollEffects.BackToTopScenarios` | js/script.js:103-107 | hidden at 0, 150 and exactly 300, shown at 300.5 and 301 |
| `ScrollEffects.NavbarScenarios` | js/script.js:191-195 | plain at 0 and exactly 100, scrolled at 100.25 and 150 |
| `ScrollEffects.ScrollWidgets.constructor` | js/script.js:185-186 | nothing shown, `lastScroll` 0 |
| `ScrollEffects.ScrollWidgets.OnScrollBackToTop` | js/script.js:102-108 | the button's `show` class is `scrollY > 300` on a real-valued offset; nothing else changes |
| `ScrollEffects.ScrollWidgets.OnScrollNavbar` | js/script.js:188-198 | the navbar's `scrolled` class is `pageYOffset > 100` on a real-valued offset, and `lastScroll` records the offset |

## Left out

- Preloader and its session flag (js/script.js:1-13): timer-driven presentation.
- AOS initialisation and refresh (js/script.js:15-28): a third-party library.
- The progress bar (js/script.js:35-44): a floating-point width, which divides by zero on a page that cannot scroll.
- The back-to-top click and the smooth-scroll anchors (js/script.js:110-115, 229-243): browser scrolling with animation.
- Both lazy-image observers (js/script.js:123-141, 541-559): they have the same one-shot shape as `OneShot`, but only change image sources and classes.
- Contact form, notification banner and its keyframes (js/script.js:274-361): presentation and timers, with no network call.
- Typing effect, cursor follower, parallax and skill-tag hover (js/script.js:363-467): timers, pointer position and floating-point offsets.
- Footer year, gradient palette and console messages (js/script.js:469-474, 514-563): the host clock and cosmetics.
- The stats observer (js/script.js:599-615) has the same shape as `OneShot.OnEntry`. Its effect is `StatsCounter.AnimateCounters`; the two are not linked by a class of their own.
- Scheduling: `setTimeout` chains and the 300 ms filter delay are explicit events. `Counter.Run` and `OnDelayElapsed` run them in order. Interleavings with other handlers are not modelled.
- StatsCounter.Counter.Run: requires that the chain ends. That means a positive target, or a start not below the target. When a counter starts below a target of 0 or less, the script reschedules forever, so no final state exists.
- StatsCounter.AnimateCounters: requires that every counter's chain ends, so it says nothing about a page where one counter loops (for example `data-target="0"` with text "-1"). In the script each chain is an independent `setTimeout` chain, so the other counters still reach their `FinalText`; the model does not state that case.
- OneShot.OnEntry and OneShot.FiresAtMostOnce: each callback batch is assumed to hold at most one intersecting entry per target. The callback runs `forEach` over the whole batch, and `unobserve` does not drop entries already in it, so a batch with two intersecting entries for one target would run the effect twice in the script (for the stats observer, a second `animateCounters()`).
- StatsCounter.NextShown: counter arithmetic is exact rational arithmetic, not binary floating point. The two agree while the values stay well below 2^40, which covers the page's targets (at most 10000): then `data + target / 200` is rounded by less than 1/200 and cannot cross an integer. For values near 2^50 the double sum is itself rounded (target 2^50 + 1 from shown 1120270407308411 gives 1125899906842624 in the script, 1125899906842625 here).
- A non-numeric `data-target` (NaN) and a missing `data-filter` or `data-category` attribute (null) are not modelled. A suffixed counter text parses as NaN; that case is modelled.
- Theme.Toggle and Theme.ThemeController.OnToggleClick assume every `localStorage.setItem` succeeds. If the call throws (a quota error, or storage revoked after load; storage disabled from the start already makes `getItem` throw at load, so the handler never exists), the script stops after toggling `dark-mode`, so the page is dark while the icon still shows the moon; the model does not capture that path. Likewise a throwing `getItem` at load stops the script before any later handler is registered (the `load`, `resize` and progress-bar `scroll` listeners above it are already in place), which `Theme.ThemeController.constructor` does not model.
- The HTML markup is not part of this model. Its initial state is assumed: a light page with a moon icon, a closed menu, and bars without inline style.
- The body's class list is shared by the theme (`dark-mode`) and the menu (`no-scroll`). The model keeps each class with its own component.
