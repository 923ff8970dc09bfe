/** The dark-mode controller: the body's `dark-mode` class, the toggle icon's
    `fa-sun`/`fa-moon` classes and the `darkMode` key of local storage. */
module Theme {
  import opened Options

  /** The three pieces of page state the controller owns. `stored` is what
      `localStorage.getItem("darkMode")` returns (None for null). */
  datatype ThemeState = ThemeState(dark: bool, sunIcon: bool, moonIcon: bool, stored: Option<string>)

  /** The icon shows the sun exactly when the page is dark, the moon otherwise. */
  predicate IconMatches(s: ThemeState)
  {
    s.sunIcon == s.dark && s.moonIcon == !s.dark
  }

  /** The user has made an explicit choice: storage holds one of the two values a click writes. */
  predicate ManualChoice(stored: Option<string>)
  {
    stored == Some("enabled") || stored == Some("disabled")
  }

  /** The condition of the system-change listener, `!savedTheme || savedTheme === "null"`:
      null, the empty string (falsy) and the text "null" all count as "nothing stored". */
  predicate NothingStored(stored: Option<string>): (b: bool)
    ensures b ==> !ManualChoice(stored)
  {
    stored.None? || stored.value == "" || stored.value == "null"
  }

  /** The load-time decision: an explicit choice wins; otherwise the OS preference decides. */
  function InitialDark(saved: Option<string>, prefersDark: bool): (dark: bool)
    ensures saved == Some("enabled") ==> dark
    ensures saved == Some("disabled") ==> !dark
    ensures !ManualChoice(saved) ==> dark == prefersDark
  {
    saved == Some("enabled") || (saved != Some("disabled") && prefersDark)
  }

  /** State right after the load-time block, starting from the markup's light page
      with a moon icon: dark-mode and the sun icon are switched on only when dark. */
  function Initial(saved: Option<string>, prefersDark: bool): (s: ThemeState)
    ensures IconMatches(s)
    ensures s.dark == InitialDark(saved, prefersDark)
    ensures s.stored == saved
  {
    if InitialDark(saved, prefersDark) then ThemeState(true, true, false, saved)
    else ThemeState(false, false, true, saved)
  }

  /** The click handler: the dark flag flips, the new choice is persisted and the icon follows. */
  function Toggle(s: ThemeState): (r: ThemeState)
    ensures r.dark == !s.dark
    ensures IconMatches(r)
    ensures ManualChoice(r.stored) && (r.stored == Some("enabled") <==> r.dark)
  {
    var dark := !s.dark;
    if dark then ThemeState(dark, true, false, Some("enabled"))
    else ThemeState(dark, false, true, Some("disabled"))
  }

  /** The `prefers-color-scheme` change listener: applied only when nothing is stored;
      it never writes to storage. */
  function SystemChange(s: ThemeState, matches: bool): (r: ThemeState)
    ensures r.stored == s.stored
    ensures NothingStored(s.stored) ==> r.dark == matches && IconMatches(r)
    ensures !NothingStored(s.stored) ==> r == s
  {
    if NothingStored(s.stored) then
      if matches then s.(dark := true, sunIcon := true, moonIcon := false)
      else s.(dark := false, sunIcon := false, moonIcon := true)
    else
      s
  }

  /** Two clicks in a row give back the original theme, icon and (manual) choice. */
  lemma ToggleTwice(s: ThemeState)
    requires IconMatches(s)
    ensures Toggle(Toggle(s)).dark == s.dark
    ensures Toggle(Toggle(s)).sunIcon == s.sunIcon && Toggle(Toggle(s)).moonIcon == s.moonIcon
    ensures ManualChoice(s.stored) && (s.stored == Some("enabled") <==> s.dark) ==> Toggle(Toggle(s)) == s
  {
  }

  /** After a click, OS theme changes are ignored. */
  lemma ToggleLocksOutSystem(s: ThemeState, matches: bool)
    ensures SystemChange(Toggle(s), matches) == Toggle(s)
  {
  }

  /** Any other stored value, such as "foo": the page follows the OS at load, but
      afterwards ignores every OS change, since the listener does not count it as
      "nothing stored". */
  lemma UnknownValueFollowsOsOnlyAtLoad(s: ThemeState, v: string, prefersDark: bool, matches: bool)
    requires v !in {"", "null", "enabled", "disabled"}
    requires s.stored == Some(v)
    ensures InitialDark(Some(v), prefersDark) == prefersDark
    ensures SystemChange(s, matches) == s
  {
  }

  /** Local storage is shared by every tab of the page's origin, and the script has no
      `storage` listener: another tab can rewrite the `darkMode` key, which changes
      what the next OS change sees but neither the theme nor the icon of this tab. */
  function StoredElsewhere(s: ThemeState, v: Option<string>): (r: ThemeState)
    ensures r.dark == s.dark && r.sunIcon == s.sunIcon && r.moonIcon == s.moonIcon
    ensures r.stored == v
  {
    s.(stored := v)
  }

  /** Two tabs with nothing stored: a click in the other tab stores "enabled", and an
      OS switch to dark then leaves this light tab light; without that write it would
      turn dark. */
  lemma OtherTabWriteBlocksSystem(s: ThemeState)
    requires s.stored == None && !s.dark
    ensures !SystemChange(StoredElsewhere(s, Some("enabled")), true).dark
    ensures SystemChange(s, true).dark
  {
  }

  /** The reverse: once the user has chosen, clearing the key from another tab (or
      clearing site data) hands the theme back to the OS at its next change. */
  lemma ClearedStorageFollowsSystem(s: ThemeState, matches: bool)
    requires ManualChoice(s.stored)
    ensures SystemChange(s, matches) == s
    ensures SystemChange(StoredElsewhere(s, None), matches).dark == matches
  {
  }

  /** The events the controller sees after load: its own clicks, OS changes, and
      writes to the shared storage key by another tab. */
  datatype Event = Click | OsChange(matches: bool) | StorageWrite(value: Option<string>)

  /** The state after one event. */
  function Apply(s: ThemeState, e: Event): ThemeState
  {
    match e
    case Click => Toggle(s)
    case OsChange(m) => SystemChange(s, m)
    case StorageWrite(v) => StoredElsewhere(s, v)
  }

  /** The state after handling `events` in order. */
  function Replay(s: ThemeState, events: seq<Event>): ThemeState
    decreases |events|
  {
    if events == [] then s
    else Replay(Apply(s, events[0]), events[1..])
  }

  /** Number of clicks in an event sequence. */
  function Clicks(events: seq<Event>): nat
  {
    if events == [] then 0 else (if events[0].Click? then 1 else 0) + Clicks(events[1..])
  }

  /** Whatever happens after load, the icon stays in step with the theme. */
  lemma {:induction false} ReplayKeepsIcon(s: ThemeState, events: seq<Event>)
    requires IconMatches(s)
    ensures IconMatches(Replay(s, events))
    decreases |events|
  {
    if events != [] {
      ReplayKeepsIcon(Apply(s, events[0]), events[1..]);
    }
  }

  /** No other tab erases the choice: every write from elsewhere stores one of the
      two values a click writes. */
  predicate OthersKeepChoice(events: seq<Event>)
  {
    forall k :: 0 <= k < |events| && events[k].StorageWrite? ==> ManualChoice(events[k].value)
  }

  /** Once the user has chosen, only clicks change the theme: the final dark flag is
      the starting one flipped once per click, whatever the OS reports meanwhile,
      as long as other tabs only store choices too. */
  lemma {:induction false} ManualChoiceIgnoresSystem(s: ThemeState, events: seq<Event>)
    requires ManualChoice(s.stored)
    requires OthersKeepChoice(events)
    ensures Replay(s, events).dark == (if Clicks(events) % 2 == 0 then s.dark else !s.dark)
    ensures ManualChoice(Replay(s, events).stored)
    decreases |events|
  {
    if events != [] {
      assert OthersKeepChoice(events[1..]) by {
        forall k | 0 <= k < |events[1..]| && events[1..][k].StorageWrite?
          ensures ManualChoice(events[1..][k].value)
        {
          assert events[1..][k] == events[k + 1];
        }
      }
      ManualChoiceIgnoresSystem(Apply(s, events[0]), events[1..]);
    }
  }

  /** The page objects the controller mutates in place. */
  class ThemeController {
    var dark: bool
    var sunIcon: bool
    var moonIcon: bool
    var stored: Option<string>

    function State(): ThemeState
      reads this
    {
      ThemeState(dark, sunIcon, moonIcon, stored)
    }

    /** The load-time block. The markup's page is light and its icon shows the moon;
        storage holds `saved`, and `prefersDark` is the colour-scheme query's answer. */
    constructor (saved: Option<string>, prefersDark: bool)
      ensures State() == Initial(saved, prefersDark)
    {
      dark, sunIcon, moonIcon, stored := false, false, true, saved;
      if InitialDark(saved, prefersDark) {
        dark := true;
        moonIcon := false;
        sunIcon := true;
      }
    }

    /** Click on the toggle button. */
    method OnToggleClick()
      modifies this
      ensures State() == Toggle(old(State()))
    {
      dark := !dark;
      if dark {
        stored := Some("enabled");
        moonIcon := false;
        sunIcon := true;
      } else {
        stored := Some("disabled");
        sunIcon := false;
        moonIcon := true;
      }
    }

    /** The colour-scheme media query reported a change; `matches` is its new answer.
        The listener re-reads the shared storage, which `stored` holds. */
    method OnSystemChange(matches: bool)
      modifies this
      ensures State() == SystemChange(old(State()), matches)
    {
      var saved := stored;
      if NothingStored(saved) {
        if matches {
          dark := true;
          moonIcon := false;
          sunIcon := true;
        } else {
          dark := false;
          sunIcon := false;
          moonIcon := true;
        }
      }
    }

    /** Another tab of the same origin writes the `darkMode` key. No handler of this
        page runs; only the shared storage this page reads changes. */
    method OnStorageWrittenElsewhere(v: Option<string>)
      modifies this
      ensures State() == StoredElsewhere(old(State()), v)
    {
      stored := v;
    }
  }
}
