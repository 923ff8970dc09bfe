/** The project filter tabs: a click makes its button the only active one and fades
    every card out; 300 ms later each card is shown or hidden by a substring test of
    its `data-category` against the button's `data-filter`. */
module ProjectFilter {
  import opened Strings

  /** A `.tab-btn`: its `data-filter` and whether it has the `active` class. */
  datatype TabButton = TabButton(filter: string, active: bool)

  /** A `.project-card`: its `data-category`, whether it has the `hide` class, and
      its inline `opacity` and `transform`. */
  datatype Card = Card(category: string, hidden: bool, opacity: string, transform: string)

  /** The test in the deferred callback, `filter === "all" || categories.includes(filter)`.
      It is a substring test on the whole attribute, not a match against its words. */
  predicate Shows(filter: string, category: string): (b: bool)
    ensures b <==> filter == "all" || IsSubstring(filter, category)
  {
    filter == "all" || Includes(category, filter)
  }

  /** Any word of the category list matches, since a word is a substring. */
  lemma WordShows(filter: string, before: string, after: string)
    ensures Shows(filter, before + filter + after)
  {
    IncludesInfix(before, filter, after);
  }

  /** A filter may also match inside a longer word: "web" shows a card whose only
      category is "webgl", and the empty filter shows every card. */
  lemma FragmentShows(category: string)
    ensures Shows("web", "webgl")
    ensures Shows("", category)
  {
    WordShows("web", "", "gl");
    WordShows("", "", category);
  }

  /** Buttons after a click on button `b`: its button alone is active. */
  function ActivateOnly(buttons: seq<TabButton>, b: nat): (r: seq<TabButton>)
    requires b < |buttons|
    ensures |r| == |buttons|
    ensures forall k :: 0 <= k < |r| ==> r[k].filter == buttons[k].filter
    ensures forall k :: 0 <= k < |r| ==> (r[k].active <==> k == b)
  {
    seq(|buttons|, k requires 0 <= k < |buttons| => buttons[k].(active := k == b))
  }

  /** The synchronous fade-out every card gets on a click: the card turns transparent
      and shrinks, but keeps its category and its `hide` class. */
  function FadeOut(c: Card): (r: Card)
    ensures r.category == c.category && r.hidden == c.hidden
    ensures r.opacity == "0" && r.transform == "scale(0.8)"
  {
    c.(opacity := "0", transform := "scale(0.8)")
  }

  /** The deferred callback for one card. */
  function Settle(c: Card, filter: string): (r: Card)
    ensures r.category == c.category
    ensures r.hidden <==> !Shows(filter, c.category)
    ensures !r.hidden ==> r.opacity == "1" && r.transform == "scale(1)"
    ensures r.hidden ==> r.opacity == c.opacity && r.transform == c.transform
  {
    if Shows(filter, c.category) then
      c.(hidden := false, opacity := "1", transform := "scale(1)")
    else
      c.(hidden := true)
  }

  /** The tab widget: the buttons and cards it rewrites in place, and the filters
      whose 300 ms callbacks are scheduled and have not yet run, oldest first. */
  class Tabs {
    const buttons: array<TabButton>
    const cards: array<Card>
    var pending: seq<string>

    constructor (buttons: array<TabButton>, cards: array<Card>)
      ensures this.buttons == buttons && this.cards == cards && pending == []
    {
      this.buttons := buttons;
      this.cards := cards;
      pending := [];
    }

    /** Click on button `b`. */
    method OnClick(b: nat)
      requires b < buttons.Length
      modifies this, buttons, cards
      ensures buttons[..] == ActivateOnly(old(buttons[..]), b)
      ensures forall k :: 0 <= k < cards.Length ==> cards[k] == FadeOut(old(cards[k]))
      ensures pending == old(pending) + [old(buttons[b].filter)]
    {
      var filter := buttons[b].filter;

      var i := 0;
      while i < buttons.Length
        modifies buttons
        invariant 0 <= i <= buttons.Length
        invariant forall k :: 0 <= k < i ==> buttons[k] == old(buttons[k]).(active := false)
        invariant forall k :: i <= k < buttons.Length ==> buttons[k] == old(buttons[k])
      {
        buttons[i] := buttons[i].(active := false);
        i := i + 1;
      }
      buttons[b] := buttons[b].(active := true);

      var j := 0;
      while j < cards.Length
        modifies cards
        invariant 0 <= j <= cards.Length
        invariant forall k :: 0 <= k < j ==> cards[k] == FadeOut(old(cards[k]))
        invariant forall k :: j <= k < cards.Length ==> cards[k] == old(cards[k])
      {
        cards[j] := cards[j].(opacity := "0", transform := "scale(0.8)");
        j := j + 1;
      }
      pending := pending + [filter];
    }

    /** The 300 ms delay of the oldest click has elapsed: its callbacks run, one per card. */
    method OnDelayElapsed()
      requires pending != []
      modifies this, cards
      ensures forall k :: 0 <= k < cards.Length ==> cards[k] == Settle(old(cards[k]), old(pending)[0])
      ensures pending == old(pending)[1..]
    {
      var filter := pending[0];
      pending := pending[1..];
      var j := 0;
      while j < cards.Length
        modifies cards
        invariant 0 <= j <= cards.Length
        invariant forall k :: 0 <= k < j ==> cards[k] == Settle(old(cards[k]), filter)
        invariant forall k :: j <= k < cards.Length ==> cards[k] == old(cards[k])
      {
        var card := cards[j];
        var categories := card.category;
        if Shows(filter, categories) {
          card := card.(hidden := false);
          card := card.(opacity := "1", transform := "scale(1)");
        } else {
          card := card.(hidden := true);
        }
        cards[j] := card;
        j := j + 1;
      }
    }
  }

  /** A click followed by its delay: exactly the clicked button is active and each
      card is hidden iff the filter is not "all" and is not a substring of its category. */
  lemma ClickThenSettle(buttons: seq<TabButton>, cards: seq<Card>, b: nat)
    requires b < |buttons|
    ensures forall k :: 0 <= k < |buttons| ==> (ActivateOnly(buttons, b)[k].active <==> k == b)
    ensures forall k :: 0 <= k < |cards| ==>
      (Settle(FadeOut(cards[k]), buttons[b].filter).hidden <==>
         buttons[b].filter != "all" && !IsSubstring(buttons[b].filter, cards[k].category))
  {
  }
}
