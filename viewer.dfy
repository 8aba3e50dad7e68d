/** The flashcard viewer script: an index over the deck, moved by the next
    and previous buttons, and the navigation it renders. */
module Viewer {
  import opened Wrappers
  import opened Text

  /** The language strings the viewer reads from its configuration. */
  datatype Strings = Strings(
    finish: Option<string>,
    nextCard: Option<string>,
    saving: Option<string>,
    finished: Option<string>,
    deckFinished: Option<string>)

  /** The alert the request's callback raises: `then` and `catch` read the
      same string but fall back to different texts. */
  function DeckAlert(strings: Strings, succeeded: bool): (text: string)
    ensures strings.deckFinished.Some? && strings.deckFinished.value != "" ==> text == strings.deckFinished.value
    ensures (strings.deckFinished.None? || strings.deckFinished.value == "") ==>
      text == (if succeeded then "Deck finished! Grade recorded: 100%" else "Deck finished!")
  {
    JsOr(strings.deckFinished, if succeeded then "Deck finished! Grade recorded: 100%" else "Deck finished!")
  }

  /** The label of the next button for card `cur` of `total`. */
  function NextLabel(strings: Strings, cur: int, total: int): (text: string)
    ensures cur == total - 1 ==> text == JsOr(strings.finish, "Finish")
    ensures cur != total - 1 ==> text == JsOr(strings.nextCard, "Next Card")
  {
    if cur == total - 1 then JsOr(strings.finish, "Finish") else JsOr(strings.nextCard, "Next Card")
  }

  /** The counter text, `(currentCard + 1) + ' / ' + totalCards`. */
  function CounterText(cur: int, total: int): string {
    IntToString(cur + 1) + " / " + IntToString(total)
  }

  /** The visibility the `each` loop is meant to give `n` containers: only
      the one at `cur` is shown. */
  function OnlyShown(n: nat, cur: int): (d: seq<bool>)
    ensures |d| == n
    ensures forall i :: 0 <= i < n ==> (d[i] <==> i == cur)
  {
    seq(n, i => i == cur)
  }

  /** Exactly one card is visible when the index is within the deck. */
  lemma OneCardShown(n: nat, cur: int)
    requires 0 <= cur < n
    ensures (set i | 0 <= i < n && OnlyShown(n, cur)[i]) == {cur}
  {
  }

  /** The visibility after `updateNavigation` as written: its callback is
      bound to the viewer, so `$(this)` wraps the viewer object rather than
      the container, no card's style is set, and the visibility stays as it
      was. */
  function ShownAsWritten(before: seq<bool>, cur: int): (d: seq<bool>)
    ensures d == before
  {
    before
  }

  /** On a two-card deck shown as the page renders it (first card only),
      moving to the second card leaves the first one visible and the second
      hidden. */
  lemma AsWrittenShowsStaleCard()
    ensures var d := ShownAsWritten([true, false], 1);
      d[0] && !d[1] && d != OnlyShown(2, 1)
  {
    assert OnlyShown(2, 1)[0] == false;
  }

  class FlashcardViewer {
    var strings: Strings
    var totalCards: int
    var currentCard: int
    /** Whether the click and key handlers are attached. */
    var wired: bool
    /** The visibility of each `.gemini-flashcard-container`, in page order. */
    var shown: seq<bool>
    var counter: string
    var prevDisabled: bool
    var nextDisabled: bool
    var nextLabel: string
    /** The alerts raised, in order. */
    var alerts: seq<string>

    /** The index stays within the deck. */
    predicate Valid()
      reads this
    {
      0 <= currentCard && (currentCard == 0 || currentCard < totalCards)
    }

    /** The navigation for the current index over the given containers. */
    predicate Rendered(n: nat)
      reads this
    {
      && shown == OnlyShown(n, currentCard)
      && counter == CounterText(currentCard, totalCards)
      && prevDisabled == (currentCard == 0)
      && nextLabel == NextLabel(strings, currentCard, totalCards)
    }

    /** `init`: `totalCards = params.totalCards || 0`, index 0, handlers and
        a first render only when there are cards. `page` is the containers'
        visibility as the page renders them. */
    constructor (strings: Strings, totalCards: Option<int>, page: seq<bool>)
      ensures this.strings == strings
      ensures this.totalCards == (if totalCards.Some? then totalCards.value else 0)
      ensures currentCard == 0 && Valid()
      ensures wired <==> this.totalCards > 0
      ensures wired ==> Rendered(|page|)
      ensures !wired ==> shown == page
      ensures !nextDisabled && alerts == []
    {
      this.strings := strings;
      this.totalCards := if totalCards.Some? then totalCards.value else 0;
      currentCard := 0;
      shown := page;
      counter := "";
      prevDisabled := false;
      nextDisabled := false;
      nextLabel := "";
      alerts := [];
      wired := false;
      new;
      if this.totalCards > 0 {
        wired := true;
        UpdateNavigation();
      }
    }

    /** `updateNavigation`, with each container shown exactly when its index
        is the current card. */
    method UpdateNavigation()
      modifies this
      ensures Rendered(|old(shown)|)
      ensures strings == old(strings) && totalCards == old(totalCards) && currentCard == old(currentCard)
      ensures wired == old(wired) && nextDisabled == old(nextDisabled) && alerts == old(alerts)
    {
      var n := |shown|;
      var i := 0;
      while i < n
        invariant 0 <= i <= n && |shown| == n
        invariant forall j :: 0 <= j < i ==> (shown[j] <==> j == currentCard)
        invariant strings == old(strings) && totalCards == old(totalCards) && currentCard == old(currentCard)
        invariant wired == old(wired) && nextDisabled == old(nextDisabled) && alerts == old(alerts)
      {
        shown := shown[i := i == currentCard];
        i := i + 1;
      }
      assert shown == OnlyShown(n, currentCard);
      counter := CounterText(currentCard, totalCards);
      prevDisabled := currentCard == 0;
      nextLabel := if currentCard == totalCards - 1 then JsOr(strings.finish, "Finish")
                   else JsOr(strings.nextCard, "Next Card");
    }

    /** `nextCard`: forward while not on the last card, else finish the
        deck with the index unchanged. */
    method NextCard()
      requires Valid()
      modifies this
      ensures Valid()
      ensures currentCard == Next(old(currentCard), old(totalCards))
      ensures old(currentCard) < old(totalCards) - 1 ==>
        currentCard == old(currentCard) + 1 && Rendered(|old(shown)|) && nextDisabled == old(nextDisabled)
      ensures old(currentCard) >= old(totalCards) - 1 ==>
        && currentCard == old(currentCard)
        && nextDisabled && nextLabel == JsOr(strings.saving, "Saving...")
        && shown == old(shown)
        && counter == old(counter) && prevDisabled == old(prevDisabled)
      ensures totalCards == old(totalCards) && strings == old(strings)
      ensures wired == old(wired) && alerts == old(alerts)
    {
      if currentCard < totalCards - 1 {
        currentCard := currentCard + 1;
        UpdateNavigation();
      } else {
        FinishDeck();
      }
    }

    /** `previousCard`: back while not on the first card. */
    method PreviousCard()
      requires Valid()
      modifies this
      ensures Valid()
      ensures currentCard == Previous(old(currentCard))
      ensures old(currentCard) > 0 ==> currentCard == old(currentCard) - 1 && Rendered(|old(shown)|)
      ensures old(currentCard) == 0 ==> currentCard == 0 && shown == old(shown) && counter == old(counter)
      ensures old(currentCard) == 0 ==> unchanged(this)
      ensures totalCards == old(totalCards) && strings == old(strings) && nextDisabled == old(nextDisabled)
      ensures wired == old(wired) && alerts == old(alerts)
    {
      if currentCard > 0 {
        currentCard := currentCard - 1;
        UpdateNavigation();
      }
    }

    /** `finishDeck` up to the request: the next button is disabled and
        reads "Saving...". */
    method FinishDeck()
      modifies this
      ensures nextDisabled && nextLabel == JsOr(strings.saving, "Saving...")
      ensures strings == old(strings) && totalCards == old(totalCards) && currentCard == old(currentCard)
      ensures shown == old(shown) && counter == old(counter) && prevDisabled == old(prevDisabled)
      ensures wired == old(wired) && alerts == old(alerts)
    {
      nextDisabled := true;
      nextLabel := JsOr(strings.saving, "Saving...");
    }

    /** The request's `then` or `catch` callback: one alert with its
        fallback text, then either way the label reads "Finished" and the
        button stays disabled. */
    method DeckSaved(succeeded: bool)
      modifies this
      ensures alerts == old(alerts) + [DeckAlert(old(strings), succeeded)]
      ensures nextLabel == JsOr(strings.finished, "Finished")
      ensures nextDisabled == old(nextDisabled)
      ensures strings == old(strings) && totalCards == old(totalCards) && currentCard == old(currentCard)
      ensures shown == old(shown) && counter == old(counter) && prevDisabled == old(prevDisabled)
      ensures wired == old(wired)
    {
      if succeeded {
        alerts := alerts + [JsOr(strings.deckFinished, "Deck finished! Grade recorded: 100%")];
      } else {
        alerts := alerts + [JsOr(strings.deckFinished, "Deck finished!")];
      }
      nextLabel := JsOr(strings.finished, "Finished");
    }
  }

  /** The index moves of the two buttons, as functions on the index. */
  function Next(cur: int, total: int): int {
    if cur < total - 1 then cur + 1 else cur
  }

  function Previous(cur: int): int {
    if cur > 0 then cur - 1 else cur
  }

  /** Both moves keep the index within the deck, and any run of moves
      does too. */
  lemma MovesStayInDeck(cur: int, total: int)
    requires 0 <= cur && (cur == 0 || cur < total)
    ensures var n := Next(cur, total); 0 <= n && (n == 0 || n < total)
    ensures var p := Previous(cur); 0 <= p && (p == 0 || p < total)
  {
  }

  /** Next moves forward exactly when a later card exists, and Previous
      undoes it. */
  lemma NextThenPrevious(cur: int, total: int)
    requires 0 <= cur
    ensures Next(cur, total) == cur + 1 <==> cur < total - 1
    ensures cur < total - 1 ==> Previous(Next(cur, total)) == cur
  {
  }

  /** The index after `k` presses of next from the first card. */
  function Iterate(k: nat, total: int): int {
    if k == 0 then 0 else Next(Iterate(k - 1, total), total)
  }

  /** Each press of next from the first card advances by one until the
      last card. */
  lemma {:induction false} IterateCounts(k: nat, total: int)
    requires k < total
    ensures Iterate(k, total) == k
  {
    if k > 0 {
      IterateCounts(k - 1, total);
    }
  }

  /** `total - 1` presses reach the last card, and a further press stays
      there (and finishes the deck instead). */
  lemma LastCardIsFinal(total: int)
    requires total > 0
    ensures Iterate(total - 1, total) == total - 1
    ensures Next(total - 1, total) == total - 1
  {
    IterateCounts(total - 1, total);
  }
}
