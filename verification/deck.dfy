/** Drawing from the deck. The engine treats its deck as a stack and always
    removes the last card (`deck.remove(deck.size() - 1)`); that call throws
    on an empty deck, so every draw here requires a card to be there. */
module Deck {
  import opened Cards
  import opened Scoring

  /** The card the next draw takes. */
  function Top(deck: seq<PlayingCard>): PlayingCard
    requires |deck| > 0
  {
    deck[|deck| - 1]
  }

  /** The deck after one draw. */
  function Pop(deck: seq<PlayingCard>): seq<PlayingCard>
    requires |deck| > 0
  {
    deck[..|deck| - 1]
  }

  datatype Dealt = Dealt(hands: seq<seq<PlayingCard>>, deck: seq<PlayingCard>)

  /** One pass of the inner loop of `dealInitialCards`: seats i, i+1, ...
      each receive the next card, in seat order. */
  function DealEach(hands: seq<seq<PlayingCard>>, deck: seq<PlayingCard>, i: nat): (r: Dealt)
    requires i <= |hands| && |deck| >= |hands| - i
    ensures |r.hands| == |hands|
    ensures r.deck == deck[..|deck| - (|hands| - i)]
    ensures forall j :: 0 <= j < i ==> r.hands[j] == hands[j]
    ensures forall j :: i <= j < |hands| ==> r.hands[j] == hands[j] + [deck[|deck| - 1 - (j - i)]]
    decreases |hands| - i
  {
    if i == |hands| then Dealt(hands, deck)
    else DealEach(hands[i := hands[i] + [Top(deck)]], Pop(deck), i + 1)
  }

  /** The dealer can finish drawing without running out of cards: the hand
      already scores 17 or more, or there is a card to draw and the dealer can
      finish after drawing it. This is exactly the condition under which the
      dealer loop of `dealerPlay` does not throw. */
  predicate CanFinish(hand: seq<PlayingCard>, deck: seq<PlayingCard>)
    decreases |deck|
  {
    HandScore(hand) >= 17 || (|deck| > 0 && CanFinish(hand + [Top(deck)], Pop(deck)))
  }

  /** `s` back to front: the order in which cards come off the end of a deck. */
  function Reverse(s: seq<PlayingCard>): (r: seq<PlayingCard>)
    ensures |r| == |s|
    decreases |s|
  {
    if s == [] then [] else [s[|s| - 1]] + Reverse(s[..|s| - 1])
  }

  datatype Drawn = Drawn(hand: seq<PlayingCard>, deck: seq<PlayingCard>)

  /** The drawing loop of `dealerPlay`: while the full-hand score is below 17,
      take the next card and score the whole hand again. */
  function DealerDraw(hand: seq<PlayingCard>, deck: seq<PlayingCard>): (r: Drawn)
    requires CanFinish(hand, deck)
    ensures HandScore(r.hand) >= 17
    ensures |r.deck| <= |deck| && r.deck == deck[..|r.deck|]
    ensures r.hand == hand + Reverse(deck[|r.deck|..])
    ensures forall k :: |hand| <= k < |r.hand| ==> HandScore(r.hand[..k]) < 17
    decreases |deck|
  {
    if HandScore(hand) >= 17 then
      assert deck[|deck|..] == [];
      Drawn(hand, deck)
    else
      var r := DealerDraw(hand + [Top(deck)], Pop(deck));
      DrawStep(hand, deck, r);
      r
  }

  /** One draw followed by the rest of the drawing is the whole drawing:
      the card taken first is the last card of the deck. */
  lemma DrawStep(hand: seq<PlayingCard>, deck: seq<PlayingCard>, r: Drawn)
    requires |deck| > 0 && HandScore(hand) < 17
    requires |r.deck| <= |deck| - 1 && r.deck == Pop(deck)[..|r.deck|]
    requires r.hand == hand + [Top(deck)] + Reverse(Pop(deck)[|r.deck|..])
    requires forall k :: |hand| + 1 <= k < |r.hand| ==> HandScore(r.hand[..k]) < 17
    ensures r.deck == deck[..|r.deck|]
    ensures r.hand == hand + Reverse(deck[|r.deck|..])
    ensures forall k :: |hand| <= k < |r.hand| ==> HandScore(r.hand[..k]) < 17
  {
    var m := |r.deck|;
    var c := Top(deck);
    assert Pop(deck)[m..] == deck[m..][..|deck| - m - 1];
    assert Reverse(deck[m..]) == [c] + Reverse(Pop(deck)[m..]);
    assert r.hand[..|hand|] == hand;
  }

  /** A sufficient condition for `CanFinish`: every card is worth at least one
      point, so the dealer, who stops at 17, never needs more cards than
      17 minus the hand's hard total. */
  lemma {:induction false} EnoughForDealer(hand: seq<PlayingCard>, deck: seq<PlayingCard>)
    requires |deck| + HardTotal(hand) >= 17
    ensures CanFinish(hand, deck)
    decreases |deck|
  {
    if HandScore(hand) < 17 {
      var c := Top(deck);
      TotalsAppend(hand, c);
      assert Value(c) - 10 * AceFlag(c) >= 1;
      EnoughForDealer(hand + [c], Pop(deck));
    }
  }

  /** The dealer never holds more than 17 cards after drawing: before the
      last draw the hand scored under 17, so it held at most 16 cards. */
  lemma DealerHandBound(hand: seq<PlayingCard>, deck: seq<PlayingCard>)
    requires CanFinish(hand, deck)
    ensures |DealerDraw(hand, deck).hand| <= if |hand| > 17 then |hand| else 17
  {
    var r := DealerDraw(hand, deck);
    if |r.hand| > |hand| {
      var k := |r.hand| - 1;
      assert HandScore(r.hand[..k]) < 17;
      HardTotalAtLeastSize(r.hand[..k]);
    }
  }

  /** Card i of a reversed sequence is card i from the end of the original. */
  lemma {:induction false} ReverseAt(s: seq<PlayingCard>)
    ensures forall j :: 0 <= j < |s| ==> Reverse(s)[j] == s[|s| - 1 - j]
    decreases |s|
  {
    if s != [] {
      ReverseAt(s[..|s| - 1]);
    }
  }

  /** Reversing keeps every card. */
  lemma {:induction false} ReversePermutes(s: seq<PlayingCard>)
    ensures multiset(Reverse(s)) == multiset(s)
    decreases |s|
  {
    if s != [] {
      ReversePermutes(s[..|s| - 1]);
      assert s == s[..|s| - 1] + [s[|s| - 1]];
    }
  }

  /** The dealer's drawing moves cards from the deck to the hand and loses
      or creates none. */
  lemma DealerDrawConserves(hand: seq<PlayingCard>, deck: seq<PlayingCard>)
    requires CanFinish(hand, deck)
    ensures
      var r := DealerDraw(hand, deck);
      multiset(r.deck) + multiset(r.hand) == multiset(deck) + multiset(hand)
  {
    var r := DealerDraw(hand, deck);
    var m := |r.deck|;
    ReversePermutes(deck[m..]);
    assert deck == r.deck + deck[m..];
  }
}
