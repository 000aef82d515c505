/** The pure decisions of the Swing client (src/BlackjackClient.java): its
    own scoring of a hand, which hands it shows, how it reads a betting
    error, which bet buttons it enables, which newly arrived cards it
    animates, and the dealer's score label. The client's state here is the
    last snapshot it received. */
module Client {
  import opened Wrappers
  import opened Text
  import opened Cards
  import opened Scoring
  import opened Settlement
  import opened Blackjack
  import opened Session

  /** `calculatePlayerScore`: the raw total and ace count of the whole
      hand, then aces demoted one at a time while the total is over 21. */
  method CalculatePlayerScore(hand: seq<PlayingCard>) returns (score: int)
    ensures score == HandScore(hand)
  {
    if |hand| == 0 {
      return 0;
    }
    var sum, aceCount := 0, 0;
    var i := 0;
    while i < |hand|
      invariant 0 <= i <= |hand|
      invariant sum == RawTotal(hand[..i]) && aceCount == AceCount(hand[..i])
    {
      TotalsAppend(hand[..i], hand[i]);
      assert hand[..i + 1] == hand[..i] + [hand[i]];
      sum := sum + Value(hand[i]);
      aceCount := aceCount + AceFlag(hand[i]);
      i := i + 1;
    }
    assert hand[..|hand|] == hand;
    while sum > 21 && aceCount > 0
      invariant 0 <= aceCount
      invariant OptimalScore(sum, aceCount) == HandScore(hand)
      decreases aceCount
    {
      sum := sum - 10;
      aceCount := aceCount - 1;
    }
    return sum;
  }

  /** The client's score of a seat's hand agrees with the total the server
      sends for that seat exactly when the hand is within 21 or holds no
      ace: for a bust hand with an ace the server's figure is lower. */
  lemma ClientScoreAgreesIff(s: Session, viewer: int, seat: int)
    requires SessionWf(s) && 0 <= seat < 2
    ensures
      var u := CreateUpdate(s, viewer);
      (u.sums[seat] == HandScore(u.hands[seat]))
        <==> (HandScore(u.hands[seat]) <= 21 || AceCount(u.hands[seat]) == 0)
  {
  }

  /** `shouldShowPlayerCards`: the viewer's own hand always, another seat's
      only once the round is over. */
  function ShouldShowPlayerCards(u: Snapshot, playerId: int): (show: bool)
    ensures playerId == u.myId ==> show
    ensures playerId != u.myId ==> (show <==> u.phase == GameOver)
  {
    playerId == u.myId || u.phase == GameOver
  }

  /** The opponent's cards travel to the client in every snapshot; only the
      client's display rule keeps them face down before the round ends. */
  lemma OpponentHandSentButHidden(s: Session, viewer: int)
    requires SessionWf(s) && (viewer == 0 || viewer == 1)
    ensures
      var u := CreateUpdate(s, viewer);
      && u.hands[1 - viewer] == s.game.hands[1 - viewer]
      && ShouldShowPlayerCards(u, viewer)
      && (ShouldShowPlayerCards(u, 1 - viewer) <==> s.game.phase == GameOver)
  {
  }

  /** The `BETTING_ERROR:` branch of `handleServerCommand`: the text after
      the 14-character prefix is the reason shown. */
  function DecodeBettingError(command: string): (r: Option<string>)
    ensures r.Some? <==> StartsWith(command, BettingErrorPrefix)
    ensures r.Some? ==> command == BettingErrorPrefix + r.value
  {
    if StartsWith(command, BettingErrorPrefix) then Some(command[14..]) else None
  }

  /** Whatever reason the server appends to the prefix is exactly what the
      client shows; in particular the two reasons the session sends. */
  lemma BettingErrorRoundTrip(reason: string)
    ensures DecodeBettingError(BettingErrorPrefix + reason) == Some(reason)
    ensures DecodeBettingError(BettingErrorPrefix + InvalidAmountReason) == Some(InvalidAmountReason)
    ensures DecodeBettingError(BettingErrorPrefix + RefusedBetReason) == Some(RefusedBetReason)
  {
    StripPrefix(BettingErrorPrefix, reason);
    StripPrefix(BettingErrorPrefix, InvalidAmountReason);
    StripPrefix(BettingErrorPrefix, RefusedBetReason);
  }

  /** The amounts on the four bet buttons. */
  const BetAmounts: seq<int> := [10, 20, 50, 100]

  /** Bet buttons after `updateUI`: all off outside betting; in betting each
      is on exactly when the viewer's balance covers it (all on if the
      viewer's seat is unknown, `myPlayerId == -1`). */
  function BetButtonsEnabled(u: Snapshot): (r: seq<bool>)
    requires u.myId >= -1
    ensures |r| == 4
    ensures u.phase != Betting ==> forall k :: 0 <= k < 4 ==> !r[k]
    ensures u.phase == Betting && 0 <= u.myId < |u.moneys| ==>
      forall k :: 0 <= k < 4 ==> (r[k] <==> u.moneys[u.myId] >= BetAmounts[k])
    ensures u.phase == Betting && !(0 <= u.myId < |u.moneys|) ==> forall k :: 0 <= k < 4 ==> r[k]
  {
    if u.phase != Betting then [false, false, false, false]
    else if u.myId != -1 && |u.moneys| > u.myId then
      var money := u.moneys[u.myId];
      [money >= 10, money >= 20, money >= 50, money >= 100]
    else [true, true, true, true]
  }

  /** Bet buttons right after a betting error: all four on, whatever the
      balance. */
  function BetButtonsAfterError(): (r: seq<bool>)
    ensures |r| == 4 && forall k :: 0 <= k < 4 ==> r[k]
  {
    [true, true, true, true]
  }

  /** The command a bet button sends, `"BET:" + amount`. */
  function BetCommand(amount: int): (c: string)
    ensures StartsWith(c, BetPrefix)
  {
    StripPrefix(BetPrefix, ShowInt(amount));
    BetPrefix + ShowInt(amount)
  }

  /** A button enabled by a snapshot sends a command the server parses back
      to the button's amount and the engine accepts. */
  lemma EnabledButtonBetAccepted(s: Session, seat: int, k: int)
    requires SessionWf(s) && (seat == 0 || seat == 1) && 0 <= k < 4
    requires BetButtonsEnabled(CreateUpdate(s, seat))[k]
    ensures ParseInt(BetCommand(BetAmounts[k])[|BetPrefix|..]) == Some(BetAmounts[k])
    ensures BetAccepted(s.game, seat, BetAmounts[k])
  {
    StripPrefix(BetPrefix, ShowInt(BetAmounts[k]));
    ParseShowRoundTrip(BetAmounts[k]);
  }

  /** After a betting error every button is on, so a seat with less than
      100 can press a button whose bet the engine refuses again. */
  lemma ErrorEnablesRefusedBet(s: Session, seat: int)
    requires SessionWf(s) && (seat == 0 || seat == 1) && s.game.moneys[seat] < 100
    ensures BetButtonsAfterError()[3] && !BetAccepted(s.game, seat, BetAmounts[3])
  {
  }

  /** Whose hand a card animation flies to. */
  datatype Owner = Seat(index: int) | Dealer

  /** One card animation queued by `listenForServerUpdates`: the card and
      the slot it lands in. */
  datatype Animation = Animation(card: Card, owner: Owner, slot: int)

  /** The queueing order: seats by index, then the dealer, and slots in
      increasing order within one owner. */
  predicate Precedes(a: Animation, b: Animation) {
    match (a.owner, b.owner)
    case (Seat(i), Seat(j)) => i < j || (i == j && a.slot < b.slot)
    case (Seat(_), Dealer) => true
    case (Dealer, Seat(_)) => false
    case (Dealer, Dealer) => a.slot < b.slot
  }

  /** The number of cards the client already showed for a seat; a seat it
      has not seen yet counts as empty. */
  function OldSize(oldHands: seq<seq<Card>>, i: int): (n: nat)
    ensures 0 <= i < |oldHands| ==> n == |oldHands[i]|
  {
    if 0 <= i < |oldHands| then |oldHands[i]| else 0
  }

  /** The animations that a new snapshot queues: for every seat, the cards
      past the number it showed before, then the dealer's new cards except
      the face-down placeholder. */
  method NewCardAnimations(oldHands: seq<seq<Card>>, oldDealer: seq<Card>, u: Snapshot)
    returns (anims: seq<Animation>)
    ensures forall a :: a in anims ==>
      match a.owner
      case Seat(i) =>
        && 0 <= i < |u.hands| && OldSize(oldHands, i) <= a.slot < |u.hands[i]|
        && a.card == u.hands[i][a.slot]
      case Dealer =>
        && |oldDealer| <= a.slot < |u.dealerHand|
        && a.card == u.dealerHand[a.slot] && a.card.rank != Back
    ensures forall i, j :: 0 <= i < |u.hands| && OldSize(oldHands, i) <= j < |u.hands[i]| ==>
      Animation(u.hands[i][j], Seat(i), j) in anims
    ensures forall j :: |oldDealer| <= j < |u.dealerHand| && u.dealerHand[j].rank != Back ==>
      Animation(u.dealerHand[j], Dealer, j) in anims
    ensures forall p, q :: 0 <= p < q < |anims| ==> Precedes(anims[p], anims[q])
  {
    anims := [];
    var i := 0;
    while i < |u.hands|
      invariant 0 <= i <= |u.hands|
      invariant forall a :: a in anims ==>
        a.owner.Seat? && 0 <= a.owner.index < i
        && OldSize(oldHands, a.owner.index) <= a.slot < |u.hands[a.owner.index]|
        && a.card == u.hands[a.owner.index][a.slot]
      invariant forall i', j :: 0 <= i' < i && OldSize(oldHands, i') <= j < |u.hands[i']| ==>
        Animation(u.hands[i'][j], Seat(i'), j) in anims
      invariant forall p, q :: 0 <= p < q < |anims| ==> Precedes(anims[p], anims[q])
    {
      var oldSize := OldSize(oldHands, i);
      var newSize := |u.hands[i]|;
      if newSize > oldSize {
        var j := oldSize;
        while j < newSize
          invariant oldSize <= j <= newSize
          invariant forall a :: a in anims ==>
            a.owner.Seat? && 0 <= a.owner.index <= i
            && OldSize(oldHands, a.owner.index) <= a.slot < |u.hands[a.owner.index]|
            && a.card == u.hands[a.owner.index][a.slot]
          invariant forall i', j' :: 0 <= i' < i && OldSize(oldHands, i') <= j' < |u.hands[i']| ==>
            Animation(u.hands[i'][j'], Seat(i'), j') in anims
          invariant forall j' :: oldSize <= j' < j ==> Animation(u.hands[i][j'], Seat(i), j') in anims
          invariant forall a :: a in anims && a.owner == Seat(i) ==> a.slot < j
          invariant forall p, q :: 0 <= p < q < |anims| ==> Precedes(anims[p], anims[q])
        {
          anims := anims + [Animation(u.hands[i][j], Seat(i), j)];
          j := j + 1;
        }
      }
      i := i + 1;
    }
    var oldDealerSize := |oldDealer|;
    var newDealerSize := |u.dealerHand|;
    if newDealerSize > oldDealerSize {
      var k := oldDealerSize;
      while k < newDealerSize
        invariant oldDealerSize <= k <= newDealerSize
        invariant forall a :: a in anims ==>
          match a.owner
          case Seat(i') =>
            && 0 <= i' < |u.hands| && OldSize(oldHands, i') <= a.slot < |u.hands[i']|
            && a.card == u.hands[i'][a.slot]
          case Dealer =>
            && |oldDealer| <= a.slot < |u.dealerHand|
            && a.card == u.dealerHand[a.slot] && a.card.rank != Back
        invariant forall i', j :: 0 <= i' < |u.hands| && OldSize(oldHands, i') <= j < |u.hands[i']| ==>
          Animation(u.hands[i'][j], Seat(i'), j) in anims
        invariant forall j :: oldDealerSize <= j < k && u.dealerHand[j].rank != Back ==>
          Animation(u.dealerHand[j], Dealer, j) in anims
        invariant forall a :: a in anims && a.owner == Dealer ==> a.slot < k
        invariant forall p, q :: 0 <= p < q < |anims| ==> Precedes(anims[p], anims[q])
      {
        var card := u.dealerHand[k];
        if card.rank != Back {
          anims := anims + [Animation(card, Dealer, k)];
        }
        k := k + 1;
      }
    }
  }

  /** The dealer label drawn by the client: the client's own score of the
      dealer's hand once the round is over (the snapshot's total if the
      hand is empty), and "?" in every other state. */
  function DealerLabel(u: Snapshot): (shown: string)
    requires u.phase == GameOver ==> forall k :: 0 <= k < |u.dealerHand| ==> u.dealerHand[k].rank != Back
    ensures u.phase != GameOver ==> shown == "DEALER: ?"
    ensures u.phase == GameOver ==> |shown| > 8 && Text.StartsWith(shown, "DEALER: ") && shown[8] != '?'
    ensures u.phase == GameOver && |u.dealerHand| > 0 ==> shown == "DEALER: " + ShowInt(HandScore(u.dealerHand))
  {
    if u.phase == GameOver then
      var hand: seq<PlayingCard> := u.dealerHand;
      var score := if |hand| > 0 then HandScore(hand) else u.dealerSum;
      "DEALER: " + ShowInt(score)
    else "DEALER: ?"
  }

  /** At the end of a round the label shows the engine's stored dealer
      total; the dealer's score is never shown before that, not even during
      the dealer's turn when the snapshot already carries the whole hand. */
  lemma DealerLabelShowsEngineTotal(s: Session, viewer: int)
    requires SessionWf(s)
    ensures
      var u := CreateUpdate(s, viewer);
      && (s.game.phase == GameOver ==> DealerLabel(u) == "DEALER: " + ShowInt(s.game.dealerSum))
      && (s.game.phase != GameOver ==> DealerLabel(u) == "DEALER: ?")
  {
  }
}
