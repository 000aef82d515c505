/** Round outcomes and how money moves when a seat is settled
    (`determineBlackjackResults` and `determineFinalResults`). */
module Settlement {
  import Text

  /** A seat's result for the round; `Label` is the string the engine stores
      and the clients display. */
  datatype Outcome = NoResult | Blackjack | Push | Win | Lose {
    function Label(): (r: string)
      ensures this == NoResult <==> r == ""
      ensures this != NoResult ==> r[|r| - 1] == '!'
    {
      match this
      case NoResult => ""
      case Blackjack => "Blackjack!"
      case Push => "Hòa!"
      case Win => "Thắng!"
      case Lose => "Thua!"
    }
  }

  /** What a settled seat receives back, on top of the bet already debited:
      nothing for a loss, the bet for a push, twice the bet for a win, the bet
      plus 3/2 of it (Java integer division) for a natural blackjack. */
  function Payout(o: Outcome, bet: int): (r: int)
    ensures bet > 0 ==> (r == 0 <==> o == Lose || o == NoResult)
    ensures bet > 0 ==> (r == bet <==> o == Push)
    ensures bet > 0 ==> (r >= 2 * bet <==> o == Win || o == Blackjack)
    ensures bet >= 0 ==> 0 <= r && 2 * r <= 5 * bet
  {
    match o
    case NoResult => 0
    case Lose => 0
    case Push => bet
    case Win => bet * 2
    case Blackjack => bet + bet * 3 / 2
  }

  /** The engine recognises an earlier loss by `result.contains("Thua")`;
      among the labels only the loss label contains it. */
  lemma LabelMarksLoss(o: Outcome)
    ensures Text.Contains(o.Label(), "Thua") <==> o == Lose
  {
    match o
    case Lose =>
      assert Text.StartsWith("Thua!", "Thua");
    case Win =>
      var t := o.Label();
      assert !Text.StartsWith(t, "Thua") by {
        assert t[2] != "Thua"[2];
      }
      Text.NotContainedFirst(t[1..], "Thua");
    case Push =>
      Text.NotContainedFirst(o.Label(), "Thua");
    case Blackjack =>
      Text.NotContainedFirst(o.Label(), "Thua");
    case NoResult =>
      Text.NotContainedFirst(o.Label(), "Thua");
  }

  /** A payout is one of 0, bet, 2 bet and bet + 3/2 bet, and never more than
      5/2 of the bet. */
  lemma PayoutBounds(o: Outcome, bet: int)
    requires bet >= 0
    ensures Payout(o, bet) in {0, bet, 2 * bet, bet + bet * 3 / 2}
    ensures 0 <= Payout(o, bet) && 2 * Payout(o, bet) <= 5 * bet
  {
  }

  datatype Settled = Settled(outcome: Outcome, money: int)

  /** One seat of `determineBlackjackResults`, run once a natural 21 has been
      found at the table. */
  function NaturalSettle(playerSum: int, dealerSum: int, bet: int, money: int): (r: Settled)
    ensures r.money == money + Payout(r.outcome, bet)
    ensures r.outcome == Push <==> playerSum == 21 && dealerSum == 21
    ensures r.outcome == Blackjack <==> playerSum == 21 && dealerSum != 21
    ensures r.outcome == Lose <==> playerSum != 21 && dealerSum == 21
    ensures r.outcome == NoResult <==> playerSum != 21 && dealerSum != 21
  {
    if playerSum == 21 && dealerSum == 21 then Settled(Push, money + bet)
    else if playerSum == 21 then Settled(Blackjack, money + bet + (bet * 3 / 2))
    else if dealerSum == 21 then Settled(Lose, money)
    else Settled(NoResult, money)
  }

  /** The house rule applied after the dealer has drawn, stated outcome by
      outcome: a seat wins when it neither went bust nor lost earlier and the
      dealer busts or is beaten; a bust seat (or one that already lost) gets
      its bet back when the dealer busts too; equal totals push. */
  predicate FinalRule(prev: Outcome, playerSum: int, dealerSum: int, o: Outcome) {
    && o in {Win, Push, Lose}
    && (o == Win ==> prev != Lose && playerSum <= 21 && (dealerSum > 21 || playerSum > dealerSum))
    && (o == Push ==>
          || (dealerSum > 21 && (prev == Lose || playerSum > 21))
          || (prev != Lose && playerSum == dealerSum <= 21))
    && (o == Lose ==> dealerSum <= 21 && (prev == Lose || playerSum > 21 || playerSum < dealerSum))
  }

  /** The rule leaves no choice: at most one outcome satisfies it. */
  lemma FinalRuleDetermines(prev: Outcome, playerSum: int, dealerSum: int, o1: Outcome, o2: Outcome)
    requires FinalRule(prev, playerSum, dealerSum, o1) && FinalRule(prev, playerSum, dealerSum, o2)
    ensures o1 == o2
  {
  }

  /** One seat of `determineFinalResults`, run after the dealer has drawn.
      `prev` is the result recorded during the seat's turn (a loss if it
      went bust). */
  function FinalSettle(prev: Outcome, playerSum: int, dealerSum: int, bet: int, money: int): (r: Settled)
    ensures r.money == money + Payout(r.outcome, bet)
    ensures FinalRule(prev, playerSum, dealerSum, r.outcome)
  {
    LabelMarksLoss(prev);
    if Text.Contains(prev.Label(), "Thua") then
      if dealerSum > 21 then Settled(Push, money + bet) else Settled(prev, money)
    else if playerSum > 21 then
      if dealerSum > 21 then Settled(Push, money + bet) else Settled(Lose, money)
    else if dealerSum > 21 then Settled(Win, money + bet * 2)
    else if playerSum > dealerSum then Settled(Win, money + bet * 2)
    else if playerSum == dealerSum then Settled(Push, money + bet)
    else Settled(Lose, money)
  }
}
