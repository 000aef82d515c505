/** The authoritative game engine (src/Blackjack.java): one dealer and a
    fixed number of seats, a shuffled 52-card deck drawn from its end, bets
    debited up front, a round-robin initial deal, the natural-21 short cut,
    hit/stand turns, dealer auto-play and settlement. Every mutator of the
    Java class is a function from the old state to the new one here. */
module Blackjack {
  import opened Wrappers
  import opened Cards
  import opened Scoring
  import opened Deck
  import opened Settlement

  datatype Phase = WaitingForPlayers | Betting | Dealing | PlayerTurn | DealerTurn | GameOver

  /** The fields of one `Blackjack` object; the per-seat lists all have one
      entry per seat. `dealerSum`/`dealerAceCount` are the stored dealer
      fields, which the engine only brings up to date at particular points. */
  datatype Game = Game(
    deck: seq<PlayingCard>,
    dealerHand: seq<PlayingCard>,
    dealerSum: int,
    dealerAceCount: int,
    hands: seq<seq<PlayingCard>>,
    sums: seq<int>,
    aceCounts: seq<int>,
    results: seq<Outcome>,
    moneys: seq<int>,
    bets: seq<int>,
    current: int,
    phase: Phase)

  const StartingMoney: int := 1000

  predicate Shaped(g: Game) {
    && |g.sums| == |g.hands|
    && |g.aceCounts| == |g.hands|
    && |g.results| == |g.hands|
    && |g.moneys| == |g.hands|
    && |g.bets| == |g.hands|
  }

  /** The engine's invariant: stored seat scores are the full-hand scores,
      money and bets are never negative, the turn pointer names a seat during
      the players' turns, a finished round stores the dealer's full-hand
      score, and a betting round starts from empty hands. */
  predicate Wf(g: Game) {
    && Shaped(g)
    && (forall i :: 0 <= i < |g.hands| ==>
          g.sums[i] == HandScore(g.hands[i]) && g.aceCounts[i] == AceCount(g.hands[i]))
    && (forall i :: 0 <= i < |g.hands| ==> g.moneys[i] >= 0 && g.bets[i] >= 0)
    && g.current >= 0
    && (g.phase == PlayerTurn ==> g.current < |g.hands| && |g.dealerHand| == 2)
    && (g.phase == GameOver ==> g.dealerSum == HandScore(g.dealerHand))
    && (g.phase == Betting ==>
          && g.dealerHand == [] && g.dealerSum == 0 && g.dealerAceCount == 0
          && forall i :: 0 <= i < |g.hands| ==> g.hands[i] == [] && g.results[i] == NoResult)
  }

  /** The constructor `Blackjack(n)`: every seat gets the starting money and
      the game waits for players; `shuffled` stands for the shuffled deck. */
  function NewGame(n: nat, shuffled: seq<PlayingCard>): (g: Game)
    requires IsShuffle(shuffled)
    ensures Wf(g) && g.phase == WaitingForPlayers && |g.hands| == n
    ensures forall i :: 0 <= i < n ==>
      g.moneys[i] == StartingMoney && g.bets[i] == 0 && g.hands[i] == [] && g.results[i] == NoResult
    ensures |g.deck| == 52 && Distinct(g.deck)
  {
    ShuffleIsDeck(shuffled);
    Game(shuffled, [], 0, 0, seq(n, _ => []), seq(n, _ => 0), seq(n, _ => 0),
         seq(n, _ => NoResult), seq(n, _ => StartingMoney), seq(n, _ => 0), 0, WaitingForPlayers)
  }

  /** `startGame`: clear every hand, score, result and bet, rebuild and
      shuffle the deck, and open betting. Balances carry over. */
  function StartGame(g: Game, shuffled: seq<PlayingCard>): (r: Game)
    requires Wf(g) && IsShuffle(shuffled)
    ensures Wf(r) && r.phase == Betting && r.current == 0
    ensures |r.hands| == |g.hands| && r.moneys == g.moneys
    ensures forall i :: 0 <= i < |r.hands| ==>
      r.hands[i] == [] && r.sums[i] == 0 && r.bets[i] == 0 && r.results[i] == NoResult
    ensures r.dealerHand == []
    ensures |r.deck| == 52 && Distinct(r.deck)
  {
    ShuffleIsDeck(shuffled);
    var n := |g.hands|;
    g.(deck := shuffled, dealerHand := [], dealerSum := 0, dealerAceCount := 0,
       hands := seq(n, _ => []), sums := seq(n, _ => 0), aceCounts := seq(n, _ => 0),
       results := seq(n, _ => NoResult), bets := seq(n, _ => 0), current := 0, phase := Betting)
  }

  /** The guard at the top of `placeBet`. */
  predicate BetAccepted(g: Game, id: int, amount: int)
    requires Shaped(g)
  {
    g.phase == Betting && 0 <= id < |g.hands| && 0 < amount <= g.moneys[id]
  }

  /** Every seat has a nonzero bet: the condition that starts the deal. */
  predicate AllBet(bets: seq<int>) {
    forall i :: 0 <= i < |bets| ==> bets[i] != 0
  }

  /** The deal that a bet may trigger finds 2 cards per seat and 2 for the
      dealer in the deck. */
  predicate BetDeckLasts(g: Game, id: int, amount: int)
    requires Shaped(g)
  {
    BetAccepted(g, id, amount) && AllBet(g.bets[id := amount]) ==> |g.deck| >= 2 * (|g.hands| + 1)
  }

  /** The cards on the table: the seats' hands, the deck and the dealer's
      hand. */
  datatype Table = Table(hands: seq<seq<PlayingCard>>, deck: seq<PlayingCard>, dealerHand: seq<PlayingCard>)

  /** One round of `dealInitialCards`: seat i receives the card i places
      from the end of the deck, and the dealer the one after the last
      seat's. */
  function DealRound(t: Table): (r: Table)
    requires |t.deck| >= |t.hands| + 1
    ensures |r.hands| == |t.hands| && |r.deck| == |t.deck| - (|t.hands| + 1)
  {
    var L, n := |t.deck|, |t.hands|;
    Table(seq(n, i requires 0 <= i < n => t.hands[i] + [t.deck[L - 1 - i]]),
          t.deck[..L - (n + 1)],
          t.dealerHand + [t.deck[L - 1 - n]])
  }

  /** The round as the Java loop performs it, one seat after another and
      then the dealer, each taking the deck's current last card, ends in the
      same table. */
  lemma RoundIsLoop(t: Table)
    requires |t.deck| >= |t.hands| + 1
    ensures
      var d := DealEach(t.hands, t.deck, 0);
      DealRound(t) == Table(d.hands, Pop(d.deck), t.dealerHand + [Top(d.deck)])
  {
    var d := DealEach(t.hands, t.deck, 0);
    assert DealRound(t).hands == d.hands;
  }

  /** The two rounds of the deal, one after the other: seat i receives the
      i-th card from the end and then the (n+1+i)-th, the dealer the
      (n+1)-th and the (2n+2)-th. */
  lemma TwoRounds(t: Table)
    requires |t.deck| >= 2 * (|t.hands| + 1)
    ensures
      var L, n, r := |t.deck|, |t.hands|, DealRound(DealRound(t));
      && |r.hands| == n
      && r.deck == t.deck[..L - 2 * (n + 1)]
      && (forall i :: 0 <= i < n ==> r.hands[i] == t.hands[i] + [t.deck[L - 1 - i], t.deck[L - 2 - n - i]])
      && r.dealerHand == t.dealerHand + [t.deck[L - 1 - n], t.deck[L - 2 - 2 * n]]
  {
    var t1 := DealRound(t);
    StackedRounds(t.deck, t.hands, t1.deck, t1.hands, DealRound(t1).hands);
  }

  /** The per-seat part of `TwoRounds`, on the card sequences alone. */
  lemma StackedRounds(deck: seq<PlayingCard>, hands: seq<seq<PlayingCard>>, deck1: seq<PlayingCard>,
                      hands1: seq<seq<PlayingCard>>, hands2: seq<seq<PlayingCard>>)
    requires |deck| >= 2 * (|hands| + 1) && |hands1| == |hands2| == |hands|
    requires deck1 == deck[..|deck| - (|hands| + 1)]
    requires forall i :: 0 <= i < |hands| ==> hands1[i] == hands[i] + [deck[|deck| - 1 - i]]
    requires forall i :: 0 <= i < |hands| ==> hands2[i] == hands1[i] + [deck1[|deck1| - 1 - i]]
    ensures deck1[|deck1| - 1 - |hands|] == deck[|deck| - 2 - 2 * |hands|]
    ensures forall i :: 0 <= i < |hands| ==>
      hands2[i] == hands[i] + [deck[|deck| - 1 - i], deck[|deck| - 2 - |hands| - i]]
  {
    var L, n := |deck|, |hands|;
    forall i | 0 <= i < n
      ensures hands2[i] == hands[i] + [deck[L - 1 - i], deck[L - 2 - n - i]]
    {
      assert deck1[|deck1| - 1 - i] == deck[L - 2 - n - i];
    }
  }

  /** Both rounds of the deal, followed by rescoring every seat from its
      whole hand. Only the second dealer card is added to the stored dealer
      total, as the hole card is not counted until it is revealed. */
  function DealCards(g: Game): (r: Game)
    requires Shaped(g) && |g.deck| >= 2 * (|g.hands| + 1)
    ensures Shaped(r) && |r.hands| == |g.hands|
    ensures
      var L, n := |g.deck|, |g.hands|;
      && r.deck == g.deck[..L - 2 * (n + 1)]
      && (forall i :: 0 <= i < n ==> r.hands[i] == g.hands[i] + [g.deck[L - 1 - i], g.deck[L - 2 - n - i]])
      && r.dealerHand == g.dealerHand + [g.deck[L - 1 - n], g.deck[L - 2 - 2 * n]]
    ensures forall i {:trigger r.sums[i]} :: 0 <= i < |r.hands| ==>
      r.sums[i] == HandScore(r.hands[i]) && r.aceCounts[i] == AceCount(r.hands[i])
    ensures r.results == g.results && r.moneys == g.moneys && r.bets == g.bets
    ensures r.phase == g.phase && r.current == g.current
  {
    Rescore(DealTwice(g))
  }

  /** The card movements of the two rounds, and the stored dealer total
      taking in the second dealer card. */
  function DealTwice(g: Game): (r: Game)
    requires Shaped(g) && |g.deck| >= 2 * (|g.hands| + 1)
    ensures Shaped(r) && |r.hands| == |g.hands|
    ensures
      var L, n := |g.deck|, |g.hands|;
      && r.deck == g.deck[..L - 2 * (n + 1)]
      && (forall i :: 0 <= i < n ==> r.hands[i] == g.hands[i] + [g.deck[L - 1 - i], g.deck[L - 2 - n - i]])
      && r.dealerHand == g.dealerHand + [g.deck[L - 1 - n], g.deck[L - 2 - 2 * n]]
    ensures r.results == g.results && r.moneys == g.moneys && r.bets == g.bets
    ensures r.sums == g.sums && r.aceCounts == g.aceCounts
    ensures r.phase == g.phase && r.current == g.current
  {
    var t0 := Table(g.hands, g.deck, g.dealerHand);
    TwoRounds(t0);
    var t := DealRound(DealRound(t0));
    var c := t.dealerHand[|t.dealerHand| - 1];
    g.(hands := t.hands, deck := t.deck, dealerHand := t.dealerHand,
       dealerSum := g.dealerSum + Value(c), dealerAceCount := g.dealerAceCount + AceFlag(c))
  }

  /** Every seat's stored sum and ace count recomputed from its whole hand. */
  function Rescore(g: Game): (r: Game)
    requires Shaped(g)
    ensures Shaped(r) && r == g.(sums := r.sums, aceCounts := r.aceCounts)
    ensures forall i {:trigger r.sums[i]} :: 0 <= i < |r.hands| ==>
      r.sums[i] == HandScore(r.hands[i]) && r.aceCounts[i] == AceCount(r.hands[i])
  {
    var n := |g.hands|;
    g.(sums := seq(n, i requires 0 <= i < n => HandScore(g.hands[i])),
       aceCounts := seq(n, i requires 0 <= i < n => AceCount(g.hands[i])))
  }

  /** `checkNaturalBlackjacks` with `determineBlackjackResults`: the dealer's
      two cards (the hidden one included) and each seat's total are compared
      with 21. If anyone has 21 the round ends at once and every seat is
      settled by the natural rule; otherwise the players' turns begin at
      seat 0. */
  function CheckNaturals(g: Game): (r: Game)
    requires Shaped(g) && |g.dealerHand| >= 2
    ensures Shaped(r) && |r.hands| == |g.hands|
    ensures r.hands == g.hands && r.sums == g.sums && r.aceCounts == g.aceCounts && r.bets == g.bets
    ensures r.deck == g.deck && r.dealerHand == g.dealerHand
    ensures
      var dealerTotal := HandScore(g.dealerHand[..2]);
      var natural := dealerTotal == 21 || exists i :: 0 <= i < |g.hands| && g.sums[i] == 21;
      && (natural ==> r.phase == GameOver && r.dealerSum == dealerTotal)
      && (natural ==> forall i :: 0 <= i < |g.hands| ==>
            && r.moneys[i] == g.moneys[i] + Payout(r.results[i], g.bets[i])
            && (r.results[i] == Push <==> g.sums[i] == 21 && dealerTotal == 21)
            && (r.results[i] == Blackjack <==> g.sums[i] == 21 && dealerTotal != 21)
            && (r.results[i] == Lose <==> g.sums[i] != 21 && dealerTotal == 21)
            && (r.results[i] == NoResult <==> g.sums[i] != 21 && dealerTotal != 21))
      && (!natural ==> r == g.(phase := PlayerTurn, current := 0))
  {
    var d0, d1 := g.dealerHand[0], g.dealerHand[1];
    var dealerAces := AceFlag(d0) + AceFlag(d1);
    var dealerTotal := OptimalScore(Value(d0) + Value(d1), dealerAces);
    assert dealerTotal == HandScore(g.dealerHand[..2]) by {
      var two := g.dealerHand[..2];
      assert two[..1][..0] == [] && two[..1] == [d0];
      TotalsAppend([d0], d1);
      assert two == [d0] + [d1];
    }
    var dealerHasBlackjack := dealerTotal == 21;
    var anyPlayerHasBlackjack := exists i :: 0 <= i < |g.hands| && g.sums[i] == 21;
    if anyPlayerHasBlackjack || dealerHasBlackjack then
      var n := |g.hands|;
      var settled := seq(n, i requires 0 <= i < n => NaturalSettle(g.sums[i], dealerTotal, g.bets[i], g.moneys[i]));
      g.(dealerSum := dealerTotal, dealerAceCount := dealerAces, phase := GameOver,
         results := seq(n, i requires 0 <= i < n => settled[i].outcome),
         moneys := seq(n, i requires 0 <= i < n => settled[i].money))
    else
      g.(phase := PlayerTurn, current := 0)
  }

  /** `dealInitialCards`, entered from a betting table on which every seat
      has just bet: deal, rescore, then look for naturals. */
  function DealInitial(g: Game): (r: Game)
    requires Wf(g.(phase := Betting)) && g.phase == Dealing
    requires |g.hands| >= 1 && |g.deck| >= 2 * (|g.hands| + 1)
    ensures Wf(r) && |r.hands| == |g.hands| && r.bets == g.bets
    ensures r.phase == PlayerTurn || r.phase == GameOver
    ensures |r.deck| == |g.deck| - 2 * (|g.hands| + 1) && |r.dealerHand| == 2
    ensures forall i :: 0 <= i < |g.hands| ==>
      && |r.hands[i]| == 2
      && r.moneys[i] == g.moneys[i] + Payout(r.results[i], g.bets[i])
    ensures r.phase == PlayerTurn ==>
      r.current == 0 && forall i :: 0 <= i < |g.hands| ==> r.results[i] == NoResult
  {
    DealtIsWf(g);
    CheckNaturals(DealCards(g))
  }

  /** The table after the deal and the naturals check meets the invariant. */
  lemma DealtIsWf(g: Game)
    requires Wf(g.(phase := Betting)) && g.phase == Dealing
    requires |g.hands| >= 1 && |g.deck| >= 2 * (|g.hands| + 1)
    ensures Wf(CheckNaturals(DealCards(g)))
  {
    var dealt := DealCards(g);
    var r := CheckNaturals(dealt);
    assert dealt.dealerHand[..2] == dealt.dealerHand;
    assert r.phase == GameOver ==> r.dealerSum == HandScore(r.dealerHand);
    forall i | 0 <= i < |g.hands|
      ensures r.moneys[i] >= 0 && r.bets[i] >= 0
    {
      PayoutBounds(r.results[i], g.bets[i]);
    }
  }

  /** `placeBet`. A refused bet is `None` and changes nothing. An accepted
      bet overwrites the seat's bet and debits its balance; once every seat
      has a nonzero bet the cards are dealt. */
  function PlaceBet(g: Game, id: int, amount: int): (r: Option<Game>)
    requires Wf(g) && BetDeckLasts(g, id, amount)
    ensures r.None? <==> (g.phase != Betting || id < 0 || id >= |g.hands| || amount <= 0 || amount > g.moneys[id])
    ensures r.Some? ==> Wf(r.value) && |r.value.hands| == |g.hands| && r.value.bets == g.bets[id := amount]
    ensures r.Some? ==> (r.value.phase == Betting <==> !AllBet(g.bets[id := amount]))
    ensures r.Some? && r.value.phase == Betting ==>
      r.value == g.(bets := g.bets[id := amount], moneys := g.moneys[id := g.moneys[id] - amount])
    ensures r.Some? && r.value.phase != Betting ==>
      && (r.value.phase == PlayerTurn || r.value.phase == GameOver)
      && |r.value.deck| == |g.deck| - 2 * (|g.hands| + 1)
      && |r.value.dealerHand| == 2
      && forall i :: 0 <= i < |g.hands| ==>
           && |r.value.hands[i]| == 2
           && r.value.moneys[i] == g.moneys[id := g.moneys[id] - amount][i] + Payout(r.value.results[i], r.value.bets[i])
    ensures r.Some? && r.value.phase == PlayerTurn ==>
      r.value.current == 0 && forall i :: 0 <= i < |g.hands| ==> r.value.results[i] == NoResult
  {
    if !BetAccepted(g, id, amount) then None
    else if AllBet(g.bets[id := amount]) then Some(BetAndDeal(g, id, amount))
    else Some(Debit(g, id, amount))
  }

  /** An accepted bet that completes the table: debit it, then deal. */
  function BetAndDeal(g: Game, id: int, amount: int): (r: Game)
    requires Wf(g) && BetAccepted(g, id, amount) && AllBet(g.bets[id := amount])
    requires |g.deck| >= 2 * (|g.hands| + 1)
    ensures Wf(r) && |r.hands| == |g.hands| && r.bets == g.bets[id := amount]
    ensures r.phase == PlayerTurn || r.phase == GameOver
    ensures |r.deck| == |g.deck| - 2 * (|g.hands| + 1) && |r.dealerHand| == 2
    ensures forall i :: 0 <= i < |g.hands| ==>
      && |r.hands[i]| == 2
      && r.moneys[i] == g.moneys[id := g.moneys[id] - amount][i] + Payout(r.results[i], r.bets[i])
    ensures r.phase == PlayerTurn ==>
      r.current == 0 && forall i :: 0 <= i < |g.hands| ==> r.results[i] == NoResult
  {
    var placed := Debit(g, id, amount);
    assert placed.(phase := Dealing).(phase := Betting) == placed;
    DealInitial(placed.(phase := Dealing))
  }

  /** The bookkeeping of an accepted bet: the seat's bet becomes the amount
      and its balance drops by it. */
  function Debit(g: Game, id: int, amount: int): (r: Game)
    requires Wf(g) && BetAccepted(g, id, amount)
    ensures Wf(r) && r.phase == Betting && |r.hands| == |g.hands|
    ensures r.bets[id] == amount && r.moneys[id] == g.moneys[id] - amount
    ensures r == g.(bets := g.bets[id := amount], moneys := g.moneys[id := g.moneys[id] - amount])
  {
    g.(bets := g.bets[id := amount], moneys := g.moneys[id := g.moneys[id] - amount])
  }

  /** The draw of `playerHit` finds a card, and when that card busts the last
      seat, the dealer's play that follows finds all it needs. Java throws on
      an empty deck; the model asks for the cards instead. */
  predicate HitDeckLasts(g: Game)
    requires Shaped(g)
  {
    g.phase == PlayerTurn && 0 <= g.current < |g.hands| ==>
      && |g.deck| > 0
      && (HandScore(g.hands[g.current] + [Top(g.deck)]) > 21 && g.current + 1 >= |g.hands| ==>
            CanFinish(g.dealerHand, Pop(g.deck)))
  }

  /** The dealer's play that a stand on the last seat sets off finds its cards. */
  predicate StandDeckLasts(g: Game)
    requires Shaped(g)
  {
    g.phase == PlayerTurn && g.current + 1 >= |g.hands| ==> CanFinish(g.dealerHand, g.deck)
  }

  /** `dealerPlay` with `determineFinalResults`: the hole card is turned, the
      dealer draws to 17 or more, the stored dealer fields take the final
      hand's values, and every seat is settled by the final rule against the
      stored seat total and the result recorded during its turn. */
  function DealerPlay(g: Game): (r: Game)
    requires Shaped(g) && CanFinish(g.dealerHand, g.deck)
    ensures Shaped(r) && r.phase == GameOver
    ensures r.hands == g.hands && r.sums == g.sums && r.aceCounts == g.aceCounts && r.bets == g.bets
    ensures r.current == g.current
    ensures |r.dealerHand| >= |g.dealerHand| && r.dealerHand[..|g.dealerHand|] == g.dealerHand
    ensures |r.deck| <= |g.deck| && r.deck == g.deck[..|r.deck|]
    ensures r.dealerHand[|g.dealerHand|..] == Reverse(g.deck[|r.deck|..])
    ensures r.dealerSum == HandScore(r.dealerHand) >= 17 && r.dealerAceCount == AceCount(r.dealerHand)
    ensures forall i :: 0 <= i < |g.hands| ==>
      && r.moneys[i] == g.moneys[i] + Payout(r.results[i], g.bets[i])
      && FinalRule(g.results[i], g.sums[i], r.dealerSum, r.results[i])
  {
    var d := DealerDraw(g.dealerHand, g.deck);
    var dealerTotal := HandScore(d.hand);
    var settled := FinalSettleSeats(g.results, g.sums, dealerTotal, g.bets, g.moneys);
    g.(deck := d.deck, dealerHand := d.hand, dealerSum := dealerTotal, dealerAceCount := AceCount(d.hand),
       phase := GameOver, results := settled.0, moneys := settled.1)
  }

  /** The loop of `determineFinalResults`: every seat settled by the final
      rule, giving the new results and the new balances. */
  function FinalSettleSeats(results: seq<Outcome>, sums: seq<int>, dealerTotal: int, bets: seq<int>, moneys: seq<int>):
    (r: (seq<Outcome>, seq<int>))
    requires |sums| == |bets| == |moneys| == |results|
    ensures |r.0| == |r.1| == |results|
    ensures forall i :: 0 <= i < |results| ==>
      && r.1[i] == moneys[i] + Payout(r.0[i], bets[i])
      && FinalRule(results[i], sums[i], dealerTotal, r.0[i])
    decreases |results|
  {
    if results == [] then ([], [])
    else
      var k := |results| - 1;
      var front := FinalSettleSeats(results[..k], sums[..k], dealerTotal, bets[..k], moneys[..k]);
      var last := FinalSettle(results[k], sums[k], dealerTotal, bets[k], moneys[k]);
      (front.0 + [last.outcome], front.1 + [last.money])
  }

  /** `playerStand`: outside the players' turns nothing happens; otherwise
      the turn passes to the next seat, and after the last seat the dealer
      plays and the round is settled. */
  function PlayerStand(g: Game): (r: Game)
    requires Shaped(g) && StandDeckLasts(g)
    ensures Shaped(r) && |r.hands| == |g.hands|
    ensures g.phase != PlayerTurn ==> r == g
    ensures g.phase == PlayerTurn && g.current + 1 < |g.hands| ==> r == g.(current := g.current + 1)
    ensures g.phase == PlayerTurn && g.current + 1 >= |g.hands| ==>
      && r.phase == GameOver && r.current == g.current + 1
      && r.hands == g.hands && r.sums == g.sums && r.bets == g.bets
      && r.dealerSum == HandScore(r.dealerHand) >= 17
      && forall i :: 0 <= i < |g.hands| ==>
           && r.moneys[i] == g.moneys[i] + Payout(r.results[i], g.bets[i])
           && FinalRule(g.results[i], g.sums[i], r.dealerSum, r.results[i])
  {
    if g.phase != PlayerTurn then g
    else
      var next := g.(current := g.current + 1);
      if next.current >= |g.hands| then DealerPlay(next.(phase := DealerTurn))
      else next
  }

  /** `playerHit`: outside the players' turns, or once every seat has played,
      nothing happens. Otherwise the current seat takes the top card and is
      rescored from its whole hand; a total over 21 records a loss and ends
      the seat's turn as a stand would. */
  function PlayerHit(g: Game): (r: Game)
    requires Shaped(g) && HitDeckLasts(g)
    ensures Shaped(r) && |r.hands| == |g.hands|
    ensures g.phase != PlayerTurn || g.current < 0 || g.current >= |g.hands| ==> r == g
    ensures g.phase == PlayerTurn && 0 <= g.current < |g.hands| ==>
      var c, hand := g.current, g.hands[g.current] + [Top(g.deck)];
      && r.hands == g.hands[c := hand]
      && r.sums[c] == HandScore(hand) && r.aceCounts[c] == AceCount(hand)
      && (forall i :: 0 <= i < |g.hands| && i != c ==> r.sums[i] == g.sums[i] && r.aceCounts[i] == g.aceCounts[i])
      && r.bets == g.bets
      && (HandScore(hand) <= 21 ==>
            r == g.(deck := Pop(g.deck), hands := r.hands, sums := r.sums, aceCounts := r.aceCounts))
      && (HandScore(hand) > 21 && c + 1 < |g.hands| ==>
            r == g.(deck := Pop(g.deck), hands := r.hands, sums := r.sums, aceCounts := r.aceCounts,
                    results := g.results[c := Lose], current := c + 1))
      && (HandScore(hand) > 21 && c + 1 >= |g.hands| ==>
            r == PlayerStand(Draw(g).(results := g.results[c := Lose])))
  {
    if g.phase != PlayerTurn || g.current < 0 || g.current >= |g.hands| then g
    else
      var c := g.current;
      var drawn := Draw(g);
      if drawn.sums[c] <= 21 then drawn
      else PlayerStand(drawn.(results := g.results[c := Lose]))
  }

  /** The draw of `playerHit`: the top card joins the current seat's hand,
      which is rescored as a whole. */
  function Draw(g: Game): (r: Game)
    requires Shaped(g) && g.phase == PlayerTurn && 0 <= g.current < |g.hands| && |g.deck| > 0
    ensures Shaped(r) && |r.hands| == |g.hands|
    ensures
      var c, hand := g.current, g.hands[g.current] + [Top(g.deck)];
      && r.hands == g.hands[c := hand]
      && r.sums == g.sums[c := HandScore(hand)] && r.aceCounts == g.aceCounts[c := AceCount(hand)]
      && r == g.(deck := Pop(g.deck), hands := r.hands, sums := r.sums, aceCounts := r.aceCounts)
  {
    var c := g.current;
    var hand := g.hands[c] + [Top(g.deck)];
    g.(deck := Pop(g.deck), hands := g.hands[c := hand],
       sums := g.sums[c := HandScore(hand)], aceCounts := g.aceCounts[c := AceCount(hand)])
  }

  /** A bust on the last seat ends the round: the dealer plays, the busted
      seat is settled as a loss (a push if the dealer busts too), and every
      other seat by the final rule against its result so far. */
  lemma LastBustSettles(g: Game)
    requires Shaped(g) && HitDeckLasts(g) && g.phase == PlayerTurn && 0 <= g.current && g.current + 1 == |g.hands|
    requires HandScore(g.hands[g.current] + [Top(g.deck)]) > 21
    ensures
      var c, r := g.current, PlayerHit(g);
      && r.phase == GameOver && r.current == c + 1
      && r.results[c] in {Lose, Push}
      && (forall i :: 0 <= i < |g.hands| ==> r.moneys[i] == g.moneys[i] + Payout(r.results[i], g.bets[i]))
      && FinalRule(Lose, r.sums[c], r.dealerSum, r.results[c])
      && (forall i :: 0 <= i < |g.hands| && i != c ==> FinalRule(g.results[i], r.sums[i], r.dealerSum, r.results[i]))
  {
    var c := g.current;
    var lost := Draw(g).(results := g.results[c := Lose]);
    assert lost.results[c] == Lose;
    assert forall i :: 0 <= i < |g.hands| && i != c ==> lost.results[i] == g.results[i];
  }

  /** `getPlayerSum`: the stored total with the ace adjustment applied once
      more; 0 for a seat number outside the table. */
  function GetPlayerSum(g: Game, id: int): (r: int)
    requires Wf(g)
    ensures id < 0 || id >= |g.hands| ==> r == 0
    ensures 0 <= id < |g.hands| ==>
      (r == HandScore(g.hands[id]) <==> HandScore(g.hands[id]) <= 21 || AceCount(g.hands[id]) == 0)
    ensures 0 <= id < |g.hands| ==> r == OptimalScore(HandScore(g.hands[id]), AceCount(g.hands[id]))
  {
    if 0 <= id < |g.hands| then
      ReapplyStableIff(RawTotal(g.hands[id]), AceCount(g.hands[id]));
      OptimalScore(g.sums[id], g.aceCounts[id])
    else 0
  }

  /** `getPlayersSums`: the same adjusted total for every seat. */
  function GetPlayersSums(g: Game): (r: seq<int>)
    requires Wf(g)
    ensures |r| == |g.hands|
    ensures forall i :: 0 <= i < |g.hands| ==> r[i] == GetPlayerSum(g, i)
  {
    seq(|g.hands|, i requires 0 <= i < |g.hands| => OptimalScore(g.sums[i], g.aceCounts[i]))
  }

  /** King, queen, five and ace: the hand scores 26 and is bust, yet the
      getters report 16. */
  lemma BustAceHandReportedAs16(g: Game, id: int)
    requires Wf(g) && 0 <= id < |g.hands|
    requires g.hands[id] == [Card(King, Hearts), Card(Queen, Spades), Card(Five, Clubs), Card(Ace, Diamonds)]
    ensures HandScore(g.hands[id]) == 26
    ensures GetPlayerSum(g, id) == 16 && GetPlayersSums(g)[id] == 16
  {
    KingQueenFiveAceScores();
  }

  /** The scores behind `BustAceHandReportedAs16`. */
  lemma KingQueenFiveAceScores()
    ensures
      var h: seq<PlayingCard> := [Card(King, Hearts), Card(Queen, Spades), Card(Five, Clubs), Card(Ace, Diamonds)];
      HandScore(h) == 26 && OptimalScore(HandScore(h), AceCount(h)) == 16
  {
    var h: seq<PlayingCard> := [Card(King, Hearts), Card(Queen, Spades), Card(Five, Clubs), Card(Ace, Diamonds)];
    TotalsAppend([], h[0]);
    TotalsAppend([h[0]], h[1]);
    TotalsAppend([h[0], h[1]], h[2]);
    TotalsAppend([h[0], h[1], h[2]], h[3]);
    assert [] + [h[0]] == [h[0]] && [h[0]] + [h[1]] == [h[0], h[1]];
    assert [h[0], h[1]] + [h[2]] == [h[0], h[1], h[2]] && [h[0], h[1], h[2]] + [h[3]] == h;
    assert AceCount([]) == 0;
    assert AceFlag(h[0]) == AceFlag(h[1]) == AceFlag(h[2]) == 0 && AceFlag(h[3]) == 1;
    assert RawTotal(h) == 36 && AceCount(h) == 1;
    assert OptimalScore(36, 1) == OptimalScore(26, 0) == 26;
    assert OptimalScore(26, 1) == OptimalScore(16, 0) == 16;
  }

  /** `getDealerSum`: the score of the whole dealer hand, hole card
      included, 0 for an empty hand. At the end of a round it agrees with
      the stored dealer total. */
  function GetDealerSum(g: Game): (r: int)
    ensures r == HandScore(g.dealerHand)
    ensures Wf(g) && g.phase == GameOver ==> r == g.dealerSum
  {
    if g.dealerHand == [] then 0 else HandScore(g.dealerHand)
  }

  /** With 16 cards left in the players' turns, every hit and stand finds
      the cards it and the dealer's play need. */
  lemma PlayerTurnDeckLasts(g: Game)
    requires Wf(g) && g.phase == PlayerTurn && |g.deck| >= 16
    ensures HitDeckLasts(g) && StandDeckLasts(g)
  {
    HardTotalAtLeastSize(g.dealerHand);
    EnoughForDealer(g.dealerHand, g.deck);
    EnoughForDealer(g.dealerHand, Pop(g.deck));
  }

  /** Standing keeps the engine invariant. */
  lemma StandKeepsWf(g: Game)
    requires Wf(g) && StandDeckLasts(g)
    ensures Wf(PlayerStand(g))
  {
    var r := PlayerStand(g);
    if g.phase == PlayerTurn && g.current + 1 >= |g.hands| {
      forall i | 0 <= i < |g.hands|
        ensures r.moneys[i] >= 0
      {
        PayoutBounds(r.results[i], g.bets[i]);
      }
    }
  }

  /** Hitting keeps the engine invariant. */
  lemma HitKeepsWf(g: Game)
    requires Wf(g) && HitDeckLasts(g)
    ensures Wf(PlayerHit(g))
  {
    if g.phase == PlayerTurn && 0 <= g.current < |g.hands| {
      var c := g.current;
      var hand := g.hands[c] + [Top(g.deck)];
      var drawn := g.(deck := Pop(g.deck), hands := g.hands[c := hand],
                      sums := g.sums[c := HandScore(hand)], aceCounts := g.aceCounts[c := AceCount(hand)]);
      assert Wf(drawn);
      if HandScore(hand) > 21 {
        StandKeepsWf(drawn.(results := g.results[c := Lose]));
      }
    }
  }

  /** The round's money ledger against the balances `start` at the opening
      of betting: each seat is down its bet, and once the round is over it
      has been paid what its result is worth. */
  predicate Ledger(g: Game, start: seq<int>)
    requires Shaped(g)
  {
    && |start| == |g.hands|
    && forall i :: 0 <= i < |g.hands| ==>
         g.moneys[i] == start[i] - g.bets[i] + (if g.phase == GameOver then Payout(g.results[i], g.bets[i]) else 0)
  }

  /** Opening a round starts the ledger from the carried-over balances. */
  lemma StartOpensLedger(g: Game, shuffled: seq<PlayingCard>)
    requires Wf(g) && IsShuffle(shuffled)
    ensures Ledger(StartGame(g, shuffled), g.moneys)
  {
  }

  /** A seat's first bet of the round keeps the ledger, through the deal and
      any natural settlement it sets off. */
  lemma FirstBetKeepsLedger(g: Game, id: int, amount: int, start: seq<int>)
    requires Wf(g) && BetDeckLasts(g, id, amount) && Ledger(g, start)
    requires 0 <= id < |g.hands| && g.bets[id] == 0
    ensures PlaceBet(g, id, amount).Some? ==> Ledger(PlaceBet(g, id, amount).value, start)
  {
  }

  /** A second bet by the same seat replaces the first in the bet list, yet
      both amounts stay debited: the ledger no longer balances. */
  lemma RepeatBetLosesFirstBet(g: Game, id: int, amount: int, start: seq<int>)
    requires Wf(g) && Ledger(g, start) && BetAccepted(g, id, amount)
    requires g.bets[id] > 0 && !AllBet(g.bets[id := amount])
    ensures PlaceBet(g, id, amount).Some?
    ensures
      var r := PlaceBet(g, id, amount).value;
      && r.bets[id] == amount
      && r.moneys[id] == start[id] - g.bets[id] - amount
      && !Ledger(r, start)
  {
  }

  /** Standing keeps the ledger: a round it ends is settled by payout. */
  lemma StandKeepsLedger(g: Game, start: seq<int>)
    requires Wf(g) && StandDeckLasts(g) && Ledger(g, start)
    ensures Ledger(PlayerStand(g), start)
  {
  }

  /** Hitting keeps the ledger. */
  lemma HitKeepsLedger(g: Game, start: seq<int>)
    requires Wf(g) && HitDeckLasts(g) && Ledger(g, start)
    ensures Ledger(PlayerHit(g), start)
  {
  }

  /** Every card held at the seats, counted with multiplicity. */
  function HandsCards(hands: seq<seq<PlayingCard>>): multiset<PlayingCard>
    decreases |hands|
  {
    if hands == [] then multiset{} else HandsCards(hands[..|hands| - 1]) + multiset(hands[|hands| - 1])
  }

  /** Seats that all hold nothing hold no cards. */
  lemma {:induction false} HandsCardsEmpty(hands: seq<seq<PlayingCard>>)
    requires forall i :: 0 <= i < |hands| ==> hands[i] == []
    ensures HandsCards(hands) == multiset{}
    decreases |hands|
  {
    if hands != [] {
      HandsCardsEmpty(hands[..|hands| - 1]);
    }
  }

  /** One more card at one seat adds exactly that card to the count. */
  lemma {:induction false} HandsCardsAddCard(hands: seq<seq<PlayingCard>>, i: nat, c: PlayingCard)
    requires i < |hands|
    ensures HandsCards(hands[i := hands[i] + [c]]) == HandsCards(hands) + multiset{c}
    decreases |hands|
  {
    var last := |hands| - 1;
    if i == last {
      HandsCardsAddLast(hands, c);
    } else {
      var u := hands[i := hands[i] + [c]];
      var front := hands[..last];
      assert HandsCards(u) == HandsCards(u[..last]) + multiset(u[last]);
      assert u[..last] == front[i := front[i] + [c]] && u[last] == hands[last];
      HandsCardsAddCard(front, i, c);
    }
  }

  /** The last seat's case of `HandsCardsAddCard`. */
  lemma HandsCardsAddLast(hands: seq<seq<PlayingCard>>, c: PlayingCard)
    requires |hands| > 0
    ensures
      var last := |hands| - 1;
      HandsCards(hands[last := hands[last] + [c]]) == HandsCards(hands) + multiset{c}
  {
    var last := |hands| - 1;
    var u := hands[last := hands[last] + [c]];
    assert u[..last] == hands[..last];
    assert multiset(u[last]) == multiset(hands[last]) + multiset{c};
  }

  /** Every seat receiving one more card adds exactly those cards. */
  lemma {:induction false} HandsCardsDealt(hands: seq<seq<PlayingCard>>, after: seq<seq<PlayingCard>>, top: seq<PlayingCard>)
    requires |after| == |hands| == |top|
    requires forall j :: 0 <= j < |hands| ==> after[j] == hands[j] + [top[j]]
    ensures HandsCards(after) == HandsCards(hands) + multiset(top)
    decreases |hands|
  {
    if hands != [] {
      var last := |hands| - 1;
      HandsCardsDealt(hands[..last], after[..last], top[..last]);
      assert top == top[..last] + [top[last]];
    }
  }

  /** Every card the table holds: the deck, the dealer's hand and the seats'
      hands. */
  function Holdings(g: Game): multiset<PlayingCard> {
    multiset(g.deck) + multiset(g.dealerHand) + HandsCards(g.hands)
  }

  /** No card is created or lost: what the table holds is always the 52
      cards `buildDeck` makes. */
  predicate Conserved(g: Game) {
    Holdings(g) == multiset(FullDeck())
  }

  /** Opening a round gathers every card back into a full deck. */
  lemma StartConserves(g: Game, shuffled: seq<PlayingCard>)
    requires Wf(g) && IsShuffle(shuffled)
    ensures Conserved(StartGame(g, shuffled))
  {
    HandsCardsEmpty(StartGame(g, shuffled).hands);
  }

  /** A deck split into what stays, the dealer's card, and the n cards the
      seats take (in the order they come off the end). */
  lemma DeckSplit(deck: seq<PlayingCard>, n: nat)
    requires |deck| >= n + 1
    ensures
      var L := |deck|;
      multiset(deck) == multiset(deck[..L - (n + 1)]) + multiset{deck[L - 1 - n]} + multiset(Reverse(deck[L - n..]))
  {
    var L := |deck|;
    ReversePermutes(deck[L - n..]);
    assert deck == deck[..L - (n + 1)] + [deck[L - 1 - n]] + deck[L - n..];
  }

  /** The count of a dealt round, as multiset arithmetic only. */
  lemma DealtCount(deck: seq<PlayingCard>, rest: seq<PlayingCard>, x: PlayingCard, top: seq<PlayingCard>,
                   dealer: seq<PlayingCard>, before: multiset<PlayingCard>, after: multiset<PlayingCard>)
    requires multiset(deck) == multiset(rest) + multiset{x} + multiset(top)
    requires after == before + multiset(top)
    ensures multiset(rest) + multiset(dealer + [x]) + after == multiset(deck) + multiset(dealer) + before
  {
    assert multiset(dealer + [x]) == multiset(dealer) + multiset{x};
  }

  /** One round of the deal, on the card collections alone: n + 1 cards
      leave the end of the deck, one to each seat and the last to the
      dealer, and no card is created or lost. */
  lemma RoundCount(deck: seq<PlayingCard>, dealer: seq<PlayingCard>, hands: seq<seq<PlayingCard>>,
                   deck': seq<PlayingCard>, dealer': seq<PlayingCard>, hands': seq<seq<PlayingCard>>)
    requires |deck| >= |hands| + 1 && |hands'| == |hands|
    requires
      var L, n := |deck|, |hands|;
      && deck' == deck[..L - (n + 1)]
      && dealer' == dealer + [deck[L - 1 - n]]
      && forall i :: 0 <= i < n ==> hands'[i] == hands[i] + [deck[L - 1 - i]]
    ensures multiset(deck') + multiset(dealer') + HandsCards(hands') == multiset(deck) + multiset(dealer) + HandsCards(hands)
  {
    var L, n := |deck|, |hands|;
    var top, x := Reverse(deck[L - n..]), deck[L - 1 - n];
    assert HandsCards(hands') == HandsCards(hands) + multiset(top) by {
      assert forall j :: 0 <= j < n ==> hands'[j] == hands[j] + [top[j]] by {
        ReverseAt(deck[L - n..]);
      }
      HandsCardsDealt(hands, hands', top);
    }
    assert multiset(deck) == multiset(deck') + multiset{x} + multiset(top) by {
      DeckSplit(deck, n);
    }
    DealtCount(deck, deck', x, top, dealer, HandsCards(hands), HandsCards(hands'));
  }

  /** Every card on the table. */
  function TableCards(t: Table): multiset<PlayingCard> {
    multiset(t.deck) + multiset(t.dealerHand) + HandsCards(t.hands)
  }

  /** One round of the deal moves n + 1 cards from the deck into the hands
      and keeps every card. */
  lemma DealRoundKeepsCards(t: Table)
    requires |t.deck| >= |t.hands| + 1
    ensures TableCards(DealRound(t)) == TableCards(t)
  {
    var r := DealRound(t);
    RoundCount(t.deck, t.dealerHand, t.hands, r.deck, r.dealerHand, r.hands);
  }

  /** The whole deal, and the naturals check after it, keep every card. */
  lemma DealInitialKeepsHoldings(g: Game)
    requires Wf(g.(phase := Betting)) && g.phase == Dealing
    requires |g.hands| >= 1 && |g.deck| >= 2 * (|g.hands| + 1)
    ensures Holdings(DealInitial(g)) == Holdings(g)
  {
    var t0 := Table(g.hands, g.deck, g.dealerHand);
    DealRoundKeepsCards(t0);
    DealRoundKeepsCards(DealRound(t0));
  }

  /** A bet keeps every card, whether or not it sets off the deal. */
  lemma BetConserves(g: Game, id: int, amount: int)
    requires Wf(g) && BetDeckLasts(g, id, amount) && Conserved(g)
    ensures PlaceBet(g, id, amount).Some? ==> Conserved(PlaceBet(g, id, amount).value)
  {
    if BetAccepted(g, id, amount) && AllBet(g.bets[id := amount]) {
      DealInitialKeepsHoldings(Debit(g, id, amount).(phase := Dealing));
    }
  }

  /** Standing keeps every card, through the dealer's play. */
  lemma StandKeepsHoldings(g: Game)
    requires Shaped(g) && StandDeckLasts(g)
    ensures Holdings(PlayerStand(g)) == Holdings(g)
  {
    if g.phase == PlayerTurn && g.current + 1 >= |g.hands| {
      DealerDrawConserves(g.dealerHand, g.deck);
    }
  }

  /** The draw of a hit moves the top card to the current seat. */
  lemma HitDrawKeepsHoldings(g: Game, c: nat)
    requires Shaped(g) && |g.deck| > 0 && c < |g.hands|
    ensures
      var hand := g.hands[c] + [Top(g.deck)];
      Holdings(g.(deck := Pop(g.deck), hands := g.hands[c := hand])) == Holdings(g)
  {
    HandsCardsAddCard(g.hands, c, Top(g.deck));
    assert g.deck == Pop(g.deck) + [Top(g.deck)];
    assert multiset(g.deck) == multiset(Pop(g.deck)) + multiset{Top(g.deck)};
  }

  /** Hitting keeps every card, through the dealer's play a bust on the last
      seat sets off. */
  lemma HitKeepsHoldings(g: Game)
    requires Shaped(g) && HitDeckLasts(g)
    ensures Holdings(PlayerHit(g)) == Holdings(g)
  {
    if g.phase == PlayerTurn && 0 <= g.current < |g.hands| {
      var c := g.current;
      var hand := g.hands[c] + [Top(g.deck)];
      HitDrawKeepsHoldings(g, c);
      var drawn := g.(deck := Pop(g.deck), hands := g.hands[c := hand],
                      sums := g.sums[c := HandScore(hand)], aceCounts := g.aceCounts[c := AceCount(hand)]);
      if HandScore(hand) > 21 {
        StandKeepsHoldings(drawn.(results := g.results[c := Lose]));
      }
    }
  }
}
