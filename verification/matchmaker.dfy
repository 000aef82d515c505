/** The waiting room of `Server.main` (src/Server.java): every accepted
    connection joins a queue, and as soon as two are waiting they leave it,
    in arrival order, as seats 0 and 1 of a new session. */
module Matchmaker {
  import opened Wrappers
  import opened Session
  import Cards
  import Blackjack

  /** The queue after one accept, and the pair it released, if any. */
  datatype Accepted = Accepted(queue: seq<Handler>, pair: Option<(Handler, Handler)>)

  /** One accepted connection: append it, and when that makes two, remove
      both from the front. */
  function Accept(queue: seq<Handler>, h: Handler): (r: Accepted)
    ensures |queue| <= 1 ==> |r.queue| <= 1
    ensures r.pair.Some? <==> |queue| == 1
    ensures r.pair.Some? ==> r.pair.value == (queue[0], h) && r.queue == []
    ensures r.pair.None? ==> r.queue == queue + [h]
  {
    var waiting := queue + [h];
    if |waiting| == 2 then Accepted([], Some((waiting[0], waiting[1])))
    else Accepted(waiting, None)
  }

  /** The accept loop run over a whole arrival order from an empty room:
      the k-th session pairs arrivals 2k and 2k+1, and at most the last
      arrival is left waiting. */
  method AcceptAll(arrivals: seq<Handler>) returns (pairs: seq<(Handler, Handler)>, queue: seq<Handler>)
    ensures |pairs| == |arrivals| / 2
    ensures forall k :: 0 <= k < |pairs| ==> pairs[k] == (arrivals[2 * k], arrivals[2 * k + 1])
    ensures queue == arrivals[2 * |pairs|..] && |queue| <= 1
  {
    pairs, queue := [], [];
    var i := 0;
    while i < |arrivals|
      invariant 0 <= i <= |arrivals|
      invariant |pairs| == i / 2
      invariant forall k :: 0 <= k < |pairs| ==> pairs[k] == (arrivals[2 * k], arrivals[2 * k + 1])
      invariant queue == arrivals[2 * |pairs|..i]
    {
      var a := Accept(queue, arrivals[i]);
      queue := a.queue;
      if a.pair.Some? {
        pairs := pairs + [a.pair.value];
      }
      i := i + 1;
    }
  }

  /** A released pair becomes a session in which the earlier arrival holds
      seat 0, both start with the same balance, and betting is open. */
  lemma PairedSessionSeats(queue: seq<Handler>, h: Handler, built: seq<Cards.PlayingCard>, shuffled: seq<Cards.PlayingCard>)
    requires |queue| == 1
    requires Cards.IsShuffle(built) && Cards.IsShuffle(shuffled)
    ensures
      var p := Accept(queue, h).pair.value;
      var r := StartSession(p.0, p.1, built, shuffled);
      && r.session.player1 == queue[0] && r.session.player2 == h
      && r.session.game.moneys == [Blackjack.StartingMoney, Blackjack.StartingMoney]
      && r.session.game.phase == Blackjack.Betting
  {
    var r := StartSession(queue[0], h, built, shuffled);
    assert r.session.game.moneys == [Blackjack.StartingMoney, Blackjack.StartingMoney];
  }
}
