/** Hand scoring: `Blackjack.calculateOptimalScore` and the full-hand
    recomputation the engine performs on every deal, hit and dealer draw. */
module Scoring {
  import opened Cards

  /** What `calculateOptimalScore(sum, aces)` promises: the result is `sum`
      with some number k <= aces of aces demoted from 11 to 1 (10 points each),
      none when there is no ace or `sum` is already within 21, every ace when
      the hand stays over 21, and otherwise no more than needed to get to 21. */
  ghost predicate IsOptimal(sum: int, aces: nat, r: int) {
    && (exists k: nat :: k <= aces && r == sum - 10 * k)
    && (aces == 0 || sum <= 21 ==> r == sum)
    && (r > 21 ==> r == sum - 10 * aces)
    && (r < sum ==> r > 11)
  }

  /** `calculateOptimalScore`: while the total is over 21 and an ace is
      still counted as 11, count it as 1 instead. */
  function OptimalScore(sum: int, aces: nat): (r: int)
    ensures r <= sum && r >= sum - 10 * aces && (sum - r) % 10 == 0
    ensures aces == 0 || sum <= 21 ==> r == sum
    ensures r > 21 ==> r == sum - 10 * aces
    ensures r < sum ==> r > 11
    decreases aces
  {
    if aces == 0 || sum <= 21 then sum
    else OptimalScore(sum - 10, aces - 1)
  }

  lemma OptimalScoreMeetsSpec(sum: int, aces: nat)
    ensures IsOptimal(sum, aces, OptimalScore(sum, aces))
  {
    var r := OptimalScore(sum, aces);
    var k: nat := (sum - r) / 10;
    assert k <= aces && r == sum - 10 * k;
  }

  /** The specification has exactly one solution, so `OptimalScore` is the
      only function that meets it. */
  lemma OptimalScoreUnique(sum: int, aces: nat, r: int)
    requires IsOptimal(sum, aces, r)
    ensures r == OptimalScore(sum, aces)
  {
    var o := OptimalScore(sum, aces);
    var k: nat :| k <= aces && r == sum - 10 * k;
    var j: nat := (sum - o) / 10;
    assert o == sum - 10 * j;
  }

  /** Applying the reduction to its own result changes nothing exactly when
      the first result is within 21 or there is no ace to demote. */
  lemma ReapplyStableIff(sum: int, aces: nat)
    ensures OptimalScore(OptimalScore(sum, aces), aces) == OptimalScore(sum, aces)
        <==> OptimalScore(sum, aces) <= 21 || aces == 0
  {
    var r := OptimalScore(sum, aces);
    if r > 21 && aces > 0 {
      assert OptimalScore(r, aces) == OptimalScore(r - 10, aces - 1);
    }
  }

  /** The point value of a card, and whether it is an ace, as a 0/1 count. */
  function AceFlag(c: Card): (n: nat)
    ensures n == 1 <==> c.rank == Ace
    ensures n <= 1
  {
    if c.rank == Ace then 1 else 0
  }

  /** Raw total of a hand: every ace counted as 11. */
  function RawTotal(h: seq<PlayingCard>): int
    decreases |h|
  {
    if h == [] then 0 else RawTotal(h[..|h| - 1]) + Value(h[|h| - 1])
  }

  /** Number of aces in a hand. */
  function AceCount(h: seq<PlayingCard>): nat
    decreases |h|
  {
    if h == [] then 0 else AceCount(h[..|h| - 1]) + AceFlag(h[|h| - 1])
  }

  /** Total with every ace counted as 1: the least value the hand can have. */
  function HardTotal(h: seq<PlayingCard>): int {
    RawTotal(h) - 10 * AceCount(h)
  }

  /** The score the engine recomputes from a whole hand. */
  function HandScore(h: seq<PlayingCard>): (r: int)
    ensures HardTotal(h) <= r <= RawTotal(h)
    ensures h == [] ==> r == 0
  {
    OptimalScore(RawTotal(h), AceCount(h))
  }

  lemma TotalsAppend(h: seq<PlayingCard>, c: PlayingCard)
    ensures RawTotal(h + [c]) == RawTotal(h) + Value(c)
    ensures AceCount(h + [c]) == AceCount(h) + AceFlag(c)
  {
    assert (h + [c])[..|h|] == h;
  }

  lemma {:induction false} TotalsConcat(a: seq<PlayingCard>, b: seq<PlayingCard>)
    ensures RawTotal(a + b) == RawTotal(a) + RawTotal(b)
    ensures AceCount(a + b) == AceCount(a) + AceCount(b)
    decreases |b|
  {
    if b == [] {
      assert a + b == a;
    } else {
      var b' := b[..|b| - 1];
      var c := b[|b| - 1];
      assert a + b == (a + b') + [c];
      assert b == b' + [c];
      TotalsConcat(a, b');
      TotalsAppend(a + b', c);
      TotalsAppend(b', c);
    }
  }

  /** Every card is worth at least one point with its ace demoted, so a hand's
      hard total is at least its number of cards. */
  lemma {:induction false} HardTotalAtLeastSize(h: seq<PlayingCard>)
    ensures HardTotal(h) >= |h|
    decreases |h|
  {
    if h != [] {
      var h' := h[..|h| - 1];
      HardTotalAtLeastSize(h');
      TotalsAppend(h', h[|h| - 1]);
      assert h == h' + [h[|h| - 1]];
    }
  }

  /** Raw total and ace count depend only on which cards are held. */
  lemma {:induction false} TotalsPermutation(a: seq<PlayingCard>, b: seq<PlayingCard>)
    requires multiset(a) == multiset(b)
    ensures RawTotal(a) == RawTotal(b) && AceCount(a) == AceCount(b)
    decreases |a|
  {
    if a != [] {
      var a' := a[..|a| - 1];
      var x := a[|a| - 1];
      assert a == a' + [x];
      assert x in multiset(b);
      var k :| 0 <= k < |b| && b[k] == x;
      var b' := b[..k] + b[k + 1..];
      TotalsRemoveAt(b, k);
      assert multiset(a') == multiset(a) - multiset{x};
      TotalsPermutation(a', b');
      TotalsAppend(a', x);
    }
  }

  /** Taking the card at position k out of a hand takes its points and its
      ace with it. */
  lemma TotalsRemoveAt(b: seq<PlayingCard>, k: nat)
    requires k < |b|
    ensures multiset(b[..k] + b[k + 1..]) == multiset(b) - multiset{b[k]}
    ensures RawTotal(b) == RawTotal(b[..k] + b[k + 1..]) + Value(b[k])
    ensures AceCount(b) == AceCount(b[..k] + b[k + 1..]) + AceFlag(b[k])
  {
    RemoveAtMultiset(b, k);
    var x, p, q := b[k], b[..k], b[k + 1..];
    assert p + [x] == b[..k + 1];
    assert b == b[..k + 1] + q;
    TotalsConcat(p + [x], q);
    TotalsConcat(p, q);
    TotalsAppend(p, x);
  }

  lemma RemoveAtMultiset<T>(b: seq<T>, k: nat)
    requires k < |b|
    ensures multiset(b[..k] + b[k + 1..]) == multiset(b) - multiset{b[k]}
  {
    var x, p, q := b[k], b[..k], b[k + 1..];
    assert b == p + [x] + q;
    assert multiset(b) == multiset(p) + multiset{x} + multiset(q);
    assert multiset(p + q) == multiset(p) + multiset(q);
  }

  /** The score of a hand does not depend on the order its cards arrived in. */
  lemma HandScorePermutation(a: seq<PlayingCard>, b: seq<PlayingCard>)
    requires multiset(a) == multiset(b)
    ensures HandScore(a) == HandScore(b)
  {
    TotalsPermutation(a, b);
  }

  /** Totals of a hand given card by card. */
  lemma TotalsOfFew(a: PlayingCard, b: PlayingCard, c: PlayingCard, d: PlayingCard)
    ensures RawTotal([a, b]) == Value(a) + Value(b) && AceCount([a, b]) == AceFlag(a) + AceFlag(b)
    ensures RawTotal([a, b, c]) == Value(a) + Value(b) + Value(c)
    ensures AceCount([a, b, c]) == AceFlag(a) + AceFlag(b) + AceFlag(c)
    ensures RawTotal([a, b, c, d]) == Value(a) + Value(b) + Value(c) + Value(d)
    ensures AceCount([a, b, c, d]) == AceFlag(a) + AceFlag(b) + AceFlag(c) + AceFlag(d)
  {
    TotalsAppend([], a);
    assert [] + [a] == [a];
    TotalsAppend([a], b);
    assert [a] + [b] == [a, b];
    TotalsAppend([a, b], c);
    assert [a, b] + [c] == [a, b, c];
    TotalsAppend([a, b, c], d);
    assert [a, b, c] + [d] == [a, b, c, d];
  }

  /** Worked example of the ace rule: two aces and a nine score 21, one ace
      counted as 11 and the other as 1. */
  lemma TwoAcesAndNine()
    ensures HandScore([Card(Ace, Spades), Card(Ace, Hearts), Card(Nine, Clubs)]) == 21
  {
    var a1, a2, nine: PlayingCard := Card(Ace, Spades), Card(Ace, Hearts), Card(Nine, Clubs);
    assert Value(a1) == Value(a2) == 11 && Value(nine) == 9;
    assert AceFlag(a1) == AceFlag(a2) == 1 && AceFlag(nine) == 0;
    TotalsOfFew(a1, a2, nine, nine);
    assert OptimalScore(31, 2) == OptimalScore(21, 1);
  }

  /** Worked example: an ace and a ten make 21. */
  lemma AceAndTen()
    ensures HandScore([Card(Ace, Spades), Card(Ten, Hearts)]) == 21
  {
    var a1, ten: PlayingCard := Card(Ace, Spades), Card(Ten, Hearts);
    assert Value(a1) == 11 && Value(ten) == 10;
    assert AceFlag(a1) == 1 && AceFlag(ten) == 0;
    TotalsOfFew(a1, ten, ten, ten);
  }

  /** Worked example: three aces and an eight score 21 (one ace as 11, two
      as 1), not 11. */
  lemma ThreeAcesAndEight()
    ensures HandScore([Card(Ace, Spades), Card(Ace, Hearts), Card(Ace, Clubs), Card(Eight, Diamonds)]) == 21
  {
    var a1, a2, a3, eight: PlayingCard := Card(Ace, Spades), Card(Ace, Hearts), Card(Ace, Clubs), Card(Eight, Diamonds);
    assert Value(a1) == Value(a2) == Value(a3) == 11 && Value(eight) == 8;
    assert AceFlag(a1) == AceFlag(a2) == AceFlag(a3) == 1 && AceFlag(eight) == 0;
    TotalsOfFew(a1, a2, a3, eight);
    assert OptimalScore(41, 3) == OptimalScore(31, 2) == OptimalScore(21, 1);
  }
}
