/** Playing cards (src/Card.java) and the 52-card deck the engine builds
    (`Blackjack.buildDeck`). A card's rank and suit are kept as datatypes;
    their textual symbols, which the Java class stores directly, are given
    by `RankSymbol` and `SuitSymbol`. */
module Cards {
  import opened Wrappers
  import Text

  /** The thirteen ranks, plus `Back`: the face-down placeholder the server
      sends in place of the dealer's hole card (a card whose rank string is
      "BACK" and whose suit string is empty). */
  datatype Rank = Ace | Two | Three | Four | Five | Six | Seven | Eight | Nine | Ten
                | Jack | Queen | King | Back

  /** Clubs, diamonds, hearts, spades, and the empty suit of the placeholder. */
  datatype Suit = Clubs | Diamonds | Hearts | Spades | Blank

  datatype Card = Card(rank: Rank, suit: Suit)

  /** A card with a point value: anything but the placeholder. The Java
      `getValue` throws on the placeholder, so scoring only takes these. */
  type PlayingCard = c: Card | c.rank != Back witness Card(Ace, Spades)

  const BackCard: Card := Card(Back, Blank)

  function RankSymbol(r: Rank): string {
    match r
    case Ace => "A"
    case Two => "2"
    case Three => "3"
    case Four => "4"
    case Five => "5"
    case Six => "6"
    case Seven => "7"
    case Eight => "8"
    case Nine => "9"
    case Ten => "10"
    case Jack => "J"
    case Queen => "Q"
    case King => "K"
    case Back => "BACK"
  }

  function SuitSymbol(s: Suit): string {
    match s
    case Clubs => "C"
    case Diamonds => "D"
    case Hearts => "H"
    case Spades => "S"
    case Blank => ""
  }

  /** `Card.isAce`: the rank string is exactly "A". */
  function IsAce(c: Card): (b: bool)
    ensures b <==> RankSymbol(c.rank) == "A"
  {
    c.rank == Ace
  }

  /** `Card.getValue`: an ace counts 11, a face card 10, a numeral its number. */
  function Value(c: PlayingCard): (v: int)
    ensures 2 <= v <= 11
    ensures v == 11 <==> c.rank == Ace
    ensures c.rank in {Jack, Queen, King, Ten} <==> v == 10
  {
    match c.rank
    case Ace => 11
    case Two => 2
    case Three => 3
    case Four => 4
    case Five => 5
    case Six => 6
    case Seven => 7
    case Eight => 8
    case Nine => 9
    case Ten => 10
    case Jack => 10
    case Queen => 10
    case King => 10
  }

  /** `getValue` read off the rank string, as the Java code does it: a string
      found inside "AJQK" is a letter rank (11 for "A", 10 otherwise), any other
      string goes through `Integer.parseInt`, whose exception is `None`. */
  function SymbolValue(symbol: string): (r: Option<int>)
    ensures Text.Contains("AJQK", symbol) ==> r.Some? && (r.value == 11 <==> symbol == "A")
    ensures Text.Contains("AJQK", symbol) && symbol != "A" ==> r == Some(10)
    ensures !Text.Contains("AJQK", symbol) ==> r == Text.ParseInt(symbol)
    ensures r.Some? ==> Text.InInt32(r.value)
  {
    if Text.Contains("AJQK", symbol) then
      if symbol == "A" then Some(11) else Some(10)
    else Text.ParseInt(symbol)
  }

  /** `Card.toString`: rank, a dash, then suit, e.g. "A-H". */
  function CardString(c: Card): (s: string)
    ensures |s| == |RankSymbol(c.rank)| + 1 + |SuitSymbol(c.suit)|
    ensures s[|RankSymbol(c.rank)|] == '-'
    ensures s[..|RankSymbol(c.rank)|] == RankSymbol(c.rank)
    ensures s[|RankSymbol(c.rank)| + 1..] == SuitSymbol(c.suit)
  {
    RankSymbol(c.rank) + "-" + SuitSymbol(c.suit)
  }

  const ImageDirectory: string := "resources/cards/"
  const ImageExtension: string := ".png"

  /** `Card.getImagePath`: the asset file named after the card's string form. */
  function ImagePath(c: Card): (p: string)
    ensures |p| == |ImageDirectory| + |CardString(c)| + |ImageExtension|
    ensures Text.StartsWith(p, ImageDirectory)
    ensures p[|ImageDirectory|..|p| - |ImageExtension|] == CardString(c)
    ensures p[|p| - |ImageExtension|..] == ImageExtension
  {
    ImageDirectory + CardString(c) + ImageExtension
  }

  /** Two cards share an image file only if they are the same card. */
  lemma ImagePathInjective(a: Card, b: Card)
    ensures ImagePath(a) == ImagePath(b) ==> a == b
  {
    if ImagePath(a) == ImagePath(b) {
      var p := ImagePath(a);
      assert CardString(a) == p[|ImageDirectory|..|p| - |ImageExtension|] == CardString(b);
      CardStringInjective(a, b);
    }
  }

  /** Inverse of `RankSymbol`. */
  function ParseRank(s: string): Option<Rank> {
    if s == "A" then Some(Ace)
    else if s == "2" then Some(Two)
    else if s == "3" then Some(Three)
    else if s == "4" then Some(Four)
    else if s == "5" then Some(Five)
    else if s == "6" then Some(Six)
    else if s == "7" then Some(Seven)
    else if s == "8" then Some(Eight)
    else if s == "9" then Some(Nine)
    else if s == "10" then Some(Ten)
    else if s == "J" then Some(Jack)
    else if s == "Q" then Some(Queen)
    else if s == "K" then Some(King)
    else if s == "BACK" then Some(Back)
    else None
  }

  /** Inverse of `SuitSymbol`. */
  function ParseSuit(s: string): Option<Suit> {
    if s == "C" then Some(Clubs)
    else if s == "D" then Some(Diamonds)
    else if s == "H" then Some(Hearts)
    else if s == "S" then Some(Spades)
    else if s == "" then Some(Blank)
    else None
  }

  /** Position of the first dash in `s`, if any. */
  function FirstDash(s: string): (r: Option<nat>)
    ensures r.Some? ==> r.value < |s| && s[r.value] == '-' && '-' !in s[..r.value]
    ensures r.None? ==> '-' !in s
  {
    if |s| == 0 then None
    else if s[0] == '-' then Some(0)
    else match FirstDash(s[1..])
      case None => None
      case Some(k) => Some(k + 1)
  }

  /** Reads a card back from its string form. */
  function ParseCard(s: string): Option<Card> {
    match FirstDash(s)
    case None => None
    case Some(k) =>
      match (ParseRank(s[..k]), ParseSuit(s[k + 1..]))
      case (Some(r), Some(t)) => Some(Card(r, t))
      case _ => None
  }

  lemma FirstDashAfter(a: string, b: string)
    requires '-' !in a
    ensures FirstDash(a + "-" + b) == Some(|a|)
  {
    var s := a + "-" + b;
    assert s[..|a|] == a;
    assert s[|a|] == '-';
  }

  lemma ParseRankSymbol(r: Rank)
    ensures ParseRank(RankSymbol(r)) == Some(r) && '-' !in RankSymbol(r)
  {
  }

  lemma ParseSuitSymbol(t: Suit)
    ensures ParseSuit(SuitSymbol(t)) == Some(t)
  {
  }

  /** The string form identifies the card: parsing it gives the card back,
      so two different cards never share an image file. */
  lemma CardStringRoundTrip(c: Card)
    ensures ParseCard(CardString(c)) == Some(c)
  {
    var a := RankSymbol(c.rank);
    var b := SuitSymbol(c.suit);
    ParseRankSymbol(c.rank);
    ParseSuitSymbol(c.suit);
    FirstDashAfter(a, b);
    var s := a + "-" + b;
    assert s[..|a|] == a;
    assert s[|a| + 1..] == b;
  }

  lemma CardStringInjective(c1: Card, c2: Card)
    requires CardString(c1) == CardString(c2)
    ensures c1 == c2
  {
    CardStringRoundTrip(c1);
    CardStringRoundTrip(c2);
  }

  /** The string-level `getValue` agrees with `Value` on every real rank,
      and fails (a NumberFormatException) on the placeholder. */
  lemma SymbolValueAgrees(c: PlayingCard)
    ensures SymbolValue(RankSymbol(c.rank)) == Some(Value(c))
  {
    match c.rank
    case Ace =>
    case Jack =>
    case Queen =>
    case King =>
    case Ten => TenSymbolValue();
    case Two | Three | Four | Five | Six | Seven | Eight | Nine =>
      DigitSymbolValue(RankSymbol(c.rank));
  }

  lemma TenSymbolValue()
    ensures SymbolValue("10") == Some(10)
  {
    Text.NotContainedFirst("AJQK", "10");
    assert Text.DigitsValue("10") == Text.DigitsValue("1") * 10 + 0;
  }

  /** A one-digit rank string is parsed to its digit. */
  lemma DigitSymbolValue(s: string)
    requires |s| == 1 && '2' <= s[0] <= '9'
    ensures SymbolValue(s) == Some(Text.DigitValue(s[0]))
  {
    Text.NotContainedFirst("AJQK", s);
    assert Text.DigitsValue(s) == Text.DigitsValue([]) * 10 + Text.DigitValue(s[0]);
  }

  lemma PlaceholderHasNoValue()
    ensures SymbolValue(RankSymbol(Back)) == None
  {
    Text.NotContainedFirst("AJQK", "BACK");
  }

  /** Ranks and suits in the order `buildDeck` loops over them. */
  const Ranks: seq<Rank> := [Ace, Two, Three, Four, Five, Six, Seven, Eight, Nine, Ten, Jack, Queen, King]
  const Suits: seq<Suit> := [Clubs, Diamonds, Hearts, Spades]

  function RankIndex(r: Rank): (k: nat)
    requires r != Back
    ensures k < 13 && Ranks[k] == r
  {
    match r
    case Ace => 0
    case Two => 1
    case Three => 2
    case Four => 3
    case Five => 4
    case Six => 5
    case Seven => 6
    case Eight => 7
    case Nine => 8
    case Ten => 9
    case Jack => 10
    case Queen => 11
    case King => 12
  }

  function SuitIndex(s: Suit): (k: nat)
    requires s != Blank
    ensures k < 4 && Suits[k] == s
  {
    match s
    case Clubs => 0
    case Diamonds => 1
    case Hearts => 2
    case Spades => 3
  }

  lemma RanksDistinct(i: nat, j: nat)
    requires i < 13 && j < 13 && Ranks[i] == Ranks[j]
    ensures i == j
  {
    assert RankIndex(Ranks[i]) == i;
    assert RankIndex(Ranks[j]) == j;
  }

  lemma SuitsDistinct(i: nat, j: nat)
    requires i < 4 && j < 4 && Suits[i] == Suits[j]
    ensures i == j
  {
    assert SuitIndex(Suits[i]) == i;
    assert SuitIndex(Suits[j]) == j;
  }

  predicate Distinct<T(==)>(s: seq<T>) {
    forall i, j :: 0 <= i < j < |s| ==> s[i] != s[j]
  }

  function DeckCard(i: nat): PlayingCard
    requires i < 52
  {
    Card(Ranks[i % 13], Suits[i / 13])
  }

  /** Positions i and j of the built deck hold different cards. */
  lemma DeckCardsDistinct(i: nat, j: nat)
    requires i < j < 52
    ensures DeckCard(i) != DeckCard(j)
  {
    if DeckCard(i) == DeckCard(j) {
      RanksDistinct(i % 13, j % 13);
      SuitsDistinct(i / 13, j / 13);
    }
  }

  /** Every real card sits at position 13 * suit + rank of the built deck. */
  lemma DeckCardCovers(c: PlayingCard)
    requires c.suit != Blank
    ensures DeckCard(SuitIndex(c.suit) * 13 + RankIndex(c.rank)) == c
  {
    var a, b := SuitIndex(c.suit), RankIndex(c.rank);
    var k := a * 13 + b;
    assert k / 13 == a && k % 13 == b;
  }

  /** `Blackjack.buildDeck`: for each suit C, D, H, S, the ranks A, 2..10, J, Q, K. */
  function FullDeck(): (d: seq<PlayingCard>)
    ensures |d| == 52
    ensures Distinct(d)
    ensures forall c: PlayingCard :: c.suit != Blank ==> c in d
  {
    var d := seq(52, i requires 0 <= i < 52 => DeckCard(i));
    assert Distinct(d) by {
      forall i, j | 0 <= i < j < 52
        ensures d[i] != d[j]
      {
        DeckCardsDistinct(i, j);
      }
    }
    forall c: PlayingCard | c.suit != Blank
      ensures c in d
    {
      DeckCardCovers(c);
      assert d[SuitIndex(c.suit) * 13 + RankIndex(c.rank)] == c;
    }
    d
  }

  /** A shuffled deck: some permutation of the freshly built one. This is how
      `Collections.shuffle` is modelled; the random source is not. */
  predicate IsShuffle(d: seq<PlayingCard>) {
    multiset(d) == multiset(FullDeck())
  }

  lemma MultisetDistinct<T>(a: seq<T>, b: seq<T>)
    requires multiset(a) == multiset(b) && Distinct(b)
    ensures Distinct(a)
  {
    forall i, j | 0 <= i < j < |a|
      ensures a[i] != a[j]
    {
      if a[i] == a[j] {
        var x := a[i];
        assert a == a[..i] + [a[i]] + a[i + 1..j] + [a[j]] + a[j + 1..];
        assert multiset(a)[x] >= 2;
        DistinctCountsOne(b, x);
      }
    }
  }

  lemma {:induction false} DistinctCountsOne<T>(b: seq<T>, x: T)
    requires Distinct(b)
    ensures multiset(b)[x] <= 1
    decreases |b|
  {
    if |b| > 0 {
      var rest := b[1..];
      assert b == [b[0]] + rest;
      assert Distinct(rest);
      DistinctCountsOne(rest, x);
      if b[0] == x {
        assert x !in rest;
        assert multiset(rest)[x] == 0;
      }
    }
  }

  /** Every shuffle holds 52 distinct cards. */
  lemma ShuffleIsDeck(d: seq<PlayingCard>)
    requires IsShuffle(d)
    ensures |d| == 52 && Distinct(d)
  {
    assert |multiset(d)| == |multiset(FullDeck())|;
    MultisetDistinct(d, FullDeck());
  }
}
