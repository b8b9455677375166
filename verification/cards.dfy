/** Card ids, their ranks, and how many cards of a list fall into a range of ranks. */
module Cards {

  const DECK_SIZE := 54
  const SMALL_JOKER := 52
  const BIG_JOKER := 53
  const LOWEST_RANK := 3
  const ACE_RANK := 14
  const HIGHEST_RANK := 17

  /** The rank of a card id: 3..15 for the suited cards (15 is the deuce), 16 and 17 for the
      jokers, and 0 for anything that is not a card. */
  function CardRank(card: int): (rank: int)
    ensures rank == 0 <==> !(0 <= card < DECK_SIZE)
    ensures rank != 0 ==> LOWEST_RANK <= rank <= HIGHEST_RANK
    ensures rank == 16 <==> card == SMALL_JOKER
    ensures rank == 17 <==> card == BIG_JOKER
  {
    if card < 0 || card > 53 then 0
    else if card == 52 then 16
    else if card == 53 then 17
    else card % 13 + 3
  }

  /** Of each rank from 3 to the deuce there are four cards, thirteen ids apart. */
  lemma SuitsOfRank(card: int, rank: int)
    requires LOWEST_RANK <= rank <= 15
    ensures CardRank(card) == rank <==> card in {rank - 3, rank + 10, rank + 23, rank + 36}
  {
    if 0 <= card < SMALL_JOKER && CardRank(card) == rank {
      assert card == 13 * (card / 13) + (rank - 3) && card / 13 in {0, 1, 2, 3};
    }
  }

  ghost predicate AllCards(cards: seq<int>) {
    forall i :: 0 <= i < |cards| ==> CardRank(cards[i]) != 0
  }

  /** How many cards of the list have a rank in lo..hi-1. */
  ghost function CountIn(cards: seq<int>, lo: int, hi: int): (n: nat)
    ensures n <= |cards|
  {
    if cards == [] then 0
    else
      CountIn(cards[..|cards| - 1], lo, hi) + (if lo <= CardRank(cards[|cards| - 1]) < hi then 1 else 0)
  }

  /** How many cards of the list have exactly this rank. */
  ghost function CountOf(cards: seq<int>, rank: int): (n: nat)
    ensures n <= |cards|
  {
    CountIn(cards, rank, rank + 1)
  }

  lemma {:induction false} CountInSplits(cards: seq<int>, lo: int, mid: int, hi: int)
    requires lo <= mid <= hi
    ensures CountIn(cards, lo, hi) == CountIn(cards, lo, mid) + CountIn(cards, mid, hi)
  {
    if cards != [] {
      CountInSplits(cards[..|cards| - 1], lo, mid, hi);
    }
  }

  /** A card list has no cards outside the ranks 3..17. */
  lemma {:induction false} CountInAll(cards: seq<int>, lo: int, hi: int)
    requires AllCards(cards)
    requires lo <= LOWEST_RANK && HIGHEST_RANK < hi
    ensures CountIn(cards, lo, hi) == |cards|
  {
    if cards != [] {
      CountInAll(cards[..|cards| - 1], lo, hi);
    }
  }

  lemma {:induction false} CountInNone(cards: seq<int>, lo: int, hi: int)
    requires forall i :: 0 <= i < |cards| ==> !(lo <= CardRank(cards[i]) < hi)
    ensures CountIn(cards, lo, hi) == 0
  {
    if cards != [] {
      CountInNone(cards[..|cards| - 1], lo, hi);
    }
  }

  lemma {:induction false} CountInSome(cards: seq<int>, lo: int, hi: int) returns (i: nat)
    requires CountIn(cards, lo, hi) > 0
    ensures i < |cards| && lo <= CardRank(cards[i]) < hi
  {
    i := |cards| - 1;
    if !(lo <= CardRank(cards[i]) < hi) {
      i := CountInSome(cards[..|cards| - 1], lo, hi);
    }
  }

  lemma {:induction false} CountInPositive(cards: seq<int>, lo: int, hi: int, i: nat)
    requires i < |cards| && lo <= CardRank(cards[i]) < hi
    ensures CountIn(cards, lo, hi) > 0
  {
    if i < |cards| - 1 {
      CountInPositive(cards[..|cards| - 1], lo, hi, i);
    }
  }

  lemma {:induction false} CountInFull(cards: seq<int>, lo: int, hi: int)
    requires CountIn(cards, lo, hi) == |cards|
    ensures forall i :: 0 <= i < |cards| ==> lo <= CardRank(cards[i]) < hi
  {
    if cards != [] {
      CountInFull(cards[..|cards| - 1], lo, hi);
    }
  }

  /** The counts of three different ranks are counts of different cards. */
  lemma ThreeRanks(cards: seq<int>, a: int, b: int, c: int)
    requires AllCards(cards)
    requires a < b < c
    ensures CountOf(cards, a) + CountOf(cards, b) + CountOf(cards, c) <= |cards|
  {
    CountInSplits(cards, a, a + 1, b);
    CountInSplits(cards, a, b, b + 1);
    CountInSplits(cards, a, b + 1, c);
    CountInSplits(cards, a, c, c + 1);
  }

  /** The same, for two. */
  lemma TwoRanks(cards: seq<int>, a: int, b: int)
    requires AllCards(cards)
    requires a != b
    ensures CountOf(cards, a) + CountOf(cards, b) <= |cards|
  {
    var lo, hi := if a < b then a else b, if a < b then b else a;
    CountInSplits(cards, lo, lo + 1, hi);
    CountInSplits(cards, lo, hi, hi + 1);
  }

  lemma OneMoreTimes(k: int, n: int)
    ensures k * (n + 1) == k * n + k
  {
  }

  /** A run of ranks that each occur k times. */
  lemma {:induction false} CountInRun(cards: seq<int>, lo: int, hi: int, k: nat)
    requires lo <= hi
    requires forall r :: lo <= r < hi ==> CountOf(cards, r) == k
    ensures CountIn(cards, lo, hi) == k * (hi - lo)
    decreases hi - lo
  {
    if lo == hi {
      CountInNone(cards, lo, hi);
    } else {
      CountInRun(cards, lo, hi - 1, k);
      CountInSplits(cards, lo, hi - 1, hi);
      assert CountIn(cards, hi - 1, hi) == CountOf(cards, hi - 1) == k;
      OneMoreTimes(k, hi - 1 - lo);
    }
  }

  lemma {:induction false} CountInConcat(a: seq<int>, b: seq<int>, lo: int, hi: int)
    ensures CountIn(a + b, lo, hi) == CountIn(a, lo, hi) + CountIn(b, lo, hi)
  {
    if b == [] {
      assert a + b == a;
    } else {
      CountInConcat(a, b[..|b| - 1], lo, hi);
      assert (a + b)[..|a + b| - 1] == a + b[..|b| - 1];
    }
  }

  /** Counting does not depend on the order of the cards. */
  lemma {:induction false} CountInPermutation(a: seq<int>, b: seq<int>, lo: int, hi: int)
    requires multiset(a) == multiset(b)
    ensures CountIn(a, lo, hi) == CountIn(b, lo, hi)
    decreases |a|
  {
    if a == [] {
      assert |multiset(b)| == 0;
    } else {
      var last := |a| - 1;
      var x := a[last];
      assert x in multiset(a);
      var j :| 0 <= j < |b| && b[j] == x;
      var rest := b[..j] + b[j + 1..];
      assert a == a[..last] + [x];
      assert b == b[..j] + [x] + b[j + 1..];
      assert multiset(rest) == multiset(b) - multiset{x};
      CountInPermutation(a[..last], rest, lo, hi);
      CountInConcat(b[..j], b[j + 1..], lo, hi);
      CountInConcat(b[..j] + [x], b[j + 1..], lo, hi);
      CountInConcat(b[..j], [x], lo, hi);
      CountInConcat(a[..last], [x], lo, hi);
    }
  }

  /** Of a rank that only one card has, the count is that card's multiplicity. */
  lemma {:induction false} JokerCount(cards: seq<int>, joker: int)
    requires joker == SMALL_JOKER || joker == BIG_JOKER
    ensures CountOf(cards, CardRank(joker)) == multiset(cards)[joker]
  {
    if cards != [] {
      var last := |cards| - 1;
      JokerCount(cards[..last], joker);
      assert cards == cards[..last] + [cards[last]];
    }
  }

  /** Counting a rank is counting its four cards. */
  lemma {:induction false} CountOfSuits(cards: seq<int>, rank: int)
    requires LOWEST_RANK <= rank <= 15
    ensures
      var m := multiset(cards);
      CountOf(cards, rank) == m[rank - 3] + m[rank + 10] + m[rank + 23] + m[rank + 36]
  {
    if cards != [] {
      var last := |cards| - 1;
      CountOfSuits(cards[..last], rank);
      SuitsOfRank(cards[last], rank);
      assert cards == cards[..last] + [cards[last]];
    }
  }

  lemma {:induction false} CountInEvery(cards: seq<int>, lo: int, hi: int)
    requires forall i :: 0 <= i < |cards| ==> lo <= CardRank(cards[i]) < hi
    ensures CountIn(cards, lo, hi) == |cards|
  {
    if cards != [] {
      CountInEvery(cards[..|cards| - 1], lo, hi);
    }
  }

  // ----- sorting

  ghost predicate OrderedBy(key: int -> int, s: seq<int>) {
    forall i, j :: 0 <= i < j < |s| ==> key(s[i]) <= key(s[j])
  }

  function Insert(key: int -> int, x: int, s: seq<int>): (t: seq<int>)
    requires OrderedBy(key, s)
    ensures OrderedBy(key, t) && multiset(t) == multiset(s) + multiset{x}
  {
    if s == [] then [x]
    else if key(x) <= key(s[0]) then [x] + s
    else
      var tail := Insert(key, x, s[1..]);
      InsertedBehind(key, x, s, tail);
      [s[0]] + tail
  }

  lemma InsertedBehind(key: int -> int, x: int, s: seq<int>, tail: seq<int>)
    requires OrderedBy(key, s) && s != [] && key(s[0]) <= key(x)
    requires OrderedBy(key, tail) && multiset(tail) == multiset(s[1..]) + multiset{x}
    ensures OrderedBy(key, [s[0]] + tail) && multiset([s[0]] + tail) == multiset(s) + multiset{x}
  {
    assert s == [s[0]] + s[1..];
    forall i | 0 <= i < |tail|
      ensures key(s[0]) <= key(tail[i])
    {
      assert tail[i] in multiset(tail);
      assert tail[i] == x || tail[i] in s[1..];
    }
  }

  /** The list in ascending order of the key. */
  function SortBy(key: int -> int, s: seq<int>): (t: seq<int>)
    ensures OrderedBy(key, t) && multiset(t) == multiset(s)
  {
    if s == [] then []
    else
      assert s == [s[0]] + s[1..];
      Insert(key, s[0], SortBy(key, s[1..]))
  }

  function RankKey(rank: int): int { rank }

  /** Orders 32-bit card ids by rank first and by id within a rank. */
  function CardKey(card: int): int { CardRank(card) * 0x1_0000_0000 + card }
}
