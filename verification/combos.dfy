/** What the combos are in terms of card ids, and which beats which in terms of their shapes. */
module Combos {
  import opened Cards
  import opened RuleEngine

  // ----- cards of one kind

  /** The ids are those of suited cards, a multiple of thirteen apart. */
  ghost predicate OfOneKind(cards: seq<int>) {
    && cards != []
    && (forall i :: 0 <= i < |cards| ==> 0 <= cards[i] < SMALL_JOKER)
    && forall i :: 0 <= i < |cards| ==> (cards[i] - cards[0]) % 13 == 0
  }

  function Kind(n: nat): ComboType {
    match n
    case 1 => Single
    case 2 => Pair
    case 3 => Triple
    case 4 => Bomb
    case _ => Invalid
  }

  lemma SameRank(a: int, b: int)
    requires 0 <= a < SMALL_JOKER && 0 <= b < SMALL_JOKER
    ensures CardRank(a) == CardRank(b) <==> (a - b) % 13 == 0
  {
  }

  lemma RankOfKind(cards: seq<int>)
    requires cards != [] && forall i :: 0 <= i < |cards| ==> 0 <= cards[i] < SMALL_JOKER
    ensures OfOneKind(cards) <==> CountOf(cards, CardRank(cards[0])) == |cards|
  {
    var rank := CardRank(cards[0]);
    forall i | 0 <= i < |cards|
      ensures CardRank(cards[i]) == rank <==> (cards[i] - cards[0]) % 13 == 0
    {
      SameRank(cards[i], cards[0]);
    }
    if OfOneKind(cards) {
      CountInEvery(cards, rank, rank + 1);
    }
    if CountOf(cards, rank) == |cards| {
      CountInFull(cards, rank, rank + 1);
    }
  }

  /** Up to three suited cards are a combo exactly if they are of one kind, and four are a bomb exactly if they
      are; its rank is that of the ids, counted from 3. */
  lemma KindsAreCombos(cards: seq<int>)
    requires 1 <= |cards| <= 4 && forall i :: 0 <= i < |cards| ==> 0 <= cards[i] < SMALL_JOKER
    ensures OfOneKind(cards) ==> Classify(cards) == CardCombo(Kind(|cards|), cards[0] % 13 + 3, |cards|, true)
    ensures !OfOneKind(cards) ==> Classify(cards).comboType != Kind(|cards|)
    ensures |cards| <= 3 ==> (Classify(cards).valid <==> OfOneKind(cards))
  {
    RankOfKind(cards);
    if OfOneKind(cards) {
      Classified(cards, Kind(|cards|), CardRank(cards[0]));
    } else if Classify(cards).valid {
      NoOtherKind(cards, Classify(cards).comboType, Classify(cards).mainRank);
    }
  }

  lemma NoOtherKind(cards: seq<int>, shape: ComboType, m: int)
    requires 1 <= |cards| <= 4 && forall i :: 0 <= i < |cards| ==> 0 <= cards[i] < SMALL_JOKER
    requires HasShape(cards, shape, m)
    ensures shape == Kind(|cards|) ==> OfOneKind(cards)
    ensures |cards| <= 3 ==> shape == Kind(|cards|)
  {
    if shape == Rocket {
      var i := CountInSome(cards, 16, 17);
    } else if shape == Kind(|cards|) {
      CountInFull(cards, m, m + 1);
      RankOfKind(cards);
    }
  }

  /** Two suited cards are a pair exactly if their ids differ by a multiple of thirteen. */
  lemma TwoOfAKind(a: int, b: int)
    requires 0 <= a < SMALL_JOKER && 0 <= b < SMALL_JOKER
    ensures Classify([a, b]).valid <==> (b - a) % 13 == 0
    ensures Classify([a, b]).valid ==> Classify([a, b]) == CardCombo(Pair, a % 13 + 3, 2, true)
  {
    var cards := [a, b];
    KindsAreCombos(cards);
    assert OfOneKind(cards) <==> (cards[1] - cards[0]) % 13 == 0;
  }

  /** The four cards of a rank are its bomb. */
  lemma FourOfAKind(card: int)
    requires 0 <= card < 13
    ensures Classify([card, card + 13, card + 26, card + 39]) == CardCombo(Bomb, card + 3, 4, true)
  {
    KindsAreCombos([card, card + 13, card + 26, card + 39]);
  }

  /** The rocket is the two jokers, in either order, and nothing else. */
  lemma RocketIsTheJokers(cards: seq<int>)
    ensures Classify(cards).comboType == Rocket <==> multiset(cards) == multiset{SMALL_JOKER, BIG_JOKER}
  {
    var m := multiset(cards);
    JokerCount(cards, SMALL_JOKER);
    JokerCount(cards, BIG_JOKER);
    if m == multiset{SMALL_JOKER, BIG_JOKER} {
      assert |cards| == |m| == 2;
      forall i | 0 <= i < |cards|
        ensures CardRank(cards[i]) != 0
      {
        assert cards[i] in m;
      }
      Classified(cards, Rocket, 17);
    }
  }

  // ----- runs of cards of a kind

  /** The first k cards of a suited rank, as ids. */
  function Block(k: nat, card: int): (cards: seq<int>)
    requires k <= 4
    ensures |cards| == k
  {
    [card, card + 13, card + 26, card + 39][..k]
  }

  /** k cards of each of the n ranks from that of the card on. */
  function Blocks(k: nat, card: int, n: nat): seq<int>
    requires k <= 4
  {
    if n == 0 then [] else Blocks(k, card, n - 1) + Block(k, card + n - 1)
  }

  lemma {:induction false} BlocksLength(k: nat, card: int, n: nat)
    requires k <= 4
    ensures |Blocks(k, card, n)| == k * n
  {
    if n > 0 {
      BlocksLength(k, card, n - 1);
      OneMoreTimes(k, n - 1);
    }
  }

  lemma CardsOfBoth(a: seq<int>, b: seq<int>)
    requires AllCards(a) && AllCards(b)
    ensures AllCards(a + b)
  {
  }

  lemma BlockHasRank(k: nat, card: int, i: nat)
    requires i < k <= 4 && 0 <= card < 13
    ensures CardRank(Block(k, card)[i]) == card + 3
  {
    SuitsOfRank(Block(k, card)[i], card + 3);
  }

  lemma BlockCounts(k: nat, card: int, rank: int)
    requires k <= 4 && 0 <= card < 13
    ensures AllCards(Block(k, card))
    ensures CountOf(Block(k, card), rank) == if rank == card + 3 then k else 0
  {
    var block := Block(k, card);
    forall i | 0 <= i < k
      ensures CardRank(block[i]) == card + 3
    {
      BlockHasRank(k, card, i);
    }
    if rank == card + 3 {
      CountInEvery(block, rank, rank + 1);
    } else {
      CountInNone(block, rank, rank + 1);
    }
  }

  lemma {:induction false} BlocksAreCards(k: nat, card: int, n: nat)
    requires k <= 4 && 0 <= card && card + n <= 13
    ensures AllCards(Blocks(k, card, n))
  {
    if n > 0 {
      BlocksAreCards(k, card, n - 1);
      BlockCounts(k, card + n - 1, 0);
      CardsOfBoth(Blocks(k, card, n - 1), Block(k, card + n - 1));
    }
  }

  lemma {:induction false} BlocksCount(k: nat, card: int, n: nat, rank: int)
    requires k <= 4 && 0 <= card && card + n <= 13
    ensures CountOf(Blocks(k, card, n), rank) == if card + 3 <= rank < card + 3 + n then k else 0
  {
    if n > 0 {
      var before, block := Blocks(k, card, n - 1), Block(k, card + n - 1);
      BlocksCount(k, card, n - 1, rank);
      BlockCounts(k, card + n - 1, rank);
      CountOfBoth(before, block, rank);
    }
  }

  lemma CountOfBoth(a: seq<int>, b: seq<int>, rank: int)
    ensures CountOf(a + b, rank) == CountOf(a, rank) + CountOf(b, rank)
  {
    CountInConcat(a, b, rank, rank + 1);
  }

  function RunShape(k: nat): ComboType {
    match k
    case 1 => Straight
    case 2 => PairStraight
    case 3 => Plane
    case _ => Invalid
  }

  /** How many ranks a run of singles, pairs or triples takes. */
  function FewestRanks(k: nat): nat {
    match k
    case 1 => 5
    case 2 => 3
    case _ => 2
  }

  /** Singles, pairs or triples of two or more ranks in a row are a combo exactly if they are five, three or two
      ranks, up to the ace: the straight, the pair straight or the plane of the last rank. */
  lemma RunsAreCombos(k: nat, card: int, n: nat)
    requires 1 <= k <= 3 && 0 <= card && card + n <= 13 && n >= 2
    ensures
      var run := Classify(Blocks(k, card, n));
      if n >= FewestRanks(k) && card + n <= 12 then run == CardCombo(RunShape(k), card + n + 2, k * n, true)
      else !run.valid
  {
    BlocksAreEven(k, card, n);
    BlocksLength(k, card, n);
    EvenAreCombos(Blocks(k, card, n), k, card + 3, n);
  }

  /** A list in which every rank occurs k times or not at all, and two ranks do. */
  ghost predicate IsEven(cards: seq<int>, k: nat, lo: int, hi: int) {
    && AllCards(cards) && LOWEST_RANK <= lo < hi <= 15
    && forall rank :: CountOf(cards, rank) == if lo <= rank <= hi then k else 0
  }

  lemma BlocksAreEven(k: nat, card: int, n: nat)
    requires 1 <= k <= 3 && 0 <= card && card + n <= 13 && n >= 2
    ensures IsEven(Blocks(k, card, n), k, card + 3, card + n + 2)
  {
    BlocksAreCards(k, card, n);
    forall rank
      ensures CountOf(Blocks(k, card, n), rank) == if card + 3 <= rank <= card + n + 2 then k else 0
    {
      BlocksCount(k, card, n, rank);
    }
  }

  lemma EvenHasShape(cards: seq<int>, k: nat, lo: int, n: nat)
    requires 1 <= k <= 3 && n >= 2 && IsEven(cards, k, lo, lo + n - 1) && |cards| == k * n
    requires n >= FewestRanks(k) && lo + n - 1 <= ACE_RANK
    ensures HasShape(cards, RunShape(k), lo + n - 1)
  {
    assert IsRun(cards, k, lo, lo + n - 1);
    if k == 1 {
      assert |cards| == n;
    } else if k == 2 {
      assert |cards| == 2 * n && |cards| / 2 == n;
    } else {
      assert |cards| == 3 * n && |cards| / 3 == n;
    }
  }

  lemma EvenAreCombos(cards: seq<int>, k: nat, lo: int, n: nat)
    requires 1 <= k <= 3 && n >= 2 && IsEven(cards, k, lo, lo + n - 1) && |cards| == k * n
    ensures
      var run := Classify(cards);
      if n >= FewestRanks(k) && lo + n - 1 <= ACE_RANK then run == CardCombo(RunShape(k), lo + n - 1, |cards|, true)
      else !run.valid
  {
    if n >= FewestRanks(k) && lo + n - 1 <= ACE_RANK {
      EvenHasShape(cards, k, lo, n);
      Classified(cards, RunShape(k), lo + n - 1);
    } else if Classify(cards).valid {
      OnlyRuns(cards, k, lo, n, Classify(cards).comboType, Classify(cards).mainRank);
    }
  }

  lemma FewAreNoRun(cards: seq<int>, k: nat, lo: int, hi: int, shape: ComboType, m: int)
    requires 1 <= k <= 3 && IsEven(cards, k, lo, hi) && HasShape(cards, shape, m)
    ensures |cards| >= 5
  {
    assert CountOf(cards, lo) == k == CountOf(cards, hi);
    TwoRanks(cards, lo, hi);
    if |cards| < 5 && shape != Rocket {
      TwoRanks(cards, m, if m == lo then hi else lo);
    }
  }

  lemma EvenIsRun(cards: seq<int>, k: nat, lo: int, hi: int, shape: ComboType, m: int)
    requires 1 <= k <= 3 && IsEven(cards, k, lo, hi) && HasShape(cards, shape, m) && |cards| >= 5
    ensures shape == RunShape(k) && hi <= ACE_RANK
  {
    ShapeMultiplicities(cards, shape, m);
    assert CountOf(cards, lo) == k == CountOf(cards, hi);
    assert HasCount(cards, k);
    forall j: nat | 0 < j && HasCount(cards, j)
      ensures j == k
    {
    }
  }

  lemma OnlyRuns(cards: seq<int>, k: nat, lo: int, n: nat, shape: ComboType, m: int)
    requires 1 <= k <= 3 && n >= 2 && IsEven(cards, k, lo, lo + n - 1) && |cards| == k * n && HasShape(cards, shape, m)
    ensures n >= FewestRanks(k) && lo + n - 1 <= ACE_RANK
  {
    FewAreNoRun(cards, k, lo, lo + n - 1, shape, m);
    EvenIsRun(cards, k, lo, lo + n - 1, shape, m);
    if k == 1 {
      assert |cards| == n;
    } else if k == 2 {
      assert |cards| == 2 * n;
    }
  }

  // ----- combos with wings

  /** Different suited ranks, as their lowest ids, none of them among the n from the card on. */
  ghost predicate AreWings(ranks: seq<int>, card: int, n: nat) {
    && (forall i :: 0 <= i < |ranks| ==> 0 <= ranks[i] < 13 && !(card <= ranks[i] < card + n))
    && forall i, j :: 0 <= i < j < |ranks| ==> ranks[i] != ranks[j]
  }

  function Wings(wing: nat, ranks: seq<int>): seq<int>
    requires wing <= 4
  {
    if ranks == [] then [] else Wings(wing, ranks[..|ranks| - 1]) + Block(wing, ranks[|ranks| - 1])
  }

  lemma {:induction false} WingsLength(wing: nat, ranks: seq<int>)
    requires wing <= 4
    ensures |Wings(wing, ranks)| == wing * |ranks|
  {
    if ranks != [] {
      WingsLength(wing, ranks[..|ranks| - 1]);
      OneMoreTimes(wing, |ranks| - 1);
    }
  }

  lemma {:induction false} WingsAreCards(wing: nat, ranks: seq<int>)
    requires wing <= 4 && AreWings(ranks, 0, 0)
    ensures AllCards(Wings(wing, ranks))
  {
    if ranks != [] {
      var before, last := ranks[..|ranks| - 1], ranks[|ranks| - 1];
      WingsAreCards(wing, before);
      BlockCounts(wing, last, 0);
      CardsOfBoth(Wings(wing, before), Block(wing, last));
    }
  }

  lemma {:induction false} WingsCount(wing: nat, ranks: seq<int>, rank: int)
    requires wing <= 4 && AreWings(ranks, 0, 0)
    ensures CountOf(Wings(wing, ranks), rank) == if rank - 3 in ranks then wing else 0
  {
    if ranks != [] {
      var before, last := ranks[..|ranks| - 1], ranks[|ranks| - 1];
      WingsCount(wing, before, rank);
      BlockCounts(wing, last, rank);
      CountOfBoth(Wings(wing, before), Block(wing, last), rank);
      assert ranks == before + [last];
    }
  }

  function WingedShape(k: nat, n: nat, wing: nat): ComboType {
    if k == 4 then (if wing == 1 then FourTwoSingles else FourTwoPairs)
    else if n == 1 then (if wing == 1 then TripleOne else TriplePair)
    else if wing == 1 then PlaneSingle else PlanePair
  }

  /** A triple with one wing, a plane up to the ace with as many wings as triples, and four cards of a rank with
      two wings are combos, whether the wings are single cards or pairs; the rank is that of the last triple or
      of the four. */
  lemma WingedAreCombos(k: nat, card: int, n: nat, wing: nat, ranks: seq<int>)
    requires 0 <= card && 1 <= n && card + n <= (if n == 1 then 13 else 12) && 1 <= wing <= 2
    requires if k == 4 then n == 1 && |ranks| == 2 else k == 3 && |ranks| == n
    requires AreWings(ranks, card, n)
    ensures
      var cards := Blocks(k, card, n) + Wings(wing, ranks);
      Classify(cards) == CardCombo(WingedShape(k, n, wing), card + n + 2, |cards|, true)
  {
    var cards := Blocks(k, card, n) + Wings(wing, ranks);
    BlocksAndWings(k, card, n, wing, ranks);
    BlocksLength(k, card, n);
    WingsLength(wing, ranks);
    WingedLength(k, n, wing);
    if k == 3 && n >= 2 {
      WingedPlaneHasShape(cards, card, n, wing, ranks);
    } else {
      WingedSetHasShape(cards, k, card, wing, ranks);
    }
    Classified(cards, WingedShape(k, n, wing), card + n + 2);
  }

  lemma WingedLength(k: nat, n: nat, wing: nat)
    requires 1 <= wing <= 2
    ensures k * 1 == k && 3 * n + wing * n == if wing == 1 then 4 * n else 5 * n
  {
  }

  lemma BlocksAndWings(k: nat, card: int, n: nat, wing: nat, ranks: seq<int>)
    requires k <= 4 && wing <= 4 && 0 <= card && card + n <= 13 && AreWings(ranks, card, n)
    ensures IsWinged(Blocks(k, card, n) + Wings(wing, ranks), k, card, n, wing, ranks)
  {
    var body, wings := Blocks(k, card, n), Wings(wing, ranks);
    BlocksAreCards(k, card, n);
    WingsAreCards(wing, ranks);
    CardsOfBoth(body, wings);
    forall rank
      ensures CountOf(body + wings, rank) ==
              if card + 3 <= rank < card + 3 + n then k else if rank - 3 in ranks then wing else 0
    {
      BlocksCount(k, card, n, rank);
      WingsCount(wing, ranks, rank);
      CountOfBoth(body, wings, rank);
    }
  }

  /** How often each rank occurs: k times in the run, and as often as the wings say among them. */
  ghost predicate IsWinged(cards: seq<int>, k: nat, card: int, n: nat, wing: nat, ranks: seq<int>) {
    && AllCards(cards) && AreWings(ranks, card, n)
    && forall rank ::
         CountOf(cards, rank) ==
         if card + 3 <= rank < card + 3 + n then k else if rank - 3 in ranks then wing else 0
  }

  lemma WingedPlaneHasShape(cards: seq<int>, card: int, n: nat, wing: nat, ranks: seq<int>)
    requires 0 <= card && 2 <= n && card + n <= 12 && 1 <= wing <= 2
    requires IsWinged(cards, 3, card, n, wing, ranks) && |cards| == if wing == 1 then 4 * n else 5 * n
    ensures HasShape(cards, WingedShape(3, n, wing), card + n + 2)
  {
    assert IsWingedRun(cards, wing, card + 3, card + n + 2);
  }

  lemma WingedSetHasShape(cards: seq<int>, k: nat, card: int, wing: nat, ranks: seq<int>)
    requires 0 <= card < 13 && 1 <= wing <= 2 && 3 <= k <= 4 && |ranks| == k - 2
    requires IsWinged(cards, k, card, 1, wing, ranks) && |cards| == k + wing * |ranks|
    ensures HasShape(cards, WingedShape(k, 1, wing), card + 3)
  {
    assert CountOf(cards, ranks[0] + 3) == wing;
  }

  // ----- which beats which

  /** The rocket stands above the bombs, and they above all else. */
  function Tier(shape: ComboType): nat {
    match shape
    case Rocket => 2
    case Bomb => 1
    case _ => 0
  }

  /** Of the shapes that come in several lengths, only combos of the same length are compared. */
  predicate HaveLength(shape: ComboType) {
    shape in {Straight, PairStraight, Plane, PlaneSingle, PlanePair}
  }

  /** Of two card lists that are combos, one beats the other exactly if it is of a higher tier, or of the same shape
      and, if that has a length, of the same length, and of a higher rank. */
  lemma BeatsByShape(x: seq<int>, shape1: ComboType, m1: int, y: seq<int>, shape2: ComboType, m2: int)
    requires HasShape(x, shape1, m1) && HasShape(y, shape2, m2)
    ensures
      CanBeat(Classify(x), Classify(y)) <==>
      || Tier(shape1) > Tier(shape2)
      || (shape1 == shape2 && m1 > m2 && (HaveLength(shape1) ==> |x| == |y|))
  {
    Classified(x, shape1, m1);
    Classified(y, shape2, m2);
  }

  /** What is no combo beats nothing, and is beaten by every combo. */
  lemma OnlyCombosBeat(x: seq<int>, y: seq<int>)
    ensures !HasSomeShape(x) ==> !CanBeat(Classify(x), Classify(y))
    ensures HasSomeShape(x) && !HasSomeShape(y) ==> CanBeat(Classify(x), Classify(y))
  {
  }

  /** A card beats nothing but a lower card. */
  lemma CardBeatsCard(card: int, cards: seq<int>)
    requires 0 <= card < DECK_SIZE && HasSomeShape(cards)
    ensures CanBeat(Classify([card]), Classify(cards)) <==> |cards| == 1 && CardRank(card) > CardRank(cards[0])
  {
    SingleCard(card);
    var shape, m :| HasShape(cards, shape, m);
    Classified(cards, shape, m);
    if |cards| == 1 {
      var i := CountInSome(cards, m, m + 1);
    }
  }
}
