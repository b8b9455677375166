/** The card rule engine: a declarative meaning for the fourteen combos, the classifier proved
    against it, and the order in which combos beat each other. */
module RuleEngine {
  import opened Cards

  datatype ComboType =
    | Invalid
    | Single
    | Pair
    | Triple
    | TripleOne
    | TriplePair
    | Straight
    | Bomb
    | Rocket
    | PairStraight
    | Plane
    | PlaneSingle
    | PlanePair
    | FourTwoSingles
    | FourTwoPairs

  datatype CardCombo = CardCombo(comboType: ComboType, mainRank: int, cardCount: nat, valid: bool)

  // ----- what a combo is

  /** Every rank of lo..hi occurs exactly k times and no other rank occurs; jokers and deuces
      never take part. */
  ghost predicate IsRun(cards: seq<int>, k: nat, lo: int, hi: int) {
    && LOWEST_RANK <= lo <= hi <= ACE_RANK
    && forall r :: LOWEST_RANK <= r <= HIGHEST_RANK ==>
                     CountOf(cards, r) == if lo <= r <= hi then k else 0
  }

  /** The ranks of lo..hi are the triples, and every other rank occurs `wing` times or not at all. */
  ghost predicate IsWingedRun(cards: seq<int>, wing: nat, lo: int, hi: int) {
    && LOWEST_RANK <= lo <= hi <= ACE_RANK
    && forall r :: LOWEST_RANK <= r <= HIGHEST_RANK ==>
                     if lo <= r <= hi then CountOf(cards, r) == 3
                     else CountOf(cards, r) == wing || CountOf(cards, r) == 0
  }

  /** Four cards of rank m; every other rank occurs `wing` times or not at all. */
  ghost predicate IsFourWith(cards: seq<int>, wing: nat, m: int) {
    forall r :: LOWEST_RANK <= r <= HIGHEST_RANK && r != m ==>
                  CountOf(cards, r) == wing || CountOf(cards, r) == 0
  }

  /** The shape of each combo, by how often each rank occurs; m is the rank it is compared by. */
  ghost predicate HasShape(cards: seq<int>, shape: ComboType, m: int) {
    var n := |cards|;
    && AllCards(cards)
    && match shape
       case Invalid => false
       case Single => n == 1 && CountOf(cards, m) == 1
       case Pair => n == 2 && CountOf(cards, m) == 2
       case Triple => n == 3 && CountOf(cards, m) == 3
       case TripleOne => n == 4 && CountOf(cards, m) == 3
       case TriplePair => n == 5 && CountOf(cards, m) == 3 && exists p :: CountOf(cards, p) == 2
       case Bomb => n == 4 && CountOf(cards, m) == 4
       case Rocket => n == 2 && CountOf(cards, 16) == 1 && CountOf(cards, 17) == 1 && m == 17
       case Straight => n >= 5 && IsRun(cards, 1, m - n + 1, m)
       case PairStraight => n >= 6 && n % 2 == 0 && IsRun(cards, 2, m - n / 2 + 1, m)
       case Plane => n >= 6 && n % 3 == 0 && IsRun(cards, 3, m - n / 3 + 1, m)
       case PlaneSingle => n >= 8 && n % 4 == 0 && IsWingedRun(cards, 1, m - n / 4 + 1, m)
       case PlanePair => n >= 10 && n % 5 == 0 && IsWingedRun(cards, 2, m - n / 5 + 1, m)
       case FourTwoSingles => n == 6 && CountOf(cards, m) == 4 && IsFourWith(cards, 1, m)
       case FourTwoPairs => n == 8 && CountOf(cards, m) == 4 && IsFourWith(cards, 2, m)
  }

  ghost predicate HasSomeShape(cards: seq<int>) {
    exists shape, m :: HasShape(cards, shape, m)
  }

  /** The combo a card list is: the one whose shape it has, or the invalid combo. */
  ghost function Classify(cards: seq<int>): CardCombo {
    if HasSomeShape(cards) then
      var shape, m :| HasShape(cards, shape, m);
      CardCombo(shape, m, |cards|, true)
    else
      CardCombo(Invalid, 0, |cards|, false)
  }

  // ----- no card list has two shapes

  /** Some rank of the list occurs exactly k times. */
  ghost predicate HasCount(cards: seq<int>, k: nat) {
    exists r :: LOWEST_RANK <= r <= HIGHEST_RANK && CountOf(cards, r) == k
  }

  lemma CountOfOutside(cards: seq<int>, r: int)
    requires AllCards(cards) && CountOf(cards, r) > 0
    ensures LOWEST_RANK <= r <= HIGHEST_RANK
  {
    var i := CountInSome(cards, r, r + 1);
  }

  /** If the ranks outside lo..hi are absent, the list is exactly its run. */
  lemma RunLength(cards: seq<int>, k: nat, lo: int, hi: int)
    requires AllCards(cards) && IsRun(cards, k, lo, hi)
    ensures |cards| == k * (hi - lo + 1)
  {
    CountInAll(cards, LOWEST_RANK, 18);
    CountInSplits(cards, LOWEST_RANK, lo, 18);
    CountInSplits(cards, lo, hi + 1, 18);
    CountInRun(cards, LOWEST_RANK, lo, 0);
    CountInRun(cards, lo, hi + 1, k);
    CountInRun(cards, hi + 1, 18, 0);
  }

  /** A plane with wings really has wings. */
  lemma WingsExist(cards: seq<int>, wing: nat, lo: int, hi: int)
    requires AllCards(cards) && 0 < wing && wing != 3
    requires IsWingedRun(cards, wing, lo, hi) && |cards| == (3 + wing) * (hi - lo + 1)
    ensures HasCount(cards, wing)
  {
    if !HasCount(cards, wing) {
      assert IsRun(cards, 3, lo, hi);
      RunLength(cards, 3, lo, hi);
    }
  }

  /** Which multiplicities occur in a combo of five or more cards. */
  ghost function Multiplicities(shape: ComboType): set<nat> {
    match shape
    case TriplePair => {2, 3}
    case Straight => {1}
    case PairStraight => {2}
    case Plane => {3}
    case PlaneSingle => {1, 3}
    case PlanePair => {2, 3}
    case FourTwoSingles => {1, 4}
    case FourTwoPairs => {2, 4}
    case _ => {}
  }

  lemma ShapeMultiplicities(cards: seq<int>, shape: ComboType, m: int)
    requires HasShape(cards, shape, m) && |cards| >= 5
    ensures forall k: nat :: k in Multiplicities(shape) ==> HasCount(cards, k)
    ensures forall k: nat :: 0 < k && HasCount(cards, k) ==> k in Multiplicities(shape)
  {
    if shape == PlaneSingle {
      WingsExist(cards, 1, m - |cards| / 4 + 1, m);
      assert CountOf(cards, m) == 3;
    } else if shape == PlanePair {
      WingsExist(cards, 2, m - |cards| / 5 + 1, m);
      assert CountOf(cards, m) == 3;
    } else if shape == TriplePair {
      TriplePairCounts(cards, m);
    } else if shape == FourTwoSingles {
      FourHasWings(cards, 1, m);
    } else if shape == FourTwoPairs {
      FourHasWings(cards, 2, m);
    } else {
      assert CountOf(cards, m) in Multiplicities(shape);
    }
  }

  lemma TriplePairCounts(cards: seq<int>, m: int)
    requires HasShape(cards, TriplePair, m)
    ensures HasCount(cards, 2) && HasCount(cards, 3)
    ensures forall k: nat :: 0 < k && HasCount(cards, k) ==> k in {2, 3}
    ensures forall r :: CountOf(cards, r) == 3 ==> r == m
  {
    var p :| CountOf(cards, p) == 2;
    CountOfOutside(cards, m);
    CountOfOutside(cards, p);
    TriplePairRanks(cards, m, p);
  }

  lemma TriplePairRanks(cards: seq<int>, m: int, p: int)
    requires AllCards(cards) && |cards| == 5 && CountOf(cards, m) == 3 && CountOf(cards, p) == 2
    ensures forall r :: r != m && r != p ==> CountOf(cards, r) == 0
  {
    forall r | r != m && r != p
      ensures CountOf(cards, r) == 0
    {
      var lo := if r < m && r < p then r else if m < p then m else p;
      var hi := if r > m && r > p then r else if m > p then m else p;
      var mid := if lo < r < hi then r else if lo < m < hi then m else p;
      ThreeRanks(cards, lo, mid, hi);
    }
  }

  lemma FourHasWings(cards: seq<int>, wing: nat, m: int)
    requires AllCards(cards) && 0 < wing && wing != 4 && |cards| > 4
    requires CountOf(cards, m) == 4 && IsFourWith(cards, wing, m)
    ensures HasCount(cards, wing) && HasCount(cards, 4)
  {
    CountOfOutside(cards, m);
    if !HasCount(cards, wing) {
      CountInAll(cards, LOWEST_RANK, 18);
      CountInSplits(cards, LOWEST_RANK, m, 18);
      CountInSplits(cards, m, m + 1, 18);
      CountInRun(cards, LOWEST_RANK, m, 0);
      CountInRun(cards, m + 1, 18, 0);
      assert false;
    }
  }

  /** A rank that makes up most of the list is the only such rank. */
  lemma MajorityRank(cards: seq<int>, m1: int, m2: int, k: nat)
    requires AllCards(cards) && 2 * k > |cards|
    requires CountOf(cards, m1) == k == CountOf(cards, m2)
    ensures m1 == m2
  {
    if m1 != m2 {
      TwoRanks(cards, m1, m2);
    }
  }

  /** One shape has one main rank. */
  lemma ShapeHasOneRank(cards: seq<int>, shape: ComboType, m1: int, m2: int)
    requires HasShape(cards, shape, m1) && HasShape(cards, shape, m2)
    ensures m1 == m2
  {
    match shape
    case Single => MajorityRank(cards, m1, m2, 1);
    case Pair => MajorityRank(cards, m1, m2, 2);
    case Triple => MajorityRank(cards, m1, m2, 3);
    case TripleOne => MajorityRank(cards, m1, m2, 3);
    case TriplePair => MajorityRank(cards, m1, m2, 3);
    case Bomb => MajorityRank(cards, m1, m2, 4);
    case Rocket =>
    case FourTwoSingles => MajorityRank(cards, m1, m2, 4);
    case FourTwoPairs =>
      CountOfOutside(cards, m1);
      CountOfOutside(cards, m2);
    case _ =>  // the run fixes where it ends
  }

  /** The fourteen shapes exclude one another, so the order in which a classifier tries them
      cannot matter. */
  lemma ShapesAreDisjoint(cards: seq<int>, shape1: ComboType, m1: int, shape2: ComboType, m2: int)
    requires HasShape(cards, shape1, m1) && HasShape(cards, shape2, m2)
    ensures shape1 == shape2 && m1 == m2
  {
    if shape1 != shape2 {
      if |cards| < 5 {
        SmallShapesAreDisjoint(cards, shape1, m1, shape2, m2);
      } else {
        ShapeMultiplicities(cards, shape1, m1);
        ShapeMultiplicities(cards, shape2, m2);
        MultiplicitiesTellShapes(shape1, shape2, |cards|);
      }
    }
    ShapeHasOneRank(cards, shape1, m1, m2);
  }

  predicate FiveOrMore(shape: ComboType, n: nat) {
    match shape
    case TriplePair => n == 5
    case Straight | PairStraight | Plane | PlaneSingle | FourTwoSingles | FourTwoPairs => true
    case PlanePair => n >= 10
    case _ => false
  }

  /** Shapes of five or more cards differ in their multiplicities, or in their length. */
  lemma MultiplicitiesTellShapes(shape1: ComboType, shape2: ComboType, n: nat)
    requires FiveOrMore(shape1, n) && FiveOrMore(shape2, n)
    requires forall k: nat :: 0 < k ==> (k in Multiplicities(shape1) <==> k in Multiplicities(shape2))
    ensures shape1 == shape2
  {
    assert 1 in Multiplicities(shape1) <==> 1 in Multiplicities(shape2);
    assert 2 in Multiplicities(shape1) <==> 2 in Multiplicities(shape2);
    assert 3 in Multiplicities(shape1) <==> 3 in Multiplicities(shape2);
    assert 4 in Multiplicities(shape1) <==> 4 in Multiplicities(shape2);
  }

  lemma SmallShapesAreDisjoint(cards: seq<int>, shape1: ComboType, m1: int, shape2: ComboType, m2: int)
    requires HasShape(cards, shape1, m1) && HasShape(cards, shape2, m2) && |cards| < 5
    ensures shape1 == shape2
  {
    if shape1 != shape2 {
      if shape1 == Rocket {
        ThreeWithJokers(cards, m2);
      } else if shape2 == Rocket {
        ThreeWithJokers(cards, m1);
      } else {
        if m1 != m2 { TwoRanks(cards, m1, m2); }
      }
    }
  }

  lemma ThreeWithJokers(cards: seq<int>, m: int)
    requires HasShape(cards, Rocket, 17)
    ensures CountOf(cards, m) <= 1
  {
    if m != 16 { TwoRanks(cards, 16, m); }
  }

  lemma Classified(cards: seq<int>, shape: ComboType, m: int)
    requires HasShape(cards, shape, m)
    ensures Classify(cards) == CardCombo(shape, m, |cards|, true)
  {
    assert HasSomeShape(cards);
    var combo := Classify(cards);
    ShapesAreDisjoint(cards, combo.comboType, combo.mainRank, shape, m);
  }

  /** The combo of a card list is the same for every order of its cards. */
  lemma ClassifyIgnoresOrder(a: seq<int>, b: seq<int>)
    requires multiset(a) == multiset(b)
    ensures Classify(a) == Classify(b)
  {
    forall shape, m
      ensures HasShape(a, shape, m) <==> HasShape(b, shape, m)
    {
      if HasShape(a, shape, m) { SameShapes(a, b, shape, m); }
      if HasShape(b, shape, m) { SameShapes(b, a, shape, m); }
    }
    if HasSomeShape(a) {
      var shape, m :| HasShape(a, shape, m);
      Classified(a, shape, m);
      Classified(b, shape, m);
    }
    assert |a| == |multiset(a)| == |multiset(b)| == |b|;
  }

  lemma SameShapes(a: seq<int>, b: seq<int>, shape: ComboType, m: int)
    requires multiset(a) == multiset(b)
    requires HasShape(a, shape, m)
    ensures HasShape(b, shape, m)
  {
    assert |a| == |multiset(a)| == |multiset(b)| == |b|;
    forall i | 0 <= i < |b|
      ensures CardRank(b[i]) != 0
    {
      assert b[i] in multiset(b);
      assert b[i] in a;
    }
    forall r
      ensures CountOf(a, r) == CountOf(b, r)
    {
      CountInPermutation(a, b, r, r + 1);
    }
  }

  // ----- the classifier

  /** The rank counts `cnt` of a card list, as the classifier keeps them. */
  ghost predicate CountsMatch(cnt: map<int, int>, cards: seq<int>) {
    forall r :: if r in cnt then cnt[r] == CountOf(cards, r) > 0 else CountOf(cards, r) == 0
  }

  ghost predicate Ascending(s: seq<int>) {
    forall i, j :: 0 <= i < j < |s| ==> s[i] < s[j]
  }

  /** True iff the ranks are non-empty and each is one above its predecessor. */
  method IsConsecutive(ranks: seq<int>) returns (consecutive: bool)
    ensures consecutive <==> ranks != [] && forall i :: 0 < i < |ranks| ==> ranks[i] == ranks[0] + i
  {
    if ranks == [] {
      return false;
    }
    for i := 1 to |ranks|
      invariant forall j :: 0 < j < i ==> ranks[j] == ranks[0] + j
    {
      if ranks[i] != ranks[i - 1] + 1 {
        return false;
      }
    }
    return true;
  }

  predicate IsValidSequenceRanks(ranks: seq<int>) {
    ranks != [] && ranks[0] >= 3 && ranks[|ranks| - 1] <= 14
  }

  /** The ranks that occur exactly `count` times, in ascending order. */
  method CollectRanksByCount(cnt: map<int, int>, count: int, ghost cards: seq<int>) returns (out: seq<int>)
    requires AllCards(cards) && CountsMatch(cnt, cards)
    ensures Ascending(out)
    ensures forall r :: r in out <==> r in cnt && cnt[r] == count
  {
    out := [];
    CountedRanksInRange(cnt, cards);
    for rank := LOWEST_RANK to HIGHEST_RANK + 1
      invariant Ascending(out) && forall i :: 0 <= i < |out| ==> out[i] < rank
      invariant forall r :: r in out <==> r in cnt && cnt[r] == count && r < rank
    {
      if rank in cnt && cnt[rank] == count {
        out := out + [rank];
      }
    }
  }

  lemma CountedRanksInRange(cnt: map<int, int>, cards: seq<int>)
    requires AllCards(cards) && CountsMatch(cnt, cards)
    ensures forall r :: r in cnt ==> LOWEST_RANK <= r <= HIGHEST_RANK
  {
    forall r | r in cnt
      ensures LOWEST_RANK <= r <= HIGHEST_RANK
    {
      CountOfOutside(cards, r);
    }
  }

  /** An ascending list of all the numbers of an interval is that interval. */
  lemma {:induction false} AscendingInterval(s: seq<int>, lo: int, hi: int)
    requires Ascending(s) && lo <= hi + 1
    requires forall x :: x in s <==> lo <= x <= hi
    ensures |s| == hi - lo + 1
    ensures forall i :: 0 <= i < |s| ==> s[i] == lo + i
    decreases hi - lo + 1
  {
    if s == [] {
      assert lo !in s;
    } else {
      var last := |s| - 1;
      assert s[last] in s;
      assert hi in s;
      var h :| 0 <= h < |s| && s[h] == hi;
      assert s[last] == hi;
      forall x
        ensures x in s[..last] <==> lo <= x <= hi - 1
      {
        if lo <= x <= hi - 1 {
          assert x in s;
        }
        if x in s[..last] {
          var i :| 0 <= i < last && s[i] == x;
          assert s[i] < s[last] && x in s;
        }
      }
      AscendingInterval(s[..last], lo, hi - 1);
    }
  }

  /** Consecutive ranks are exactly the ranks between the first and the last. */
  lemma ConsecutiveMembers(s: seq<int>)
    requires s != [] && forall i :: 0 < i < |s| ==> s[i] == s[0] + i
    ensures s[|s| - 1] == s[0] + |s| - 1
    ensures forall x :: x in s <==> s[0] <= x <= s[|s| - 1]
  {
    forall x | s[0] <= x <= s[|s| - 1]
      ensures x in s
    {
      assert x == s[x - s[0]];
    }
  }

  ghost predicate Groups(cards: seq<int>, rank: int, k: nat, size: nat) {
    CountIn(cards, LOWEST_RANK, rank) == k * size
  }

  lemma NextGroup(cards: seq<int>, rank: int, k: nat, size: nat)
    requires LOWEST_RANK <= rank && Groups(cards, rank, k, size)
    ensures CountOf(cards, rank) == 0 ==> Groups(cards, rank + 1, k, size)
    ensures CountOf(cards, rank) == k ==> Groups(cards, rank + 1, k, size + 1)
  {
    NextRank(cards, rank);
    assert k * (size + 1) == k * size + k;
  }

  lemma NextRank(cards: seq<int>, rank: int)
    requires LOWEST_RANK <= rank
    ensures CountIn(cards, LOWEST_RANK, rank + 1) == CountIn(cards, LOWEST_RANK, rank) + CountOf(cards, rank)
  {
    CountInSplits(cards, LOWEST_RANK, rank, rank + 1);
  }

  /** True iff every rank that occurs at all occurs k times; then `group` lists those ranks. */
  method GroupAll(cnt: map<int, int>, k: nat, ghost cards: seq<int>) returns (all: bool, group: seq<int>)
    requires AllCards(cards) && CountsMatch(cnt, cards)
    ensures all <==> forall r :: r in cnt ==> cnt[r] == k
    ensures all ==> Ascending(group) && (forall r :: r in group <==> r in cnt) && |cards| == k * |group|
  {
    all, group := true, [];
    CountedRanksInRange(cnt, cards);
    CountInNone(cards, LOWEST_RANK, LOWEST_RANK);
    for rank := LOWEST_RANK to HIGHEST_RANK + 1
      invariant all && Ascending(group) && forall i :: 0 <= i < |group| ==> group[i] < rank
      invariant forall r :: r in group <==> r in cnt && r < rank
      invariant forall r :: r in cnt && r < rank ==> cnt[r] == k
      invariant Groups(cards, rank, k, |group|)
    {
      NextGroup(cards, rank, k, |group|);
      if rank in cnt {
        if cnt[rank] != k {
          all := false;
          return;
        }
        group := group + [rank];
      }
    }
    CountInAll(cards, LOWEST_RANK, HIGHEST_RANK + 1);
  }

  /** A straight of k-fold ranks: the test shared by pair straights and planes. */
  method TryRun(cnt: map<int, int>, k: nat, ghost cards: seq<int>, ghost shape: ComboType)
    returns (found: bool, m: int)
    requires AllCards(cards) && CountsMatch(cnt, cards) && |cards| >= 6
    requires (k == 2 && shape == PairStraight) || (k == 3 && shape == Plane)
    requires |cards| % k == 0
    ensures found ==> HasShape(cards, shape, m)
    ensures !found ==> forall m' :: !HasShape(cards, shape, m')
  {
    var all, group := GroupAll(cnt, k, cards);
    var consecutive := IsConsecutive(group);
    found := all && consecutive && IsValidSequenceRanks(group);
    m := 0;
    ghost var width := if k == 2 then |cards| / 2 else |cards| / 3;
    if found {
      m := group[|group| - 1];
      RunFound(cnt, cards, k, group);
      assert |group| == width;
    } else {
      forall m' | HasShape(cards, shape, m')
        ensures false
      {
        assert IsRun(cards, k, m' - width + 1, m');
        RunIsFound(cnt, cards, k, group, m' - width + 1, m');
      }
    }
  }

  lemma RunFound(cnt: map<int, int>, cards: seq<int>, k: nat, group: seq<int>)
    requires CountsMatch(cnt, cards) && (forall r :: r in cnt ==> cnt[r] == k) && forall r :: r in group <==> r in cnt
    requires IsValidSequenceRanks(group) && forall i :: 0 < i < |group| ==> group[i] == group[0] + i
    ensures group[0] == group[|group| - 1] - |group| + 1
    ensures IsRun(cards, k, group[0], group[|group| - 1])
  {
    ConsecutiveMembers(group);
  }

  lemma RunIsFound(cnt: map<int, int>, cards: seq<int>, k: nat, group: seq<int>, lo: int, hi: int)
    requires AllCards(cards) && CountsMatch(cnt, cards) && 0 < k && IsRun(cards, k, lo, hi)
    ensures forall r :: r in cnt ==> cnt[r] == k
    ensures Ascending(group) && (forall r :: r in group <==> r in cnt) ==>
              IsValidSequenceRanks(group) && forall i :: 0 < i < |group| ==> group[i] == group[0] + i
  {
    RunGroup(cnt, cards, k, lo, hi);
    if Ascending(group) && forall r :: r in group <==> r in cnt {
      AscendingInterval(group, lo, hi);
    }
  }

  lemma RunGroup(cnt: map<int, int>, cards: seq<int>, k: nat, lo: int, hi: int)
    requires AllCards(cards) && CountsMatch(cnt, cards) && 0 < k && IsRun(cards, k, lo, hi)
    ensures forall r :: r in cnt <==> lo <= r <= hi
    ensures forall r :: r in cnt ==> cnt[r] == k
  {
    CountedRanksInRange(cnt, cards);
  }

  ghost predicate Wings(cards: seq<int>, rank: int, wing: nat, triples: nat, wings: nat) {
    CountIn(cards, LOWEST_RANK, rank) == 3 * triples + wing * wings
  }

  lemma NextWing(cards: seq<int>, rank: int, wing: nat, triples: nat, wings: nat)
    requires LOWEST_RANK <= rank && Wings(cards, rank, wing, triples, wings)
    ensures CountOf(cards, rank) == 0 ==> Wings(cards, rank + 1, wing, triples, wings)
    ensures CountOf(cards, rank) == 3 ==> Wings(cards, rank + 1, wing, triples + 1, wings)
    ensures CountOf(cards, rank) == wing ==> Wings(cards, rank + 1, wing, triples, wings + 1)
  {
    NextRank(cards, rank);
    assert wing * (wings + 1) == wing * wings + wing;
  }

  /** Counts the ranks that are not triples, provided each of them occurs `wing` times. */
  method CountWings(cnt: map<int, int>, wing: nat, triples: seq<int>, ghost cards: seq<int>)
    returns (validWings: bool, wings: nat)
    requires AllCards(cards) && CountsMatch(cnt, cards)
    requires 1 <= wing <= 2
    requires Ascending(triples) && forall r :: r in triples <==> r in cnt && cnt[r] == 3
    ensures validWings <==> forall r :: r in cnt ==> cnt[r] == 3 || cnt[r] == wing
    ensures validWings ==> |cards| == 3 * |triples| + wing * wings
  {
    validWings, wings := true, 0;
    ghost var seen: nat := 0;
    CountedRanksInRange(cnt, cards);
    CountInNone(cards, LOWEST_RANK, LOWEST_RANK);
    assert forall i :: 0 <= i < |triples| ==> triples[i] in triples;
    for rank := LOWEST_RANK to HIGHEST_RANK + 1
      invariant validWings && seen <= |triples|
      invariant forall i :: 0 <= i < |triples| ==> (i < seen <==> triples[i] < rank)
      invariant seen < |triples| ==> triples[seen] <= HIGHEST_RANK
      invariant forall r :: r in cnt && r < rank ==> cnt[r] == 3 || cnt[r] == wing
      invariant Wings(cards, rank, wing, seen, wings)
    {
      NextWing(cards, rank, wing, seen, wings);
      if rank in cnt {
        if cnt[rank] == 3 {
          assert rank in triples;
          assert triples[seen] == rank;
          seen := seen + 1;
        } else {
          if cnt[rank] != wing {
            validWings := false;
            return;
          }
          assert rank !in triples;
          wings := wings + 1;
        }
      } else {
        assert rank !in triples;
      }
    }
    CountInAll(cards, LOWEST_RANK, HIGHEST_RANK + 1);
  }

  /** A plane in which each triple carries a wing: one card, or a pair. */
  method TryWingedPlane(cnt: map<int, int>, wing: nat, n: int, ghost cards: seq<int>, ghost shape: ComboType)
    returns (found: bool, m: int)
    requires AllCards(cards) && CountsMatch(cnt, cards) && n == |cards|
    requires (wing == 1 && shape == PlaneSingle) || (wing == 2 && shape == PlanePair)
    requires n >= 2 * (3 + wing) && n % (3 + wing) == 0
    ensures found ==> HasShape(cards, shape, m)
    ensures !found ==> forall m' :: !HasShape(cards, shape, m')
  {
    var planeWidth := n / (3 + wing);
    var triples := CollectRanksByCount(cnt, 3, cards);
    var consecutive := IsConsecutive(triples);
    var validWings, wings := CountWings(cnt, wing, triples, cards);
    found := |triples| == planeWidth && consecutive && IsValidSequenceRanks(triples) &&
             validWings && wings == planeWidth;
    m := 0;
    if found {
      m := triples[|triples| - 1];
      WingedFound(cnt, cards, wing, triples);
    } else {
      forall m' | HasShape(cards, shape, m')
        ensures false
      {
        WingedIsFound(cnt, cards, wing, triples, shape, m', wings);
      }
    }
  }

  /** In a plane with wings, the triples are a run, and the wings that are counted are as many. */
  lemma WingedIsFound(cnt: map<int, int>, cards: seq<int>, wing: nat, triples: seq<int>, shape: ComboType, m: int,
                      wings: int)
    requires AllCards(cards) && CountsMatch(cnt, cards) && HasShape(cards, shape, m)
    requires (wing == 1 && shape == PlaneSingle) || (wing == 2 && shape == PlanePair)
    requires Ascending(triples) && forall r :: r in triples <==> r in cnt && cnt[r] == 3
    ensures |triples| == |cards| / (3 + wing) && forall i :: 0 < i < |triples| ==> triples[i] == triples[0] + i
    ensures IsValidSequenceRanks(triples)
    ensures forall r :: r in cnt ==> cnt[r] == 3 || cnt[r] == wing
    ensures |cards| == 3 * |triples| + wing * wings ==> wings == |triples|
  {
    var width := if wing == 1 then |cards| / 4 else |cards| / 5;
    WingedGroup(cnt, cards, wing, triples, m - width + 1, m);
  }

  lemma WingedFound(cnt: map<int, int>, cards: seq<int>, wing: nat, triples: seq<int>)
    requires AllCards(cards) && CountsMatch(cnt, cards)
    requires forall r :: r in triples <==> r in cnt && cnt[r] == 3
    requires forall r :: r in cnt ==> cnt[r] == 3 || cnt[r] == wing
    requires IsValidSequenceRanks(triples) && forall i :: 0 < i < |triples| ==> triples[i] == triples[0] + i
    ensures triples[0] == triples[|triples| - 1] - |triples| + 1
    ensures IsWingedRun(cards, wing, triples[0], triples[|triples| - 1])
  {
    ConsecutiveMembers(triples);
  }

  lemma WingedGroup(cnt: map<int, int>, cards: seq<int>, wing: nat, triples: seq<int>, lo: int, hi: int)
    requires AllCards(cards) && CountsMatch(cnt, cards)
    requires 1 <= wing <= 2 && IsWingedRun(cards, wing, lo, hi)
    requires Ascending(triples) && forall r :: r in triples <==> r in cnt && cnt[r] == 3
    ensures |triples| == hi - lo + 1 && forall i :: 0 < i < |triples| ==> triples[i] == triples[0] + i
    ensures IsValidSequenceRanks(triples)
    ensures forall r :: r in cnt ==> cnt[r] == 3 || cnt[r] == wing
  {
    CountedRanksInRange(cnt, cards);
    AscendingInterval(triples, lo, hi);
  }

  /** Below `bound`, exactly `fours` ranks are fours and `wings` ranks are wings. */
  ghost predicate FoursBelow(cards: seq<int>, wing: nat, bound: int, fours: nat, wings: nat, fourRank: int) {
    && CountIn(cards, LOWEST_RANK, bound) == 4 * fours + wing * wings
    && (forall r :: LOWEST_RANK <= r < bound ==> CountOf(cards, r) in {0, wing, 4})
    && (fours == 0 <==> fourRank == 0)
    && (fours == 0 ==> forall r :: LOWEST_RANK <= r < bound ==> CountOf(cards, r) != 4)
    && (fours == 1 ==> forall r :: LOWEST_RANK <= r < bound ==> (CountOf(cards, r) == 4 <==> r == fourRank))
    && (fours >= 1 ==> LOWEST_RANK <= fourRank < bound)
    && (fours >= 2 ==> exists r :: CountOf(cards, r) == 4 && CountOf(cards, fourRank) == 4 && r != fourRank)
  }

  lemma NextFour(cards: seq<int>, wing: nat, rank: int, fours: nat, wings: nat, fourRank: int)
    requires LOWEST_RANK <= rank && 0 < wing < 4 && FoursBelow(cards, wing, rank, fours, wings, fourRank)
    ensures CountOf(cards, rank) == 0 ==> FoursBelow(cards, wing, rank + 1, fours, wings, fourRank)
    ensures CountOf(cards, rank) == 4 ==> FoursBelow(cards, wing, rank + 1, fours + 1, wings, rank)
    ensures CountOf(cards, rank) == wing ==> FoursBelow(cards, wing, rank + 1, fours, wings + 1, fourRank)
  {
    NextRank(cards, rank);
    assert wing * (wings + 1) == wing * wings + wing;
    if fours >= 1 && CountOf(cards, rank) == 4 {
      assert CountOf(cards, fourRank) == 4 && fourRank != rank;
    }
  }

  lemma FourWithTwoShape(cards: seq<int>, wing: nat, shape: ComboType, fours: nat, wings: nat, fourRank: int)
    requires AllCards(cards) && |cards| == 4 + 2 * wing
    requires (wing == 1 && shape == FourTwoSingles) || (wing == 2 && shape == FourTwoPairs)
    requires FoursBelow(cards, wing, HIGHEST_RANK + 1, fours, wings, fourRank)
    ensures fourRank > 0 && wings == 2 ==> HasShape(cards, shape, fourRank)
    ensures !(fourRank > 0 && wings == 2) ==> forall m :: !HasShape(cards, shape, m)
  {
    CountInAll(cards, LOWEST_RANK, HIGHEST_RANK + 1);
    if !(fourRank > 0 && wings == 2) {
      forall m | HasShape(cards, shape, m)
        ensures false
      {
        CountOfOutside(cards, m);
        if fours >= 2 {
          var r :| CountOf(cards, r) == 4 && CountOf(cards, fourRank) == 4 && r != fourRank;
          CountOfOutside(cards, r);
        }
      }
    }
  }

  /** Four of a kind with two wings: two single cards, or two pairs. */
  method TryFourWithTwo(cnt: map<int, int>, wing: nat, ghost cards: seq<int>, ghost shape: ComboType)
    returns (found: bool, fourRank: int)
    requires AllCards(cards) && CountsMatch(cnt, cards) && |cards| == 4 + 2 * wing
    requires (wing == 1 && shape == FourTwoSingles) || (wing == 2 && shape == FourTwoPairs)
    ensures found ==> HasShape(cards, shape, fourRank)
    ensures !found ==> forall m :: !HasShape(cards, shape, m)
  {
    fourRank := 0;
    var wings := 0;
    ghost var fours := 0;
    CountInNone(cards, LOWEST_RANK, LOWEST_RANK);
    for rank := LOWEST_RANK to HIGHEST_RANK + 1
      invariant 0 <= fours && 0 <= wings && FoursBelow(cards, wing, rank, fours, wings, fourRank)
    {
      NextFour(cards, wing, rank, fours, wings, fourRank);
      if rank in cnt {
        if cnt[rank] == 4 {
          fourRank := rank;
          fours := fours + 1;
        } else if cnt[rank] == wing {
          wings := wings + 1;
        } else {
          return false, 0;
        }
      }
    }
    FourWithTwoShape(cards, wing, shape, fours, wings, fourRank);
    found := fourRank > 0 && wings == 2;
  }

  /** The ranks of a card list in ascending order, as the classifier sorts them. */
  ghost predicate RanksMatch(ranks: seq<int>, cards: seq<int>) {
    && |ranks| == |cards|
    && OrderedBy(RankKey, ranks)
    && forall r :: multiset(ranks)[r] == CountOf(cards, r)
  }

  /** A count map with one key: all cards have one rank, the first of the sorted ranks. */
  lemma OneRank(cnt: map<int, int>, ranks: seq<int>, cards: seq<int>)
    requires AllCards(cards) && CountsMatch(cnt, cards) && RanksMatch(ranks, cards) && cards != []
    ensures |cnt| == 1 <==> CountOf(cards, ranks[0]) == |cards|
    ensures forall r :: CountOf(cards, r) == |cards| ==> r == ranks[0]
  {
    var first := ranks[0];
    assert first in multiset(ranks);
    assert first in cnt;
    forall r | CountOf(cards, r) == |cards|
      ensures r == first
    {
      if r != first { TwoRanks(cards, r, first); }
    }
    if CountOf(cards, first) == |cards| {
      forall q
        ensures q in cnt.Keys <==> q in {first}
      {
        if q != first { TwoRanks(cards, q, first); }
      }
      assert cnt.Keys == {first};
    } else if |cnt.Keys| == 1 {
      OnlyKey(cnt.Keys, first);
      OnlyRank(cards, first);
    }
  }

  lemma OnlyKey(keys: set<int>, r: int)
    requires r in keys && |keys| == 1
    ensures keys == {r}
  {
    assert |keys - {r}| == 0;
  }

  lemma OnlyRank(cards: seq<int>, r: int)
    requires AllCards(cards)
    requires forall q :: q != r ==> CountOf(cards, q) == 0
    ensures CountOf(cards, r) == |cards|
  {
    var lo := if r < LOWEST_RANK then r else LOWEST_RANK;
    var hi := if r > HIGHEST_RANK then r else HIGHEST_RANK;
    CountInAll(cards, lo, hi + 1);
    CountInSplits(cards, lo, r, hi + 1);
    CountInSplits(cards, r, r + 1, hi + 1);
    CountInRun(cards, lo, r, 0);
    CountInRun(cards, r + 1, hi + 1, 0);
  }

  /** Rank counts and sorted ranks of a card list; not all cards, if some id is not a card. */
  method CountRanks(cards: seq<int>) returns (all: bool, cnt: map<int, int>, ranks: seq<int>)
    ensures all <==> AllCards(cards)
    ensures all ==> CountsMatch(cnt, cards) && RanksMatch(ranks, cards)
  {
    cnt, ranks := map[], [];
    for i := 0 to |cards|
      invariant AllCards(cards[..i])
      invariant CountsMatch(cnt, cards[..i])
      invariant |ranks| == i && forall r :: multiset(ranks)[r] == CountOf(cards[..i], r)
    {
      var r := CardRank(cards[i]);
      if r == 0 {
        return false, map[], [];
      }
      assert cards[..i + 1][..i] == cards[..i];
      cnt := cnt[r := (if r in cnt then cnt[r] else 0) + 1];
      ranks := ranks + [r];
    }
    assert cards[..|cards|] == cards;
    ranks := SortBy(RankKey, ranks);
    all := true;
  }

  function InvalidCombo(n: nat): CardCombo { CardCombo(Invalid, 0, n, false) }

  /** What a partial classification of a list promises. */
  ghost predicate Settles(combo: CardCombo, cards: seq<int>) {
    && combo.cardCount == |cards|
    && (combo.valid ==> HasShape(cards, combo.comboType, combo.mainRank))
    && (!combo.valid ==> combo == InvalidCombo(|cards|) && forall shape, m :: !HasShape(cards, shape, m))
  }

  lemma SettledIsClassified(combo: CardCombo, cards: seq<int>)
    requires Settles(combo, cards)
    ensures combo == Classify(cards)
  {
    if combo.valid {
      Classified(cards, combo.comboType, combo.mainRank);
    }
  }

  /** The classifier on two cards. */
  method AnalyzeTwo(cards: seq<int>, ranks: seq<int>) returns (combo: CardCombo)
    requires AllCards(cards) && RanksMatch(ranks, cards) && |cards| == 2
    ensures Settles(combo, cards)
  {
    assert ranks == [ranks[0], ranks[1]];
    assert forall r :: CountOf(cards, r) == multiset{ranks[0], ranks[1]}[r];
    if ranks[0] == 16 && ranks[1] == 17 {
      return CardCombo(Rocket, 17, 2, true);
    }
    if ranks[0] == ranks[1] {
      return CardCombo(Pair, ranks[0], 2, true);
    }
    return InvalidCombo(2);
  }

  /** The classifier on four cards. */
  method AnalyzeFour(cards: seq<int>, cnt: map<int, int>, ranks: seq<int>) returns (combo: CardCombo)
    requires AllCards(cards) && CountsMatch(cnt, cards) && RanksMatch(ranks, cards) && |cards| == 4
    ensures Settles(combo, cards)
  {
    OneRank(cnt, ranks, cards);
    if |cnt| == 1 {
      return CardCombo(Bomb, ranks[0], 4, true);
    }
    CountedRanksInRange(cnt, cards);
    for rank := LOWEST_RANK to HIGHEST_RANK + 1
      invariant forall r :: r in cnt && r < rank ==> cnt[r] != 3
    {
      if rank in cnt && cnt[rank] == 3 {
        return CardCombo(TripleOne, rank, 4, true);
      }
    }
    return InvalidCombo(4);
  }

  /** The full house of five cards. */
  method TryTriplePair(cnt: map<int, int>, ghost cards: seq<int>) returns (found: bool, tripleRank: int)
    requires AllCards(cards) && CountsMatch(cnt, cards) && |cards| == 5
    ensures found ==> HasShape(cards, TriplePair, tripleRank)
    ensures !found ==> forall m :: !HasShape(cards, TriplePair, m)
  {
    found, tripleRank := false, 0;
    var pairRank := 0;
    CountedRanksInRange(cnt, cards);
    if |cnt| == 2 {
      for rank := LOWEST_RANK to HIGHEST_RANK + 1
        invariant if tripleRank == 0 then forall r :: r in cnt && r < rank ==> cnt[r] != 3
                  else tripleRank in cnt && cnt[tripleRank] == 3
        invariant if pairRank == 0 then forall r :: r in cnt && r < rank ==> cnt[r] != 2
                  else pairRank in cnt && cnt[pairRank] == 2
        invariant tripleRank >= 0 && pairRank >= 0
      {
        if rank in cnt && cnt[rank] == 3 { tripleRank := rank; }
        if rank in cnt && cnt[rank] == 2 { pairRank := rank; }
      }
      found := tripleRank > 0 && pairRank > 0;
    }
    if !found {
      forall m | HasShape(cards, TriplePair, m)
        ensures false
      {
        TriplePairKeys(cnt, cards, m);
      }
    }
  }

  lemma TriplePairKeys(cnt: map<int, int>, cards: seq<int>, m: int)
    requires CountsMatch(cnt, cards) && HasShape(cards, TriplePair, m)
    ensures |cnt| == 2
    ensures exists p :: p in cnt && cnt[p] == 2 && m in cnt && cnt[m] == 3
  {
    var p :| CountOf(cards, p) == 2;
    TriplePairCounts(cards, m);
    TriplePairRanks(cards, m, p);
    forall r
      ensures r in cnt.Keys <==> r in {m, p}
    {
      assert CountOf(cards, r) == 0 <==> r != m && r != p;
    }
    assert cnt.Keys == {m, p};
    assert p in cnt;
  }

  /** A straight of five or more single ranks. */
  method TryStraight(cnt: map<int, int>, ranks: seq<int>, ghost cards: seq<int>) returns (found: bool, m: int)
    requires AllCards(cards) && CountsMatch(cnt, cards) && RanksMatch(ranks, cards) && |cards| >= 5
    ensures found ==> HasShape(cards, Straight, m)
    ensures !found ==> forall m' :: !HasShape(cards, Straight, m')
  {
    m := 0;
    var single := AllSingle(cnt, cards);
    var consecutive := IsConsecutive(ranks);
    found := single && consecutive && IsValidSequenceRanks(ranks);
    if found {
      m := ranks[|ranks| - 1];
      SingleRanks(cnt, ranks, cards);
      StraightFound(cnt, ranks, cards);
    } else {
      forall m' | HasShape(cards, Straight, m')
        ensures false
      {
        StraightIsFound(cnt, ranks, cards, m');
      }
    }
  }

  /** Whether no rank occurs twice. */
  method AllSingle(cnt: map<int, int>, ghost cards: seq<int>) returns (single: bool)
    requires AllCards(cards) && CountsMatch(cnt, cards)
    ensures single <==> forall r :: r in cnt ==> cnt[r] == 1
  {
    CountedRanksInRange(cnt, cards);
    for rank := LOWEST_RANK to HIGHEST_RANK + 1
      invariant forall r :: r in cnt && r < rank ==> cnt[r] == 1
    {
      if rank in cnt && cnt[rank] != 1 {
        return false;
      }
    }
    return true;
  }

  lemma StraightIsFound(cnt: map<int, int>, ranks: seq<int>, cards: seq<int>, m: int)
    requires CountsMatch(cnt, cards) && RanksMatch(ranks, cards) && HasShape(cards, Straight, m)
    ensures forall r :: r in cnt ==> cnt[r] == 1
    ensures IsValidSequenceRanks(ranks) && forall i :: 0 < i < |ranks| ==> ranks[i] == ranks[0] + i
  {
    var lo := m - |cards| + 1;
    RunGroup(cnt, cards, 1, lo, m);
    SingleRanks(cnt, ranks, cards);
    AscendingInterval(ranks, lo, m);
  }

  lemma StraightFound(cnt: map<int, int>, ranks: seq<int>, cards: seq<int>)
    requires AllCards(cards) && CountsMatch(cnt, cards) && |ranks| == |cards| >= 5
    requires (forall r :: r in cnt ==> cnt[r] == 1) && forall r :: r in ranks <==> r in cnt
    requires IsValidSequenceRanks(ranks) && forall i :: 0 < i < |ranks| ==> ranks[i] == ranks[0] + i
    ensures HasShape(cards, Straight, ranks[|ranks| - 1])
  {
    ConsecutiveMembers(ranks);
    assert IsRun(cards, 1, ranks[0], ranks[|ranks| - 1]);
  }

  lemma SingleRanks(cnt: map<int, int>, ranks: seq<int>, cards: seq<int>)
    requires CountsMatch(cnt, cards) && RanksMatch(ranks, cards)
    requires forall r :: r in cnt ==> cnt[r] == 1
    ensures Ascending(ranks)
    ensures forall r :: r in ranks <==> r in cnt
  {
    forall r
      ensures r in ranks <==> r in cnt
    {
      assert r in ranks <==> r in multiset(ranks);
    }
    forall i, j | 0 <= i < j < |ranks|
      ensures ranks[i] < ranks[j]
    {
      assert RankKey(ranks[i]) <= RankKey(ranks[j]);
      if ranks[i] == ranks[j] { Repeated(ranks, i, j); }
    }
  }

  lemma Repeated(s: seq<int>, i: nat, j: nat)
    requires i < j < |s| && s[i] == s[j]
    ensures multiset(s)[s[i]] >= 2
  {
    assert s == s[..j] + s[j..];
    assert s[i] in s[..j] && s[j] in s[j..];
  }

  /** The classifier on five or more cards. */
  method AnalyzeMany(cards: seq<int>, cnt: map<int, int>, ranks: seq<int>) returns (combo: CardCombo)
    requires AllCards(cards) && CountsMatch(cnt, cards) && RanksMatch(ranks, cards) && |cards| >= 5
    ensures Settles(combo, cards)
  {
    var n := |cards|;
    var found, m;
    if n == 5 {
      found, m := TryTriplePair(cnt, cards);
      if found { return CardCombo(TriplePair, m, n, true); }
    }
    found, m := TryStraight(cnt, ranks, cards);
    if found { return CardCombo(Straight, m, n, true); }
    if n >= 6 && n % 2 == 0 {
      found, m := TryRun(cnt, 2, cards, PairStraight);
      if found { return CardCombo(PairStraight, m, n, true); }
    }
    if n >= 6 && n % 3 == 0 {
      found, m := TryRun(cnt, 3, cards, Plane);
      if found { return CardCombo(Plane, m, n, true); }
    }
    if n >= 8 && n % 4 == 0 {
      found, m := TryWingedPlane(cnt, 1, n, cards, PlaneSingle);
      if found { return CardCombo(PlaneSingle, m, n, true); }
    }
    if n >= 10 && n % 5 == 0 {
      found, m := TryWingedPlane(cnt, 2, n, cards, PlanePair);
      if found { return CardCombo(PlanePair, m, n, true); }
    }
    if n == 6 {
      found, m := TryFourWithTwo(cnt, 1, cards, FourTwoSingles);
      if found { return CardCombo(FourTwoSingles, m, n, true); }
    }
    if n == 8 {
      found, m := TryFourWithTwo(cnt, 2, cards, FourTwoPairs);
      if found { return CardCombo(FourTwoPairs, m, n, true); }
    }
    return InvalidCombo(n);
  }

  /** Classifies a list of card ids: sound and complete for the fourteen shapes. */
  method Analyze(cards: seq<int>) returns (combo: CardCombo)
    ensures combo == Classify(cards)
    ensures combo.valid <==> HasSomeShape(cards)
  {
    var n := |cards|;
    var all, cnt, ranks := CountRanks(cards);
    if n == 0 || !all {
      return InvalidCombo(n);
    }
    OneRank(cnt, ranks, cards);
    if n == 1 {
      combo := CardCombo(Single, ranks[0], n, true);
    } else if n == 2 {
      combo := AnalyzeTwo(cards, ranks);
    } else if n == 3 {
      combo := if |cnt| == 1 then CardCombo(Triple, ranks[0], n, true) else InvalidCombo(n);
    } else if n == 4 {
      combo := AnalyzeFour(cards, cnt, ranks);
    } else {
      combo := AnalyzeMany(cards, cnt, ranks);
    }
    SettledIsClassified(combo, cards);
  }

  // ----- which combo beats which

  predicate IsSequence(shape: ComboType) {
    shape in {Straight, PairStraight, Plane, PlaneSingle, PlanePair}
  }

  predicate CanBeat(challenger: CardCombo, previous: CardCombo) {
    if !challenger.valid then false
    else if !previous.valid then true
    else if challenger.comboType == Rocket then previous.comboType != Rocket
    else if previous.comboType == Rocket then false
    else if challenger.comboType == Bomb && previous.comboType != Bomb then true
    else if previous.comboType == Bomb && challenger.comboType != Bomb then false
    else if challenger.comboType != previous.comboType then false
    else if IsSequence(challenger.comboType) && challenger.cardCount != previous.cardCount then false
    else challenger.mainRank > previous.mainRank
  }

  /** Beating is a strict partial order, on valid and invalid combos alike. */
  lemma CanBeatIsStrictOrder(a: CardCombo, b: CardCombo, c: CardCombo)
    ensures !CanBeat(a, a)
    ensures CanBeat(a, b) ==> !CanBeat(b, a)
    ensures CanBeat(a, b) && CanBeat(b, c) ==> CanBeat(a, c)
  {
  }

  /** Ordinary combos by rank (1..15), above them bombs by rank (16..28), above them the rocket. */
  function Strength(combo: CardCombo): int {
    if combo.comboType == Rocket then 29
    else if combo.comboType == Bomb then combo.mainRank + 13
    else combo.mainRank - 2
  }

  /** Valid, and no stronger or weaker than a combo of one deck can be. */
  ghost predicate IsDeckCombo(combo: CardCombo) {
    && combo.valid
    && 1 <= Strength(combo) <= 29
    && (combo.comboType == Bomb ==> 16 <= Strength(combo) <= 28)
    && (combo.comboType != Bomb && combo.comboType != Rocket ==> Strength(combo) <= 15)
  }

  /** Valid combos made of cards of one deck have a strength from 1 to 29. */
  lemma DeckCombo(cards: seq<int>)
    requires Classify(cards).valid
    requires multiset(cards)[SMALL_JOKER] <= 1 && multiset(cards)[BIG_JOKER] <= 1
    ensures IsDeckCombo(Classify(cards))
  {
    var combo := Classify(cards);
    JokerCount(cards, SMALL_JOKER);
    JokerCount(cards, BIG_JOKER);
    assert CountOf(cards, combo.mainRank) > 0;
    CountOfOutside(cards, combo.mainRank);
  }

  lemma BeatingIsStronger(challenger: CardCombo, previous: CardCombo)
    requires IsDeckCombo(challenger) && IsDeckCombo(previous) && CanBeat(challenger, previous)
    ensures Strength(challenger) > Strength(previous)
  {
  }

  ghost predicate IsRisingChain(chain: seq<CardCombo>) {
    && (forall i :: 0 <= i < |chain| ==> IsDeckCombo(chain[i]))
    && (forall i :: 0 < i < |chain| ==> CanBeat(chain[i], chain[i - 1]))
  }

  /** A chain of combos of one deck in which each beats its predecessor: every combo beats all
      earlier ones, and there are at most 29 of them. */
  lemma {:induction false} RisingChainIsShort(chain: seq<CardCombo>)
    requires IsRisingChain(chain)
    ensures forall i, j :: 0 <= i < j < |chain| ==> CanBeat(chain[j], chain[i])
    ensures |chain| <= 29
    ensures chain != [] ==> |chain| <= Strength(chain[|chain| - 1])
  {
    if |chain| > 1 {
      var last := |chain| - 1;
      RisingChainIsShort(chain[..last]);
      assert chain[..last][last - 1] == chain[last - 1];
      BeatingIsStronger(chain[last], chain[last - 1]);
      forall i | 0 <= i < last
        ensures CanBeat(chain[last], chain[i])
      {
        if i < last - 1 {
          assert CanBeat(chain[..last][last - 1], chain[..last][i]);
          CanBeatIsStrictOrder(chain[last], chain[last - 1], chain[i]);
        }
      }
    }
  }

  /** One card of the deck is always a valid single. */
  lemma SingleCard(card: int)
    requires 0 <= card < DECK_SIZE
    ensures Classify([card]) == CardCombo(Single, CardRank(card), 1, true)
  {
    assert [card][..0] == [];
    Classified([card], Single, CardRank(card));
  }
}
