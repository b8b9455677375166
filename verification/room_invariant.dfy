/** What every step of a room keeps: the auction follows its history, the 54 cards are conserved,
    the table follows the turn order, and every accepted action uses up some of a bounded budget. */
module RoomInvariant {
  import opened Cards
  import opened Basics
  import opened RuleEngine
  import opened Rooms

  /** A game together with what has happened in it: the scores called and the robs so far, the combos
      of the current trick, all cards played, and the number of accepted actions. */
  datatype History = History(
    game: Game,
    calls: seq<int>,
    robs: seq<int>,
    trick: seq<CardCombo>,
    played: seq<int>,
    accepted: nat)

  // ----- seats

  lemma NextSeat(players: seq<int>, k: nat)
    requires Seated(players)
    ensures NextOperator(players, Seat(players, k)) == Seat(players, k + 1)
    ensures IndexOf(players, Seat(players, k)) == k % 3
  {
  }

  lemma SeatOf(players: seq<int>, player: int)
    requires Seated(players) && player in players
    ensures Seat(players, IndexOf(players, player)) == player
    ensures NextOperator(players, player) == Seat(players, IndexOf(players, player) + 1)
  {
    NextSeat(players, IndexOf(players, player));
  }

  // ----- the auction

  ghost function Highest(calls: seq<int>): int {
    if calls == [] then 0 else Max(Highest(calls[..|calls| - 1]), calls[|calls| - 1])
  }

  /** The first of the highest callers. */
  ghost predicate IsOpener(calls: seq<int>, seat: nat) {
    && seat < |calls|
    && (forall j :: 0 <= j < |calls| ==> calls[j] <= calls[seat])
    && (forall j :: 0 <= j < seat ==> calls[j] < calls[seat])
  }

  ghost function Opener(calls: seq<int>): (seat: nat)
    requires calls != []
    ensures IsOpener(calls, seat)
  {
    if |calls| == 1 then 0
    else
      var last := |calls| - 1;
      var before := Opener(calls[..last]);
      if calls[last] > calls[before] then last else before
  }

  lemma {:induction false} HighestIsOpeners(calls: seq<int>)
    requires calls != [] && forall i :: 0 <= i < |calls| ==> calls[i] >= 0
    ensures Highest(calls) == calls[Opener(calls)]
  {
    if |calls| > 1 {
      HighestIsOpeners(calls[..|calls| - 1]);
    }
  }

  /** Calling ends after three calls, or early with a call of three. */
  ghost predicate CallsDone(calls: seq<int>) {
    |calls| == 3 || (calls != [] && calls[|calls| - 1] == 3)
  }

  ghost predicate LegalCalls(calls: seq<int>) {
    && |calls| <= 3
    && (forall i :: 0 <= i < |calls| ==> 0 <= calls[i] <= 3)
    && (forall i :: 0 <= i < |calls| - 1 ==> calls[i] < 3)
  }

  ghost predicate LegalRobs(robs: seq<int>) {
    |robs| <= 3 && forall i :: 0 <= i < |robs| ==> robs[i] == 0 || robs[i] == 1
  }

  /** How many of the players robbed. */
  ghost function RobCount(robs: seq<int>): nat {
    if robs == [] then 0 else RobCount(robs[..|robs| - 1]) + if robs[|robs| - 1] == 1 then 1 else 0
  }

  ghost function Pow2(n: nat): nat { if n == 0 then 1 else 2 * Pow2(n - 1) }

  ghost function BaseCoin(calls: seq<int>, robs: seq<int>): int {
    Max(1, Highest(calls)) * Pow2(RobCount(robs))
  }

  /** The position among the robbers of the last one who robbed; None if nobody did. */
  ghost function LastRob(robs: seq<int>): (k: Option<nat>)
    ensures k.Some? ==> k.value < |robs| && robs[k.value] == 1 && forall j :: k.value < j < |robs| ==> robs[j] != 1
    ensures k.None? ==> forall j :: 0 <= j < |robs| ==> robs[j] != 1
  {
    if robs == [] then None
    else if robs[|robs| - 1] == 1 then Some(|robs| - 1)
    else LastRob(robs[..|robs| - 1])
  }

  /** The landlord of an auction: the last robber or else the opener, as a seat. */
  ghost function LandlordSeat(calls: seq<int>, robs: seq<int>): nat
    requires calls != []
  {
    match LastRob(robs)
    case Some(k) => Opener(calls) + k
    case None => Opener(calls)
  }

  /** The auction fields of a room, as a function of the calls and robs made in it. */
  ghost predicate Auctioned(players: seq<int>, calls: seq<int>, robs: seq<int>,
                            score: int, caller: int, baseCoin: int, landlord: int)
    requires Seated(players)
  {
    && LegalCalls(calls) && LegalRobs(robs)
    && if CallsDone(calls) then
         && caller == Seat(players, Opener(calls))
         && baseCoin == BaseCoin(calls, robs)
         && landlord == if LastRob(robs).None? && |robs| < 3 then NOBODY
                        else Seat(players, LandlordSeat(calls, robs))
       else
         && robs == []
         && score == Highest(calls)
         && caller == (if score == 0 then NOBODY else Seat(players, Opener(calls)))
         && baseCoin == 1
         && landlord == NOBODY
  }

  /** Whose turn it is in the auction, and how many of its phase have had theirs. */
  ghost predicate AuctionTurn(players: seq<int>, calls: seq<int>, robs: seq<int>,
                              state: RoomState, count: int, operator: int)
    requires Seated(players)
  {
    match state
    case WaitStart => calls == [] && count == 0 && operator == Seat(players, 0)
    case CallingScore => !CallsDone(calls) && count == |calls| && operator == Seat(players, |calls|)
    case RobbingLandlord =>
      CallsDone(calls) && count == |robs| < 3 && operator == Seat(players, Opener(calls) + |robs|)
    case Playing => CallsDone(calls) && |robs| == 3
    case _ => true
  }

  ghost predicate AuctionFollows(players: seq<int>, h: History)
    requires Seated(players)
  {
    var auction := h.game.auction;
    && Auctioned(players, h.calls, h.robs,
                 auction.highestScore, auction.highestCaller, auction.baseCoin, auction.landlord)
    && AuctionTurn(players, h.calls, h.robs, h.game.state, auction.actionCount, h.game.operator)
  }

  // ----- the cards

  ghost predicate HasHands(players: seq<int>, hands: map<int, seq<int>>) {
    Seated(players) && hands.Keys == {players[0], players[1], players[2]}
  }

  ghost function InHands(players: seq<int>, hands: map<int, seq<int>>): multiset<int>
    requires HasHands(players, hands)
  {
    multiset(hands[players[0]]) + multiset(hands[players[1]]) + multiset(hands[players[2]])
  }

  ghost function CardsLeft(players: seq<int>, hands: map<int, seq<int>>): nat
    requires HasHands(players, hands)
  {
    |hands[players[0]]| + |hands[players[1]]| + |hands[players[2]]|
  }

  /** The hands, the bottom cards until the landlord has them, and the cards played so far are the
      54 cards, each once; the hands stay sorted. */
  ghost predicate CardsConserved(players: seq<int>, hands: map<int, seq<int>>, bottomCards: seq<int>,
                                 bottomGiven: bool, played: seq<int>)
  {
    && HasHands(players, hands)
    && InHands(players, hands) + (if bottomGiven then multiset{} else multiset(bottomCards)) + multiset(played)
       == multiset(FullDeck())
    && |bottomCards| == 3
    && forall p :: p in hands ==> OrderedBy(CardKey, hands[p])
  }

  /** How many cards each player holds before the first card is played. */
  ghost predicate FairlyDealt(hands: map<int, seq<int>>, bottomGiven: bool, landlord: int, played: seq<int>) {
    && (!bottomGiven ==> played == [])
    && (played == [] ==> forall p :: p in hands ==> |hands[p]| == if bottomGiven && p == landlord then 20 else 17)
  }

  ghost predicate CardsFollow(players: seq<int>, h: History) {
    var holdings := h.game.holdings;
    if holdings.dealt then
      && CardsConserved(players, holdings.hands, holdings.bottomCards, |h.robs| == 3, h.played)
      && FairlyDealt(holdings.hands, |h.robs| == 3, h.game.auction.landlord, h.played)
      && h.game.state != WaitStart
    else
      && holdings.hands == map[] && h.played == [] && h.calls == []
      && h.game.state in {WaitStart, Settling, Finished}
  }

  // ----- the table

  /** The table is empty, or it holds a valid combo of a trick of rising combos, and as many players
      have passed since as the operator sits beyond the successor of who played it. */
  ghost predicate TableIs(players: seq<int>, operator: int, table: Table, trick: seq<CardCombo>)
    requires Seated(players)
  {
    if table.lastCards == [] then
      table.lastPlayer == NOBODY && table.passes == 0 && operator in players && trick == []
    else
      && table.lastPlayer in players
      && 0 <= table.passes <= 1
      && operator == Seat(players, IndexOf(players, table.lastPlayer) + table.passes + 1)
      && IsRisingChain(trick) && trick != []
      && trick[|trick| - 1] == Classify(table.lastCards)
  }

  ghost predicate TableFollows(players: seq<int>, h: History)
    requires Seated(players)
  {
    && (h.played == [] ==> h.trick == [])
    && (h.game.state == Playing ==>
          && HasHands(players, h.game.holdings.hands)
          && (forall p :: p in h.game.holdings.hands ==> h.game.holdings.hands[p] != [])
          && TableIs(players, h.game.operator, h.game.table, h.trick))
  }

  // ----- the budget

  const MAX_ACTIONS := 168

  /** How many more actions a game can accept at most. */
  ghost function Budget(players: seq<int>, game: Game): int {
    match game.state
    case WaitStart => MAX_ACTIONS
    case CallingScore => MAX_ACTIONS - game.auction.actionCount
    case RobbingLandlord => MAX_ACTIONS - 3 - game.auction.actionCount
    case Playing =>
      if !HasHands(players, game.holdings.hands) then 0
      else
        3 * CardsLeft(players, game.holdings.hands) + (if game.table.lastCards == [] then 0 else 2 - game.table.passes)
    case _ => 0
  }

  /** The invariant of a game and its history. */
  ghost predicate Valid(players: seq<int>, h: History) {
    && Seated(players)
    && AuctionFollows(players, h)
    && CardsFollow(players, h)
    && TableFollows(players, h)
    && h.accepted + Budget(players, h.game) <= MAX_ACTIONS
  }

  // ----- what is observed of an action

  /** The history after an action: nothing is recorded of a rejected one. */
  ghost function Record(h: History, request: ActionRequest, step: Step): History {
    if step.outcome.Rejected? then h.(game := step.game)
    else
      var after := h.(game := step.game, accepted := h.accepted + 1);
      match h.game.state
      case RobbingLandlord => after.(robs := h.robs + [request.rob])
      case Playing =>
        if request.actionType == PlayCards then
          after.(played := h.played + request.cards,
                 trick := (if h.game.table.lastCards == [] then [] else h.trick) + [Classify(request.cards)])
        else if step.game.table.lastCards == [] then after.(trick := [])
        else after
      case _ => after.(calls := h.calls + [request.callScore])
  }

  // ----- dealing

  /** After n cards, the three hands hold exactly the first n cards of the deck. */
  ghost predicate DealtFrom(h0: seq<int>, h1: seq<int>, h2: seq<int>, deck: seq<int>, n: nat)
    requires n <= |deck|
  {
    && multiset(h0) + multiset(h1) + multiset(h2) == multiset(deck[..n])
    && |h0| == (n + 2) / 3 && |h1| == (n + 1) / 3 && |h2| == n / 3
  }

  lemma NextDealt(h0: seq<int>, h1: seq<int>, h2: seq<int>, deck: seq<int>, n: nat)
    requires n < |deck| && DealtFrom(h0, h1, h2, deck, n)
    ensures n % 3 == 0 ==> DealtFrom(h0 + [deck[n]], h1, h2, deck, n + 1)
    ensures n % 3 == 1 ==> DealtFrom(h0, h1 + [deck[n]], h2, deck, n + 1)
    ensures n % 3 == 2 ==> DealtFrom(h0, h1, h2 + [deck[n]], deck, n + 1)
  {
    assert deck[..n + 1] == deck[..n] + [deck[n]];
  }

  ghost predicate HandsFrom(hands: map<int, seq<int>>, players: seq<int>, deck: seq<int>, n: nat) {
    && HasHands(players, hands)
    && n <= |deck|
    && DealtFrom(hands[players[0]], hands[players[1]], hands[players[2]], deck, n)
  }

  lemma NextHands(hands: map<int, seq<int>>, players: seq<int>, deck: seq<int>, n: nat)
    requires n < |deck| && HandsFrom(hands, players, deck, n)
    ensures HandsFrom(hands[Seat(players, n) := hands[Seat(players, n)] + [deck[n]]], players, deck, n + 1)
  {
    NextDealt(hands[players[0]], hands[players[1]], hands[players[2]], deck, n);
  }

  lemma HandsAfterOneMore(players: seq<int>, deck: seq<int>, n: nat)
    requires Seated(players) && n < |deck|
    ensures
      var before, player := HandsAfter(map[], players, deck, n), Seat(players, n);
      HandsAfter(map[], players, deck, n + 1) == before[player := before[player] + [deck[n]]]
  {
  }

  lemma {:induction false} DealtCards(players: seq<int>, deck: seq<int>, n: nat)
    requires Seated(players) && n <= |deck|
    ensures HandsFrom(HandsAfter(map[], players, deck, n), players, deck, n)
    decreases n
  {
    if n == 0 {
      assert multiset(deck[..0]) == multiset{};
    } else {
      var m := n - 1;
      DealtCards(players, deck, m);
      NextHands(HandsAfter(map[], players, deck, m), players, deck, m);
      HandsAfterOneMore(players, deck, m);
    }
  }

  lemma SortedHand(hands: map<int, seq<int>>, p: int)
    requires p in hands
    ensures var sorted := SortHand(hands, p)[p];
            multiset(sorted) == multiset(hands[p]) && |sorted| == |hands[p]| && OrderedBy(CardKey, sorted)
  {
    assert |multiset(SortHand(hands, p)[p])| == |multiset(hands[p])|;
  }

  lemma SortedHands(players: seq<int>, hands: map<int, seq<int>>)
    requires HasHands(players, hands)
    ensures
      var sorted := SortHand(SortHand(SortHand(hands, players[0]), players[1]), players[2]);
      && HasHands(players, sorted)
      && InHands(players, sorted) == InHands(players, hands)
      && forall p :: p in hands ==> |sorted[p]| == |hands[p]| && OrderedBy(CardKey, sorted[p])
  {
    SortedHand(hands, players[0]);
    SortedHand(SortHand(hands, players[0]), players[1]);
    SortedHand(SortHand(SortHand(hands, players[0]), players[1]), players[2]);
  }

  lemma DealtUnsorted(players: seq<int>, deck: seq<int>, toPlayers: nat)
    requires Seated(players) && IsDeck(deck) && toPlayers + BOTTOM_SIZE == |deck| == DECK_SIZE
    ensures
      var hands := HandsAfter(map[], players, deck, toPlayers);
      && HasHands(players, hands)
      && InHands(players, hands) + multiset(deck[toPlayers..]) == multiset(FullDeck())
      && forall p :: p in hands ==> |hands[p]| == 17
  {
    DealtCards(players, deck, toPlayers);
    assert deck == deck[..toPlayers] + deck[toPlayers..];
  }

  lemma DealtHands(holdings: Holdings, players: seq<int>, deck: seq<int>)
    requires Seated(players) && IsDeck(deck) && |deck| == DECK_SIZE && holdings.hands == map[] && !holdings.dealt
    ensures
      var dealt := Deal(holdings, players, deck);
      && dealt.dealt
      && CardsConserved(players, dealt.hands, dealt.bottomCards, false, [])
      && forall p :: p in dealt.hands ==> |dealt.hands[p]| == 17
  {
    var toPlayers := |deck| - BOTTOM_SIZE;
    DealtUnsorted(players, deck, toPlayers);
    SortedHands(players, HandsAfter(map[], players, deck, toPlayers));
  }

  lemma {:induction false} CardsGoRound(players: seq<int>, deck: seq<int>, n: nat, i: nat)
    requires Seated(players) && i < n <= |deck|
    ensures deck[i] in HandsAfter(map[], players, deck, n)[Seat(players, i)]
    decreases n
  {
    if i < n - 1 {
      CardsGoRound(players, deck, n - 1, i);
    }
  }

  lemma SortingKeepsCards(players: seq<int>, hands: map<int, seq<int>>, player: int, card: int)
    requires HasHands(players, hands) && player in hands && card in hands[player]
    ensures card in SortHand(SortHand(SortHand(hands, players[0]), players[1]), players[2])[player]
  {
    SortingKeepsCard(hands, players[0], player, card);
    SortingKeepsCard(SortHand(hands, players[0]), players[1], player, card);
    SortingKeepsCard(SortHand(SortHand(hands, players[0]), players[1]), players[2], player, card);
  }

  lemma SortingKeepsCard(hands: map<int, seq<int>>, p: int, player: int, card: int)
    requires p in hands && player in hands && card in hands[player]
    ensures card in SortHand(hands, p)[player]
  {
    assert card in multiset(hands[player]);
    assert multiset(SortHand(hands, p)[player]) == multiset(hands[player]);
    assert card in multiset(SortHand(hands, p)[player]);
  }

  /** The cards go round the table one by one, from the first seat on; the last three stay at the bottom. */
  lemma CardsAreDealtInTurn(holdings: Holdings, players: seq<int>, deck: seq<int>, i: nat)
    requires Seated(players) && |deck| == DECK_SIZE && holdings.hands == map[] && !holdings.dealt && i < DECK_SIZE
    ensures
      var dealt := Deal(holdings, players, deck);
      if i < 51 then Seat(players, i) in dealt.hands && deck[i] in dealt.hands[Seat(players, i)]
      else |dealt.bottomCards| == 3 && dealt.bottomCards[i - 51] == deck[i]
  {
    if i < 51 {
      CardsGoRound(players, deck, 51, i);
      DealtCards(players, deck, 51);
      SortingKeepsCards(players, HandsAfter(map[], players, deck, 51), Seat(players, i), deck[i]);
    }
  }

  lemma StartKeeps(players: seq<int>, h: History, deck: seq<int>)
    requires Valid(players, h) && h.game.state == WaitStart && IsDeck(deck) && |deck| == DECK_SIZE
    ensures Valid(players, h.(game := Started(h.game, players, deck)))
  {
    DealtHands(h.game.holdings, players, deck);
    StartFollows(players, h, Deal(h.game.holdings, players, deck));
  }

  lemma StartFollows(players: seq<int>, h: History, dealt: Holdings)
    requires Valid(players, h) && h.game.state == WaitStart && dealt.dealt
    requires CardsConserved(players, dealt.hands, dealt.bottomCards, false, [])
    requires forall p :: p in dealt.hands ==> |dealt.hands[p]| == 17
    ensures Valid(players, h.(game := h.game.(state := CallingScore, holdings := dealt)))
  {
  }

  // ----- calling

  lemma NextCall(calls: seq<int>, score: int)
    requires LegalCalls(calls) && !CallsDone(calls) && 0 <= score <= 3
    ensures LegalCalls(calls + [score])
    ensures Highest(calls + [score]) == Max(Highest(calls), score)
    ensures CallsDone(calls + [score]) <==> score == 3 || |calls| == 2
    ensures Opener(calls + [score]) ==
            if calls == [] || score > Highest(calls) then |calls| else Opener(calls)
    ensures Highest(calls) >= 0
  {
    assert (calls + [score])[..|calls|] == calls;
    if calls != [] {
      HighestIsOpeners(calls);
    }
  }

  lemma OpenerOfZeros(calls: seq<int>)
    requires LegalCalls(calls) && calls != [] && Highest(calls) == 0
    ensures Opener(calls) == 0
  {
    HighestIsOpeners(calls);
  }

  lemma CallAuctioned(players: seq<int>, calls: seq<int>, call: int, score: int, caller: int)
    requires Seated(players) && !CallsDone(calls) && 0 <= call <= 3
    requires Auctioned(players, calls, [], score, caller, 1, NOBODY)
    ensures
      var score' := if call > score then call else score;
      var caller' := if call > score then Seat(players, |calls|) else caller;
      if CallsDone(calls + [call]) then
        Auctioned(players, calls + [call], [], score',
                  if caller' == NOBODY then players[0] else caller', Max(1, score'), NOBODY)
      else
        Auctioned(players, calls + [call], [], score', caller', 1, NOBODY)
  {
    NextCall(calls, call);
    if Highest(calls + [call]) == 0 {
      OpenerOfZeros(calls + [call]);
    }
    assert BaseCoin(calls + [call], []) == Max(1, Highest(calls + [call]));
  }

  lemma CallTurn(players: seq<int>, h: History, request: ActionRequest)
    requires Seated(players) && AuctionFollows(players, h) && h.game.state == CallingScore
    requires ActCallScore(h.game, players, h.game.operator, request).outcome.Accepted?
    ensures
      var game := ActCallScore(h.game, players, h.game.operator, request).game;
      AuctionTurn(players, h.calls + [request.callScore], h.robs, game.state, game.auction.actionCount, game.operator)
  {
    NextCall(h.calls, request.callScore);
    NextSeat(players, |h.calls|);
    CallAuctioned(players, h.calls, request.callScore, h.game.auction.highestScore, h.game.auction.highestCaller);
  }

  lemma CallKeepsAuction(players: seq<int>, h: History, request: ActionRequest)
    requires Seated(players) && AuctionFollows(players, h) && h.game.state == CallingScore
    ensures AuctionFollows(players, Record(h, request, ActCallScore(h.game, players, h.game.operator, request)))
  {
    if ActCallScore(h.game, players, h.game.operator, request).outcome.Accepted? {
      CallTurn(players, h, request);
      NextCall(h.calls, request.callScore);
      CallAuctioned(players, h.calls, request.callScore, h.game.auction.highestScore, h.game.auction.highestCaller);
    }
  }

  lemma CallKeeps(players: seq<int>, h: History, request: ActionRequest)
    requires Valid(players, h) && h.game.state == CallingScore
    ensures Valid(players, Record(h, request, ActCallScore(h.game, players, h.game.operator, request)))
  {
    CallKeepsAuction(players, h, request);
    CallKeepsCards(players, h, request);
  }

  lemma CallKeepsCards(players: seq<int>, h: History, request: ActionRequest)
    requires Valid(players, h) && h.game.state == CallingScore
    ensures
      var h' := Record(h, request, ActCallScore(h.game, players, h.game.operator, request));
      && CardsFollow(players, h') && TableFollows(players, h')
      && h'.accepted + Budget(players, h'.game) <= MAX_ACTIONS
  {
  }

  // ----- robbing

  lemma Pow2Positive(n: nat)
    ensures Pow2(n) >= 1
  {
  }

  lemma NextRob(calls: seq<int>, robs: seq<int>, rob: int)
    requires LegalRobs(robs) && |robs| < 3 && (rob == 0 || rob == 1)
    ensures LegalRobs(robs + [rob])
    ensures LastRob(robs + [rob]) == if rob == 1 then Some(|robs|) else LastRob(robs)
    ensures BaseCoin(calls, robs + [rob]) == BaseCoin(calls, robs) * (if rob == 1 then 2 else 1)
    ensures BaseCoin(calls, robs) >= 1
  {
    assert (robs + [rob])[..|robs|] == robs;
    Doubled(Max(1, Highest(calls)), RobCount(robs));
  }

  lemma Doubled(stake: int, n: nat)
    requires stake >= 1
    ensures stake * Pow2(n + 1) == stake * Pow2(n) * 2 && stake * Pow2(n) >= 1
  {
    Pow2Positive(n);
  }

  lemma RobAuctioned(players: seq<int>, calls: seq<int>, robs: seq<int>, rob: int,
                     score: int, caller: int, baseCoin: int, landlord: int)
    requires Seated(players) && CallsDone(calls) && |robs| < 3 && (rob == 0 || rob == 1)
    requires Auctioned(players, calls, robs, score, caller, baseCoin, landlord)
    ensures
      var robber := if rob == 1 then Seat(players, Opener(calls) + |robs|) else landlord;
      var baseCoin' := if rob == 1 then Max(1, baseCoin) * 2 else baseCoin;
      var landlord' := if |robs| == 2 && robber == NOBODY then caller else robber;
      && Auctioned(players, calls, robs + [rob], score, caller, baseCoin', landlord')
      && (|robs| == 2 ==> landlord' in players)
  {
    NextRob(calls, robs, rob);
  }

  lemma PickedUp(hand: seq<int>, bottomCards: seq<int>)
    ensures
      var sorted := SortBy(CardKey, hand + bottomCards);
      multiset(sorted) == multiset(hand) + multiset(bottomCards) && |sorted| == |hand| + |bottomCards|
  {
    var sorted := SortBy(CardKey, hand + bottomCards);
    assert |sorted| == |multiset(sorted)| == |multiset(hand + bottomCards)|;
  }

  lemma OneHandMore(players: seq<int>, hands: map<int, seq<int>>, player: int, hand: seq<int>, cards: seq<int>)
    requires HasHands(players, hands) && player in hands
    requires multiset(hand) == multiset(hands[player]) + multiset(cards)
    ensures HasHands(players, hands[player := hand])
    ensures InHands(players, hands[player := hand]) == InHands(players, hands) + multiset(cards)
  {
    if player == players[0] {
    } else if player == players[1] {
    } else {
    }
  }

  lemma BottomConserved(players: seq<int>, hands: map<int, seq<int>>, bottomCards: seq<int>, landlord: int,
                        hand: seq<int>)
    requires CardsConserved(players, hands, bottomCards, false, []) && landlord in hands
    requires multiset(hand) == multiset(hands[landlord]) + multiset(bottomCards) && OrderedBy(CardKey, hand)
    ensures CardsConserved(players, hands[landlord := hand], bottomCards, true, [])
  {
    OneHandMore(players, hands, landlord, hand, bottomCards);
  }

  lemma BottomGiven(players: seq<int>, holdings: Holdings, landlord: int)
    requires CardsConserved(players, holdings.hands, holdings.bottomCards, false, [])
    requires FairlyDealt(holdings.hands, false, landlord, []) && landlord in holdings.hands
    ensures
      var given := GiveBottom(holdings, landlord);
      && CardsConserved(players, given.hands, given.bottomCards, true, [])
      && FairlyDealt(given.hands, true, landlord, [])
      && CardsLeft(players, given.hands) == DECK_SIZE
  {
    PickedUp(holdings.hands[landlord], holdings.bottomCards);
    BottomConserved(players, holdings.hands, holdings.bottomCards, landlord,
                    SortBy(CardKey, holdings.hands[landlord] + holdings.bottomCards));
  }

  ghost predicate RobStep(players: seq<int>, h: History, request: ActionRequest) {
    && Seated(players) && AuctionFollows(players, h) && h.game.state == RobbingLandlord
    && CardsFollow(players, h)
    && ActRobLandlord(h.game, players, h.game.operator, request).outcome.Accepted?
  }

  lemma RobTurn(players: seq<int>, h: History, request: ActionRequest)
    requires RobStep(players, h, request)
    ensures
      var game := ActRobLandlord(h.game, players, h.game.operator, request).game;
      AuctionTurn(players, h.calls, h.robs + [request.rob], game.state, game.auction.actionCount, game.operator)
  {
    NextSeat(players, Opener(h.calls) + |h.robs|);
  }

  /** What a player's answer to whether to rob makes of the auction. */
  ghost predicate RobbedTo(auction: Auction, auction': Auction, player: int, rob: int, last: bool) {
    var robber := if rob == 1 then player else auction.landlord;
    && auction'.highestScore == auction.highestScore
    && auction'.highestCaller == auction.highestCaller
    && auction'.baseCoin == (if rob == 1 then Max(1, auction.baseCoin) * 2 else auction.baseCoin)
    && auction'.landlord == if last && robber == NOBODY then auction.highestCaller else robber
  }

  lemma RobFields(players: seq<int>, h: History, request: ActionRequest)
    requires RobStep(players, h, request)
    ensures RobbedTo(h.game.auction, ActRobLandlord(h.game, players, h.game.operator, request).game.auction,
                     h.game.operator, request.rob, |h.robs| == 2)
  {
  }

  lemma RobSettles(players: seq<int>, h: History, request: ActionRequest)
    requires RobStep(players, h, request)
    ensures
      var auction := ActRobLandlord(h.game, players, h.game.operator, request).game.auction;
      Auctioned(players, h.calls, h.robs + [request.rob],
                auction.highestScore, auction.highestCaller, auction.baseCoin, auction.landlord)
  {
    RobIsOpen(players, h);
    RobFlag(h.game, players, request);
    RobFields(players, h, request);
    RobSettled(players, h.calls, h.robs, request.rob, h.game.operator, h.game.auction,
               ActRobLandlord(h.game, players, h.game.operator, request).game.auction);
  }

  lemma RobIsOpen(players: seq<int>, h: History)
    requires Seated(players) && AuctionFollows(players, h) && h.game.state == RobbingLandlord
    ensures CallsDone(h.calls) && |h.robs| < 3
    ensures h.game.operator == Seat(players, Opener(h.calls) + |h.robs|)
    ensures Auctioned(players, h.calls, h.robs, h.game.auction.highestScore, h.game.auction.highestCaller,
                      h.game.auction.baseCoin, h.game.auction.landlord)
  {
  }

  lemma RobFlag(game: Game, players: seq<int>, request: ActionRequest)
    requires ActRobLandlord(game, players, game.operator, request).outcome.Accepted?
    ensures request.rob == 0 || request.rob == 1
  {
  }

  lemma RobSettled(players: seq<int>, calls: seq<int>, robs: seq<int>, rob: int, player: int,
                   auction: Auction, auction': Auction)
    requires Seated(players) && CallsDone(calls) && |robs| < 3 && (rob == 0 || rob == 1)
    requires Auctioned(players, calls, robs,
                       auction.highestScore, auction.highestCaller, auction.baseCoin, auction.landlord)
    requires player == Seat(players, Opener(calls) + |robs|)
    requires RobbedTo(auction, auction', player, rob, |robs| == 2)
    ensures Auctioned(players, calls, robs + [rob],
                      auction'.highestScore, auction'.highestCaller, auction'.baseCoin, auction'.landlord)
  {
    RobAuctioned(players, calls, robs, rob,
                 auction.highestScore, auction.highestCaller, auction.baseCoin, auction.landlord);
  }

  lemma RobKeepsAuction(players: seq<int>, h: History, request: ActionRequest)
    requires RobStep(players, h, request)
    ensures AuctionFollows(players, Record(h, request, ActRobLandlord(h.game, players, h.game.operator, request)))
  {
    RobSettles(players, h, request);
    RobTurn(players, h, request);
  }

  lemma LastRobDeals(players: seq<int>, h: History, request: ActionRequest)
    requires RobStep(players, h, request) && |h.robs| == 2
    ensures
      var game' := ActRobLandlord(h.game, players, h.game.operator, request).game;
      && game'.state == Playing
      && game'.holdings == GiveBottom(h.game.holdings, game'.operator)
      && game'.auction.landlord == game'.operator
      && game'.table == Table(NOBODY, [], 0)
  {
  }

  lemma PlayBegins(players: seq<int>, h: History, h': History)
    requires Seated(players) && CardsFollow(players, h) && TableFollows(players, h)
    requires h.game.state == RobbingLandlord && |h.robs| == 2 && |h'.robs| == 3
    requires h'.played == h.played && h'.trick == h.trick
    requires h'.game.state == Playing && h'.game.table == Table(NOBODY, [], 0)
    requires h'.game.operator in players && h'.game.auction.landlord == h'.game.operator
    requires h'.game.holdings == GiveBottom(h.game.holdings, h'.game.operator)
    ensures CardsFollow(players, h') && TableFollows(players, h')
    ensures Budget(players, h'.game) == 3 * DECK_SIZE
  {
    BottomGiven(players, h.game.holdings, h'.game.operator);
    PlayBeginsWith(players, h');
  }

  lemma PlayBeginsWith(players: seq<int>, h: History)
    requires Seated(players) && |h.robs| == 3 && h.played == [] && h.trick == []
    requires h.game.state == Playing && h.game.table == Table(NOBODY, [], 0)
    requires h.game.operator in players && h.game.auction.landlord == h.game.operator && h.game.holdings.dealt
    requires CardsConserved(players, h.game.holdings.hands, h.game.holdings.bottomCards, true, [])
    requires FairlyDealt(h.game.holdings.hands, true, h.game.operator, [])
    requires CardsLeft(players, h.game.holdings.hands) == DECK_SIZE
    ensures CardsFollow(players, h) && TableFollows(players, h)
    ensures Budget(players, h.game) == 3 * DECK_SIZE
  {
  }

  lemma RobKeepsCards(players: seq<int>, h: History, request: ActionRequest)
    requires RobStep(players, h, request) && TableFollows(players, h)
    ensures
      var h' := Record(h, request, ActRobLandlord(h.game, players, h.game.operator, request));
      && CardsFollow(players, h')
      && TableFollows(players, h')
      && Budget(players, h'.game) < Budget(players, h.game)
  {
    if |h.robs| == 2 {
      LastRobDeals(players, h, request);
      PlayBegins(players, h, Record(h, request, ActRobLandlord(h.game, players, h.game.operator, request)));
    }
  }

  /** The late exit for a landlord without a hand is never taken: every seat has a hand by then. */
  lemma LandlordHasHand(players: seq<int>, h: History, request: ActionRequest)
    requires Valid(players, h) && h.game.state == RobbingLandlord
    ensures ActRobLandlord(h.game, players, h.game.operator, request).outcome != Rejected(LandlordHandNotFound)
  {
    var auction := h.game.auction;
    if request.rob == 0 || request.rob == 1 {
      RobAuctioned(players, h.calls, h.robs, request.rob,
                   auction.highestScore, auction.highestCaller, auction.baseCoin, auction.landlord);
    }
  }

  lemma RobKeeps(players: seq<int>, h: History, request: ActionRequest)
    requires Valid(players, h) && h.game.state == RobbingLandlord
    ensures Valid(players, Record(h, request, ActRobLandlord(h.game, players, h.game.operator, request)))
  {
    LandlordHasHand(players, h, request);
    if ActRobLandlord(h.game, players, h.game.operator, request).outcome.Accepted? {
      RobKeepsAuction(players, h, request);
      RobKeepsCards(players, h, request);
    }
  }

  // ----- playing cards

  lemma {:induction false} DistinctOnce(s: seq<int>, x: int)
    requires forall i, j :: 0 <= i < j < |s| ==> s[i] != s[j]
    ensures multiset(s)[x] <= 1
  {
    if s != [] {
      var last := |s| - 1;
      DistinctOnce(s[..last], x);
      assert s == s[..last] + [s[last]];
      if s[last] == x {
        assert x !in s[..last];
      }
    }
  }

  /** A part of the deck has each card at most once, and only cards. */
  lemma PartOfDeck(cards: seq<int>, x: int)
    requires multiset(cards) <= multiset(FullDeck())
    ensures multiset(cards)[x] <= 1
    ensures x in cards ==> 0 <= x < DECK_SIZE
  {
    DistinctOnce(FullDeck(), x);
    if x in cards {
      assert x in multiset(cards);
      assert x in FullDeck();
    }
  }

  lemma RemoveKeepsOrder(hand: seq<int>, card: int)
    requires OrderedBy(CardKey, hand) && card in hand
    ensures OrderedBy(CardKey, RemoveFirst(hand, card))
  {
  }

  lemma {:induction false} TakenOut(hand: seq<int>, cards: seq<int>)
    requires multiset(cards) <= multiset(hand)
    ensures multiset(TakeOut(hand, cards)) + multiset(cards) == multiset(hand)
    ensures |TakeOut(hand, cards)| + |cards| == |hand|
    ensures OrderedBy(CardKey, hand) ==> OrderedBy(CardKey, TakeOut(hand, cards))
    decreases |cards|
  {
    if cards != [] {
      var first, rest := cards[0], cards[1..];
      assert cards == [first] + rest;
      assert first in multiset(cards);
      RemoveFirstRemoves(hand, first);
      if OrderedBy(CardKey, hand) { RemoveKeepsOrder(hand, first); }
      TakenOut(RemoveFirst(hand, first), rest);
    }
  }

  lemma OneHandLess(players: seq<int>, hands: map<int, seq<int>>, player: int, hand: seq<int>, cards: seq<int>)
    requires HasHands(players, hands) && player in hands
    requires multiset(hand) + multiset(cards) == multiset(hands[player]) && |hand| + |cards| == |hands[player]|
    ensures InHands(players, hands[player := hand]) + multiset(cards) == InHands(players, hands)
    ensures CardsLeft(players, hands[player := hand]) + |cards| == CardsLeft(players, hands)
    ensures OrderedBy(CardKey, hand) && (forall p :: p in hands ==> OrderedBy(CardKey, hands[p])) ==>
              forall p :: p in hands ==> OrderedBy(CardKey, hands[player := hand][p])
  {
    if player == players[0] {
    } else if player == players[1] {
    } else {
    }
  }

  /** The holdings after a play. */
  lemma PlayedConserved(players: seq<int>, holdings: Holdings, played: seq<int>, player: int, cards: seq<int>)
    requires CardsConserved(players, holdings.hands, holdings.bottomCards, true, played)
    requires player in players && multiset(cards) <= multiset(holdings.hands[player])
    ensures
      var after := LayDown(holdings, player, cards);
      && CardsConserved(players, after.hands, after.bottomCards, true, played + cards)
      && CardsLeft(players, after.hands) + |cards| == CardsLeft(players, holdings.hands)
  {
    var after := LayDown(holdings, player, cards);
    LaidDown(players, holdings, player, cards);
    Regrouped(InHands(players, after.hands), multiset(cards), played, cards);
  }

  lemma LaidDown(players: seq<int>, holdings: Holdings, player: int, cards: seq<int>)
    requires HasHands(players, holdings.hands)
    requires forall p :: p in holdings.hands ==> OrderedBy(CardKey, holdings.hands[p])
    requires player in players && multiset(cards) <= multiset(holdings.hands[player])
    ensures
      var hands := LayDown(holdings, player, cards).hands;
      && HasHands(players, hands)
      && (forall p :: p in hands ==> OrderedBy(CardKey, hands[p]))
      && InHands(players, hands) + multiset(cards) == InHands(players, holdings.hands)
      && CardsLeft(players, hands) + |cards| == CardsLeft(players, holdings.hands)
  {
    TakenOut(holdings.hands[player], cards);
    OneHandLess(players, holdings.hands, player, TakeOut(holdings.hands[player], cards), cards);
  }

  lemma Regrouped(held: multiset<int>, laid: multiset<int>, played: seq<int>, cards: seq<int>)
    requires laid == multiset(cards)
    ensures held + multiset{} + multiset(played + cards) == (held + laid) + multiset{} + multiset(played)
  {
    assert multiset(played + cards) == multiset(played) + multiset(cards);
  }

  lemma HandInDeck(players: seq<int>, holdings: Holdings, played: seq<int>, player: int)
    requires CardsConserved(players, holdings.hands, holdings.bottomCards, true, played)
    requires player in players
    ensures multiset(holdings.hands[player]) <= multiset(FullDeck())
  {
    assert multiset(holdings.hands[player]) <= InHands(players, holdings.hands);
  }

  ghost predicate PlayStep(players: seq<int>, h: History, request: ActionRequest) {
    && Valid(players, h) && h.game.state == Playing
    && ActPlayCards(h.game, players, h.game.operator, request).outcome.Accepted?
  }

  /** The operator is never the one whose cards are on the table. */
  lemma LeaderIsNotAsked(players: seq<int>, h: History)
    requires Seated(players) && TableFollows(players, h) && h.game.state == Playing
    ensures h.game.operator in players
    ensures h.game.table.lastCards != [] ==> h.game.operator != h.game.table.lastPlayer
  {
    var table := h.game.table;
    if table.lastCards != [] {
      SeatOf(players, table.lastPlayer);
      OtherSeats(players, IndexOf(players, table.lastPlayer));
      assert table.passes == 0 || table.passes == 1;
    }
  }

  lemma OtherSeats(players: seq<int>, k: nat)
    requires Seated(players)
    ensures Seat(players, k + 1) != Seat(players, k) && Seat(players, k + 2) != Seat(players, k)
  {
  }

  /** What an accepted play is and does. */
  lemma PlayFields(players: seq<int>, h: History, request: ActionRequest)
    requires PlayStep(players, h, request)
    ensures
      var game, player, cards := h.game, h.game.operator, request.cards;
      var game' := ActPlayCards(game, players, player, request).game;
      && cards != [] && Classify(cards).valid
      && player in players && multiset(cards) <= multiset(game.holdings.hands[player])
      && (game.table.lastCards != [] ==> CanBeat(Classify(cards), Classify(game.table.lastCards)))
      && game'.holdings == LayDown(game.holdings, player, cards)
      && game'.table == Table(player, cards, 0)
      && game'.auction == game.auction
      && game'.state == (if game'.holdings.hands[player] == [] then Settling else Playing)
      && (game'.state == Playing ==> game'.operator == NextOperator(players, player))
  {
    LeaderIsNotAsked(players, h);
  }

  lemma ChainExtends(chain: seq<CardCombo>, combo: CardCombo)
    requires IsRisingChain(chain) && IsDeckCombo(combo)
    requires chain != [] ==> CanBeat(combo, chain[|chain| - 1])
    ensures IsRisingChain(chain + [combo])
  {
  }

  /** A play extends the trick by a stronger combo. */
  lemma PlayExtendsTrick(players: seq<int>, h: History, request: ActionRequest)
    requires PlayStep(players, h, request)
    ensures IsRisingChain((if h.game.table.lastCards == [] then [] else h.trick) + [Classify(request.cards)])
  {
    PlayFields(players, h, request);
    HandInDeck(players, h.game.holdings, h.played, h.game.operator);
    PartOfDeck(request.cards, SMALL_JOKER);
    PartOfDeck(request.cards, BIG_JOKER);
    DeckCombo(request.cards);
    ChainExtends(if h.game.table.lastCards == [] then [] else h.trick, Classify(request.cards));
  }

  lemma PlayKeepsCards(players: seq<int>, h: History, request: ActionRequest)
    requires PlayStep(players, h, request)
    ensures
      var game' := ActPlayCards(h.game, players, h.game.operator, request).game;
      && CardsFollow(players, h.(game := game', played := h.played + request.cards))
      && Budget(players, game') < Budget(players, h.game)
  {
    PlayFields(players, h, request);
    var game' := ActPlayCards(h.game, players, h.game.operator, request).game;
    PlayedConserved(players, h.game.holdings, h.played, h.game.operator, request.cards);
    PlayLowersBudget(players, h.game, game', |request.cards|);
  }

  lemma PlayLowersBudget(players: seq<int>, game: Game, game': Game, n: nat)
    requires Seated(players) && game.state == Playing && n > 0
    requires game.table.lastCards != [] ==> game.table.passes <= 1
    requires game'.state == Playing || game'.state == Settling
    requires game'.table.passes == 0
    requires HasHands(players, game.holdings.hands) && HasHands(players, game'.holdings.hands)
    requires CardsLeft(players, game'.holdings.hands) + n == CardsLeft(players, game.holdings.hands)
    ensures Budget(players, game') < Budget(players, game)
  {
  }

  lemma PlayKeepsTable(players: seq<int>, h: History, request: ActionRequest)
    requires PlayStep(players, h, request)
    ensures
      var game' := ActPlayCards(h.game, players, h.game.operator, request).game;
      var trick := (if h.game.table.lastCards == [] then [] else h.trick) + [Classify(request.cards)];
      game'.state == Playing ==> TableIs(players, game'.operator, game'.table, trick)
  {
    LeaderIsNotAsked(players, h);
    PlayFields(players, h, request);
    PlayExtendsTrick(players, h, request);
    SeatOf(players, h.game.operator);
  }

  lemma PlayKeeps(players: seq<int>, h: History, request: ActionRequest)
    requires Valid(players, h) && h.game.state == Playing && request.actionType == PlayCards
    ensures Valid(players, Record(h, request, ActPlayCards(h.game, players, h.game.operator, request)))
  {
    var step := ActPlayCards(h.game, players, h.game.operator, request);
    if step.outcome.Accepted? {
      PlayFields(players, h, request);
      PlayKeepsCards(players, h, request);
      PlayKeepsTable(players, h, request);
      HandsLeft(players, h, request);
    }
  }

  lemma HandsLeft(players: seq<int>, h: History, request: ActionRequest)
    requires PlayStep(players, h, request)
    ensures
      var game' := ActPlayCards(h.game, players, h.game.operator, request).game;
      game'.state == Playing ==> forall p :: p in game'.holdings.hands ==> game'.holdings.hands[p] != []
  {
    PlayFields(players, h, request);
  }

  // ----- passing

  ghost predicate PassStep(players: seq<int>, h: History, request: ActionRequest) {
    && Valid(players, h) && h.game.state == Playing
    && ActPass(h.game, players, h.game.operator, request).outcome.Accepted?
  }

  lemma PassKeepsTable(players: seq<int>, h: History, request: ActionRequest)
    requires PassStep(players, h, request)
    ensures
      var game' := ActPass(h.game, players, h.game.operator, request).game;
      && TableIs(players, game'.operator, game'.table, if game'.table.lastCards == [] then [] else h.trick)
      && Budget(players, game') < Budget(players, h.game)
  {
    NextSeat(players, IndexOf(players, h.game.table.lastPlayer) + h.game.table.passes + 1);
  }

  lemma PassKeeps(players: seq<int>, h: History, request: ActionRequest)
    requires Valid(players, h) && h.game.state == Playing && request.actionType == Pass
    ensures Valid(players, Record(h, request, ActPass(h.game, players, h.game.operator, request)))
  {
    var step := ActPass(h.game, players, h.game.operator, request);
    if step.outcome.Accepted? {
      PassKeepsTable(players, h, request);
    }
  }

  // ----- every action

  /** One action, whoever sends it and whatever it is, keeps the invariant. */
  lemma ActKeeps(players: seq<int>, h: History, deck: seq<int>, player: int, request: ActionRequest)
    requires Valid(players, h) && IsDeck(deck) && |deck| == DECK_SIZE
    ensures Valid(players, Record(h, request, Act(h.game, players, deck, player, request)))
  {
    if player in players && h.game.operator == player && h.game.state !in {Settling, Finished} {
      var h0 := h.(game := Started(h.game, players, deck));
      if h.game.state == WaitStart {
        StartKeeps(players, h, deck);
      }
      match h0.game.state
      case CallingScore => CallKeeps(players, h0, request);
      case RobbingLandlord => RobKeeps(players, h0, request);
      case _ =>
        if request.actionType == Pass {
          PassKeeps(players, h0, request);
        } else if request.actionType == PlayCards {
          PlayKeeps(players, h0, request);
        }
    }
  }
}
