/** A room of the game as a value: its fields, what clients see of it, and what each step makes of it. */
module Rooms {
  import opened Cards
  import opened Basics
  import opened RuleEngine

  datatype RoomState = WaitStart | CallingScore | RobbingLandlord | Playing | Settling | Finished

  /** A player id of 0 stands for nobody. */
  const NOBODY := 0

  /** The calling of scores and the robbing: how many players of the phase have acted, the highest
      call and its caller, and what the auction has settled so far. */
  datatype Auction = Auction(
    actionCount: int,
    highestScore: int,
    highestCaller: int,
    landlord: int,
    baseCoin: int)

  datatype Holdings = Holdings(dealt: bool, hands: map<int, seq<int>>, bottomCards: seq<int>)

  /** The last play on the table, by whom, and how many have passed on it. */
  datatype Table = Table(lastPlayer: int, lastCards: seq<int>, passes: int)

  /** The part of a room that the actions of its players move. */
  datatype Game = Game(state: RoomState, operator: int, auction: Auction, holdings: Holdings, table: Table)

  datatype Presence = Presence(online: map<int, bool>, trustee: map<int, bool>, offlineAtMs: map<int, int>)

  datatype Room = Room(
    roomId: int,
    mode: int,
    players: seq<int>,
    game: Game,
    presence: Presence,
    snapshotVersion: int,
    lastActionSeq: int)

  datatype RoomSnapshot = RoomSnapshot(
    roomId: int,
    mode: int,
    state: RoomState,
    players: seq<int>,
    currentOperator: int,
    landlord: int,
    baseCoin: int,
    snapshotVersion: int,
    lastActionSeq: int,
    onlineBitmap: string,
    trusteePlayers: seq<int>,
    nearestOfflineDeadlineMs: int)

  datatype PushSnapshot = PushSnapshot(
    base: RoomSnapshot,
    lastPlayPlayer: int,
    lastPlayCards: seq<int>,
    bottomCards: seq<int>,
    cardCounts: seq<(int, nat)>)

  datatype ActionType = CallScore | RobLandlord | PlayCards | Pass

  datatype ActionRequest = ActionRequest(actionType: ActionType, callScore: int, rob: int, cards: seq<int>)

  datatype ActionError =
    | RoomNotFound
    | PlayerNotInRoom
    | NotPlayerTurn
    | StateNotAllowed
    | NotAllowedInCallScore
    | InvalidCallScore
    | NotAllowedInRobLandlord
    | InvalidRobFlag
    | LandlordHandNotFound
    | PassWithCards
    | PassOnEmptyTable
    | LeaderCannotPass
    | NotAllowedInPlaying
    | NoCardsPlayed
    | HandNotFound
    | InvalidCombo
    | CannotBeatPrevious
    | CardsNotInHand
    | NotTrusteeTurn
    | TrusteeHandEmpty
    | NoTrusteeAction

  datatype Outcome = Accepted(gameOver: bool, winner: int, baseCoin: int) | Rejected(error: ActionError)

  /** What an action makes of a game, and the answer. */
  datatype Step = Step(game: Game, outcome: Outcome)

  function Max(a: int, b: int): int { if a < b then b else a }

  // ----- seats

  /** The position of the first occurrence of x from position i on, or the length if there is none. */
  function IndexFrom(s: seq<int>, x: int, i: nat): (k: nat)
    requires i <= |s|
    ensures i <= k <= |s|
    ensures k < |s| ==> s[k] == x
    ensures forall j :: i <= j < k ==> s[j] != x
    decreases |s| - i
  {
    if i == |s| || s[i] == x then i else IndexFrom(s, x, i + 1)
  }

  function IndexOf(s: seq<int>, x: int): (k: nat)
    ensures k <= |s| && (k < |s| <==> x in s)
    ensures k < |s| ==> s[k] == x
  {
    IndexFrom(s, x, 0)
  }

  function NextOperator(players: seq<int>, current: int): int {
    if players == [] then NOBODY
    else
      var seat := IndexOf(players, current);
      if seat + 1 < |players| then players[seat + 1] else players[0]
  }

  /** Three different players; 0 stands for nobody. */
  ghost predicate Seated(players: seq<int>) {
    && |players| == 3
    && 0 < players[0] && 0 < players[1] && 0 < players[2]
    && players[0] != players[1] && players[0] != players[2] && players[1] != players[2]
  }

  function Seat(players: seq<int>, k: nat): (player: int)
    requires |players| == 3
    ensures player in players
    ensures Seated(players) ==> player > 0
  {
    assert k % 3 == 0 || k % 3 == 1 || k % 3 == 2;
    players[k % 3]
  }

  lemma SeatIsOneOfThree(players: seq<int>, k: nat)
    requires |players| == 3
    ensures Seat(players, k) in {players[0], players[1], players[2]}
  {
    assert k % 3 == 0 || k % 3 == 1 || k % 3 == 2;
  }

  // ----- snapshots

  function IsOnline(presence: Presence, player: int): bool {
    if player in presence.online then presence.online[player] else true
  }

  function IsTrustee(presence: Presence, player: int): bool {
    if player in presence.trustee then presence.trustee[player] else false
  }

  const OFFLINE_LOSE_MS := 120000

  function OnlineBitmap(players: seq<int>, presence: Presence, n: nat): string
    requires n <= |players|
  {
    if n == 0 then []
    else OnlineBitmap(players, presence, n - 1) + [if IsOnline(presence, players[n - 1]) then '1' else '0']
  }

  function TrusteeList(players: seq<int>, presence: Presence, n: nat): seq<int>
    requires n <= |players|
  {
    if n == 0 then []
    else TrusteeList(players, presence, n - 1) + if IsTrustee(presence, players[n - 1]) then [players[n - 1]] else []
  }

  /** When one of the first n players will first have been offline too long; 0 if none is offline. */
  function NearestDeadline(players: seq<int>, presence: Presence, n: nat): int
    requires n <= |players|
  {
    if n == 0 then 0
    else
      var nearest := NearestDeadline(players, presence, n - 1);
      var player := players[n - 1];
      if player in presence.offlineAtMs && presence.offlineAtMs[player] > 0 then
        var deadline := presence.offlineAtMs[player] + OFFLINE_LOSE_MS;
        if nearest == 0 || deadline < nearest then deadline else nearest
      else nearest
  }

  function SnapshotOf(room: Room): RoomSnapshot {
    RoomSnapshot(
      room.roomId, room.mode, room.game.state, room.players, room.game.operator,
      room.game.auction.landlord, room.game.auction.baseCoin, room.snapshotVersion, room.lastActionSeq,
      OnlineBitmap(room.players, room.presence, |room.players|),
      TrusteeList(room.players, room.presence, |room.players|),
      NearestDeadline(room.players, room.presence, |room.players|))
  }

  // ----- what a snapshot says

  /** The bitmap has one digit for each seat, and it is 1 exactly for those who are online. */
  lemma {:induction false} BitmapShowsWhoIsOnline(players: seq<int>, presence: Presence, n: nat)
    requires n <= |players|
    ensures |OnlineBitmap(players, presence, n)| == n
    ensures forall i :: 0 <= i < n ==>
                          OnlineBitmap(players, presence, n)[i] == if IsOnline(presence, players[i]) then '1' else '0'
  {
    if n > 0 {
      BitmapShowsWhoIsOnline(players, presence, n - 1);
    }
  }

  /** The trusted ones among the first n seats, in ascending order. */
  function TrustedSeats(players: seq<int>, presence: Presence, n: nat): seq<int>
    requires n <= |players|
  {
    if n == 0 then []
    else TrustedSeats(players, presence, n - 1) + if IsTrustee(presence, players[n - 1]) then [n - 1] else []
  }

  /** The list of trustees names the players of exactly the trusted seats, in the order of the seats. */
  lemma {:induction false} TrusteesAreListed(players: seq<int>, presence: Presence, n: nat)
    requires n <= |players|
    ensures
      var seats, list := TrustedSeats(players, presence, n), TrusteeList(players, presence, n);
      && (forall i :: 0 <= i < |seats| ==> 0 <= seats[i] < n)
      && (forall i, j :: 0 <= i < j < |seats| ==> seats[i] < seats[j])
      && (forall k :: 0 <= k < n ==> (k in seats <==> IsTrustee(presence, players[k])))
      && |list| == |seats|
      && forall i :: 0 <= i < |seats| ==> list[i] == players[seats[i]]
  {
    if n > 0 {
      TrusteesAreListed(players, presence, n - 1);
    }
  }

  /** Whether a seat has a time since which its player has been offline. */
  predicate IsAway(players: seq<int>, presence: Presence, k: nat)
    requires k < |players|
  {
    players[k] in presence.offlineAtMs && presence.offlineAtMs[players[k]] > 0
  }

  function DeadlineOf(players: seq<int>, presence: Presence, k: nat): int
    requires k < |players| && IsAway(players, presence, k)
  {
    presence.offlineAtMs[players[k]] + OFFLINE_LOSE_MS
  }

  /** The deadline is 0 exactly if nobody is away, and otherwise the least deadline of those who are. */
  lemma {:induction false} DeadlineIsLeast(players: seq<int>, presence: Presence, n: nat)
    requires n <= |players|
    ensures
      var nearest := NearestDeadline(players, presence, n);
      && (nearest == 0 <==> forall k: nat :: k < n ==> !IsAway(players, presence, k))
      && (nearest != 0 ==>
            exists k: nat :: k < n && IsAway(players, presence, k) && DeadlineOf(players, presence, k) == nearest)
      && (forall k: nat :: k < n && IsAway(players, presence, k) ==> 0 < nearest <= DeadlineOf(players, presence, k))
  {
    if n > 0 {
      DeadlineIsLeast(players, presence, n - 1);
      if IsAway(players, presence, n - 1) {
        assert DeadlineOf(players, presence, n - 1) > 0;
      }
    }
  }

  /** What a snapshot says about the players' presence. */
  lemma SnapshotTellsPresence(room: Room)
    ensures
      var snapshot, players, presence := SnapshotOf(room), room.players, room.presence;
      var nearest := snapshot.nearestOfflineDeadlineMs;
      && |snapshot.onlineBitmap| == |players|
      && (forall i :: 0 <= i < |players| ==>
                        snapshot.onlineBitmap[i] == if IsOnline(presence, players[i]) then '1' else '0')
      && (var seats := TrustedSeats(players, presence, |players|);
          && |snapshot.trusteePlayers| == |seats|
          && (forall k :: 0 <= k < |players| ==> (k in seats <==> IsTrustee(presence, players[k])))
          && (forall i, j :: 0 <= i < j < |seats| ==> seats[i] < seats[j])
          && forall i :: 0 <= i < |seats| ==>
                           0 <= seats[i] < |players| && snapshot.trusteePlayers[i] == players[seats[i]])
      && (nearest == 0 <==> forall k: nat :: k < |players| ==> !IsAway(players, presence, k))
      && (nearest != 0 ==>
            exists k: nat ::
              k < |players| && IsAway(players, presence, k) && DeadlineOf(players, presence, k) == nearest)
      && (forall k: nat ::
            k < |players| && IsAway(players, presence, k) ==> nearest <= DeadlineOf(players, presence, k))
  {
    BitmapShowsWhoIsOnline(room.players, room.presence, |room.players|);
    TrusteesAreListed(room.players, room.presence, |room.players|);
    DeadlineIsLeast(room.players, room.presence, |room.players|);
  }

  function CardCounts(players: seq<int>, hands: map<int, seq<int>>, n: nat): seq<(int, nat)>
    requires n <= |players|
  {
    if n == 0 then []
    else
      var player := players[n - 1];
      CardCounts(players, hands, n - 1) + [(player, if player in hands then |hands[player]| else 0)]
  }

  function PushSnapshotOf(room: Room): PushSnapshot {
    PushSnapshot(
      SnapshotOf(room), room.game.table.lastPlayer, room.game.table.lastCards,
      if room.game.state in {Playing, Settling, Finished} then room.game.holdings.bottomCards else [],
      CardCounts(room.players, room.game.holdings.hands, |room.players|))
  }

  // ----- creating and dealing

  function NewGame(players: seq<int>): Game {
    Game(
      WaitStart,
      if players == [] then NOBODY else players[0],
      Auction(0, 0, NOBODY, NOBODY, 1),
      Holdings(false, map[], []),
      Table(NOBODY, [], 0))
  }

  function NewRoom(roomId: int, mode: int, players: seq<int>): Room {
    Room(
      roomId, mode, players, NewGame(players),
      Presence(
        map p | p in players :: true,
        map p | p in players :: false,
        map p | p in players :: 0),
      1, 0)
  }

  /** A shuffled deck: each of the 54 cards once. */
  ghost predicate IsDeck(deck: seq<int>) {
    multiset(deck) == multiset(FullDeck())
  }

  function FullDeck(): (deck: seq<int>)
    ensures |deck| == DECK_SIZE
  {
    seq(DECK_SIZE, i => i)
  }

  /** The hands after the first n cards of the deck have gone round the three players. */
  function HandsAfter(hands: map<int, seq<int>>, players: seq<int>, deck: seq<int>, n: nat): (dealt: map<int, seq<int>>)
    requires |players| == 3 && n <= |deck|
    ensures dealt.Keys == hands.Keys + {players[0], players[1], players[2]}
  {
    if n == 0 then hands[players[0] := []][players[1] := []][players[2] := []]
    else
      SeatIsOneOfThree(players, n - 1);
      DealtOne(HandsAfter(hands, players, deck, n - 1), Seat(players, n - 1), deck[n - 1])
  }

  function DealtOne(hands: map<int, seq<int>>, player: int, card: int): (dealt: map<int, seq<int>>)
    requires player in hands
    ensures dealt.Keys == hands.Keys
  {
    hands[player := hands[player] + [card]]
  }

  function SortHand(hands: map<int, seq<int>>, player: int): (sorted: map<int, seq<int>>)
    requires player in hands
    ensures sorted.Keys == hands.Keys
  {
    hands[player := SortBy(CardKey, hands[player])]
  }

  const BOTTOM_SIZE := 3

  function Deal(holdings: Holdings, players: seq<int>, deck: seq<int>): Holdings
    requires |deck| == DECK_SIZE
  {
    if |players| != 3 || holdings.dealt then holdings
    else
      var toPlayers := |deck| - BOTTOM_SIZE;
      var hands := HandsAfter(holdings.hands, players, deck, toPlayers);
      Holdings(
        true,
        SortHand(SortHand(SortHand(hands, players[0]), players[1]), players[2]),
        deck[toPlayers..])
  }

  // ----- playing

  /** The hand without the first occurrence of the card. */
  function RemoveFirst(hand: seq<int>, card: int): seq<int>
    requires card in hand
  {
    var i := IndexOf(hand, card);
    hand[..i] + hand[i + 1..]
  }

  lemma RemoveFirstRemoves(hand: seq<int>, card: int)
    requires card in hand
    ensures multiset(RemoveFirst(hand, card)) == multiset(hand) - multiset{card}
  {
    var i := IndexOf(hand, card);
    assert hand == hand[..i] + [card] + hand[i + 1..];
  }

  /** The hand after the cards have been taken out one by one, or as far as that goes. */
  function TakeOut(hand: seq<int>, cards: seq<int>): seq<int> {
    if cards == [] then hand
    else if cards[0] !in hand then hand
    else TakeOut(RemoveFirst(hand, cards[0]), cards[1..])
  }

  function Accept(game: Game): Step {
    Step(game, Accepted(false, NOBODY, 0))
  }

  function Reject(game: Game, error: ActionError): Step {
    Step(game, Rejected(error))
  }

  function ActCallScore(game: Game, players: seq<int>, player: int, request: ActionRequest): Step {
    var auction := game.auction;
    if request.actionType != CallScore then Reject(game, NotAllowedInCallScore)
    else if !(0 <= request.callScore <= 3) then Reject(game, InvalidCallScore)
    else
      var higher := request.callScore > auction.highestScore;
      var score := if higher then request.callScore else auction.highestScore;
      var caller := if higher then player else auction.highestCaller;
      var count := auction.actionCount + 1;
      if request.callScore == 3 || count >= |players| then
        var opener := if caller == NOBODY && players != [] then players[0] else caller;
        Accept(Game(RobbingLandlord, opener, Auction(0, score, opener, auction.landlord, Max(1, score)),
                    game.holdings, game.table))
      else
        Accept(Game(CallingScore, NextOperator(players, player),
                    Auction(count, score, caller, auction.landlord, auction.baseCoin),
                    game.holdings, game.table))
  }

  function ActRobLandlord(game: Game, players: seq<int>, player: int, request: ActionRequest): Step {
    var auction := game.auction;
    if request.actionType != RobLandlord then Reject(game, NotAllowedInRobLandlord)
    else if request.rob != 0 && request.rob != 1 then Reject(game, InvalidRobFlag)
    else
      var robbed := request.rob == 1;
      var robber := if robbed then player else auction.landlord;
      var baseCoin := if robbed then Max(1, auction.baseCoin) * 2 else auction.baseCoin;
      var count := auction.actionCount + 1;
      if count >= |players| then
        var claimant := if robber == NOBODY then auction.highestCaller else robber;
        var landlord := if claimant == NOBODY && players != [] then players[0] else claimant;
        if landlord !in game.holdings.hands then
          Reject(game.(auction := Auction(count, auction.highestScore, auction.highestCaller, landlord, baseCoin)),
                 LandlordHandNotFound)
        else
          Accept(Game(Playing, landlord,
                      Auction(0, auction.highestScore, auction.highestCaller, landlord, baseCoin),
                      GiveBottom(game.holdings, landlord),
                      Table(NOBODY, [], 0)))
      else
        Accept(Game(RobbingLandlord, NextOperator(players, player),
                    Auction(count, auction.highestScore, auction.highestCaller, robber, baseCoin),
                    game.holdings, game.table))
  }

  /** The landlord picks up the bottom cards. */
  function GiveBottom(holdings: Holdings, landlord: int): Holdings
    requires landlord in holdings.hands
  {
    holdings.(hands := holdings.hands[landlord := SortBy(CardKey, holdings.hands[landlord] + holdings.bottomCards)])
  }

  function ActPass(game: Game, players: seq<int>, player: int, request: ActionRequest): Step {
    var table := game.table;
    if request.cards != [] then Reject(game, PassWithCards)
    else if table.lastCards == [] then Reject(game, PassOnEmptyTable)
    else if table.lastPlayer == player then Reject(game, LeaderCannotPass)
    else if table.passes + 1 >= |players| - 1 then
      Accept(game.(operator := table.lastPlayer, table := Table(NOBODY, [], 0)))
    else
      Accept(game.(operator := NextOperator(players, player), table := table.(passes := table.passes + 1)))
  }

  /** The player's hand without the cards played. */
  function LayDown(holdings: Holdings, player: int, cards: seq<int>): (after: Holdings)
    requires player in holdings.hands
  {
    holdings.(hands := holdings.hands[player := TakeOut(holdings.hands[player], cards)])
  }

  ghost function ActPlayCards(game: Game, players: seq<int>, player: int, request: ActionRequest): Step {
    var cards, hands, table := request.cards, game.holdings.hands, game.table;
    if cards == [] then Reject(game, NoCardsPlayed)
    else if player !in hands then Reject(game, HandNotFound)
    else if !Classify(cards).valid then Reject(game, InvalidCombo)
    else if table.lastCards != [] && table.lastPlayer != player
            && !CanBeat(Classify(cards), Classify(table.lastCards)) then Reject(game, CannotBeatPrevious)
    else if !(multiset(cards) <= multiset(hands[player])) then Reject(game, CardsNotInHand)
    else
      var holdings := LayDown(game.holdings, player, cards);
      if holdings.hands[player] == [] then
        Step(Game(Settling, player, game.auction, holdings, Table(player, cards, 0)),
             Accepted(true, player, Max(1, game.auction.baseCoin)))
      else
        Accept(Game(game.state, NextOperator(players, player), game.auction, holdings, Table(player, cards, 0)))
  }

  /** The first action in a fresh room starts the calling of scores and deals. */
  function Started(game: Game, players: seq<int>, deck: seq<int>): Game
    requires |deck| == DECK_SIZE
  {
    if game.state == WaitStart then
      game.(state := CallingScore, holdings := Deal(game.holdings, players, deck))
    else game
  }

  /** The action of the operator in a game that is being played. */
  ghost function ActInTurn(game: Game, players: seq<int>, player: int, request: ActionRequest): Step {
    match game.state
    case CallingScore => ActCallScore(game, players, player, request)
    case RobbingLandlord => ActRobLandlord(game, players, player, request)
    case _ =>
      if request.actionType == Pass then ActPass(game, players, player, request)
      else if request.actionType != PlayCards then Reject(game, NotAllowedInPlaying)
      else ActPlayCards(game, players, player, request)
  }

  /** An action of a player; `deck` is the shuffled deck the room deals from. */
  ghost function Act(game: Game, players: seq<int>, deck: seq<int>, player: int, request: ActionRequest): Step
    requires |deck| == DECK_SIZE
  {
    if player !in players then Reject(game, PlayerNotInRoom)
    else if game.operator != player then Reject(game, NotPlayerTurn)
    else if game.state in {Settling, Finished} then Reject(game, StateNotAllowed)
    else ActInTurn(Started(game, players, deck), players, player, request)
  }

  function Bump(room: Room, countAsAction: bool): Room {
    room.(
    snapshotVersion := room.snapshotVersion + 1,
    lastActionSeq := if countAsAction then room.lastActionSeq + 1 else room.lastActionSeq)
  }

  /** The room after a step of its game: an accepted action moves the snapshot version on. */
  function Stepped(room: Room, step: Step): Room {
    if step.outcome.Accepted? then Bump(room.(game := step.game), true) else room.(game := step.game)
  }

  // ----- the trustee

  /** The first card of the hand that beats the combo on its own. */
  ghost function FirstBeating(hand: seq<int>, previous: CardCombo): (card: Option<int>)
    ensures card.Some? ==> card.value in hand && CanBeat(Classify([card.value]), previous)
    ensures card.None? ==> forall c :: c in hand ==> !CanBeat(Classify([c]), previous)
  {
    if hand == [] then None
    else if CanBeat(Classify([hand[0]]), previous) then Some(hand[0])
    else FirstBeating(hand[1..], previous)
  }

  datatype TrusteeChoice = Choose(request: ActionRequest) | NoChoice(error: ActionError)

  function Request(actionType: ActionType, cards: seq<int>): ActionRequest {
    ActionRequest(actionType, -1, -1, cards)
  }

  /** The action that the server chooses for an absent player. */
  ghost function TrusteeAction(game: Game, player: int): TrusteeChoice {
    var hands, table := game.holdings.hands, game.table;
    if game.operator != player then NoChoice(NotTrusteeTurn)
    else
      match game.state
      case CallingScore => Choose(ActionRequest(CallScore, 0, -1, []))
      case RobbingLandlord => Choose(ActionRequest(RobLandlord, -1, 0, []))
      case Playing =>
        if table.lastCards == [] || table.lastPlayer == player then
          if player !in hands || hands[player] == [] then NoChoice(TrusteeHandEmpty)
          else Choose(Request(PlayCards, [hands[player][0]]))
        else
          var hand := if player in hands then hands[player] else [];
          (match FirstBeating(hand, Classify(table.lastCards))
           case Some(card) => Choose(Request(PlayCards, [card]))
           case None => Choose(Request(Pass, [])))
      case _ => NoChoice(NoTrusteeAction)
  }

  ghost function ActTrustee(game: Game, players: seq<int>, deck: seq<int>, player: int): Step
    requires |deck| == DECK_SIZE
  {
    match TrusteeAction(game, player)
    case Choose(request) => Act(game, players, deck, player, request)
    case NoChoice(error) => Reject(game, error)
  }

  // ----- presence and settling

  /** The room after a player's connection was lost; None if the player has no seat. */
  function WentOffline(room: Room, player: int, atMs: int): Option<Room> {
    var presence := room.presence;
    if player !in presence.online then None
    else if !presence.online[player] && player in presence.offlineAtMs && presence.offlineAtMs[player] > 0 then
      Some(room)
    else
      Some(Bump(room.(presence := Presence(presence.online[player := false], presence.trustee,
                                           presence.offlineAtMs[player := atMs])), false))
  }

  function CameOnline(room: Room, player: int): Option<Room> {
    var presence := room.presence;
    if player !in presence.online then None
    else
      var returned := room.(presence := Presence(presence.online[player := true], presence.trustee[player := false],
                                                 presence.offlineAtMs[player := 0]));
      if presence.online[player] && !IsTrustee(presence, player) then Some(returned) else Some(Bump(returned, false))
  }

  function SetTrustee(room: Room, player: int, trustee: bool): Option<Room> {
    var presence := room.presence;
    if player !in presence.trustee then None
    else if presence.trustee[player] == trustee then Some(room)
    else Some(Bump(room.(presence := presence.(trustee := presence.trustee[player := trustee])), false))
  }

  function SetState(room: Room, state: RoomState): Room {
    Bump(room.(game := room.game.(state := state)), false)
  }
}
