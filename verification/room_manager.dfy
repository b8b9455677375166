/** The room manager: the live rooms, the index from players to rooms, and the operations on them,
    each proved against its meaning as a step of a room. */
module RoomManagement {
  import opened Cards
  import opened Basics
  import opened RuleEngine
  import opened Rooms
  import opened RoomRuns

  datatype ActionResult = ActionResult(snapshot: RoomSnapshot, gameOver: bool, winner: int, baseCoin: int)

  datatype ActionAnswer = Done(result: ActionResult) | Refused(error: ActionError)

  /** The answer to an action, given the step it was and the room after it. */
  function AnswerTo(outcome: Outcome, after: Room): ActionAnswer {
    match outcome
    case Accepted(gameOver, winner, baseCoin) => Done(ActionResult(SnapshotOf(after), gameOver, winner, baseCoin))
    case Rejected(error) => Refused(error)
  }

  // ----- cards

  method CountCards(hand: seq<int>) returns (cnt: map<int, int>)
    ensures Counts(cnt, multiset(hand))
  {
    cnt := map[];
    for i := 0 to |hand|
      invariant Counts(cnt, multiset(hand[..i]))
    {
      assert hand[..i + 1] == hand[..i] + [hand[i]];
      cnt := cnt[hand[i] := (if hand[i] in cnt then cnt[hand[i]] else 0) + 1];
    }
    assert hand[..|hand|] == hand;
  }

  /** Whether the hand holds all of the cards, by counting them. */
  method HoldsAll(hand: seq<int>, cards: seq<int>) returns (holds: bool)
    ensures holds <==> multiset(cards) <= multiset(hand)
  {
    var cnt := CountCards(hand);
    for i := 0 to |cards|
      invariant multiset(cards[..i]) <= multiset(hand)
      invariant Counts(cnt, multiset(hand) - multiset(cards[..i]))
    {
      var c := cards[i];
      assert cards[..i + 1] == cards[..i] + [c];
      if c !in cnt || cnt[c] <= 0 {
        assert cards == cards[..i + 1] + cards[i + 1..];
        return false;
      }
      cnt := cnt[c := cnt[c] - 1];
    }
    assert cards[..|cards|] == cards;
    return true;
  }

  /** Takes the cards out of the hand, if it holds all of them; otherwise leaves it as it is. Once all
      cards have been counted, each of them is found again when its turn comes. */
  method RemoveCards(hand: seq<int>, cards: seq<int>) returns (removed: bool, rest: seq<int>)
    ensures removed <==> multiset(cards) <= multiset(hand)
    ensures rest == if removed then TakeOut(hand, cards) else hand
    ensures removed ==> multiset(rest) == multiset(hand) - multiset(cards)
  {
    rest := hand;
    removed := HoldsAll(hand, cards);
    if !removed {
      return;
    }
    assert cards[0..] == cards;
    for i := 0 to |cards|
      invariant TakeOut(rest, cards[i..]) == TakeOut(hand, cards)
      invariant multiset(rest) == multiset(hand) - multiset(cards[..i])
    {
      NextCard(hand, rest, cards, i);
      rest := RemoveFirst(rest, cards[i]);
    }
    assert cards[..|cards|] == cards;
  }

  lemma NextCard(hand: seq<int>, rest: seq<int>, cards: seq<int>, i: nat)
    requires i < |cards| && multiset(cards) <= multiset(hand)
    requires multiset(rest) == multiset(hand) - multiset(cards[..i])
    ensures cards[i] in rest
    ensures multiset(RemoveFirst(rest, cards[i])) == multiset(hand) - multiset(cards[..i + 1])
    ensures TakeOut(rest, cards[i..]) == TakeOut(RemoveFirst(rest, cards[i]), cards[i + 1..])
  {
    assert cards[..i + 1] == cards[..i] + [cards[i]];
    assert cards == cards[..i + 1] + cards[i + 1..];
    assert cards[i] in multiset(rest);
    RemoveFirstRemoves(rest, cards[i]);
    assert cards[i..][1..] == cards[i + 1..];
  }

  ghost predicate Counts(cnt: map<int, int>, bag: multiset<int>) {
    forall c :: (if c in cnt then cnt[c] else 0) == bag[c]
  }

  /** Deals the deck round the three players and sorts their hands. */
  method DealCards(holdings: Holdings, players: seq<int>, deck: seq<int>) returns (dealt: Holdings)
    requires |deck| == DECK_SIZE
    ensures dealt == Deal(holdings, players, deck)
  {
    if |players| != 3 || holdings.dealt {
      return holdings;
    }
    var toPlayers := |deck| - BOTTOM_SIZE;
    var hands := DealRound(holdings.hands, players, deck, toPlayers);
    hands := SortHand(hands, players[0]);
    hands := SortHand(hands, players[1]);
    hands := SortHand(hands, players[2]);
    dealt := Holdings(true, hands, deck[toPlayers..]);
  }

  /** Deals the first cards of the deck one by one. */
  method DealRound(before: map<int, seq<int>>, players: seq<int>, deck: seq<int>, n: nat)
    returns (hands: map<int, seq<int>>)
    requires |players| == 3 && n <= |deck|
    ensures hands == HandsAfter(before, players, deck, n)
  {
    hands := before[players[0] := []][players[1] := []][players[2] := []];
    for i := 0 to n
      invariant hands == HandsAfter(before, players, deck, i)
    {
      SeatIsOneOfThree(players, i);
      hands := DealtOne(hands, Seat(players, i), deck[i]);
    }
  }

  // ----- the phases of the game

  method ApplyCallScore(game: Game, players: seq<int>, player: int, request: ActionRequest)
    returns (after: Game, outcome: Outcome)
    requires game.state == CallingScore
    ensures Step(after, outcome) == ActCallScore(game, players, player, request)
  {
    after := game;
    if request.actionType != CallScore {
      return after, Rejected(NotAllowedInCallScore);
    }
    if request.callScore < 0 || request.callScore > 3 {
      return after, Rejected(InvalidCallScore);
    }
    var auction := game.auction;
    if request.callScore > auction.highestScore {
      auction := auction.(highestScore := request.callScore, highestCaller := player);
    }
    auction := auction.(actionCount := auction.actionCount + 1);
    if request.callScore == 3 || auction.actionCount >= |players| {
      after := after.(state := RobbingLandlord);
      auction := auction.(actionCount := 0);
      if auction.highestCaller == NOBODY && players != [] {
        auction := auction.(highestCaller := players[0]);
      }
      auction := auction.(baseCoin := Max(1, auction.highestScore));
      after := after.(operator := auction.highestCaller);
    } else {
      after := after.(operator := NextOperator(players, player));
    }
    after := after.(auction := auction);
    outcome := Accepted(false, NOBODY, 0);
  }

  method ApplyRobLandlord(game: Game, players: seq<int>, player: int, request: ActionRequest)
    returns (after: Game, outcome: Outcome)
    requires game.state == RobbingLandlord
    ensures Step(after, outcome) == ActRobLandlord(game, players, player, request)
  {
    after := game;
    if request.actionType != RobLandlord {
      return after, Rejected(NotAllowedInRobLandlord);
    }
    if request.rob != 0 && request.rob != 1 {
      return after, Rejected(InvalidRobFlag);
    }
    var auction := game.auction;
    if request.rob == 1 {
      auction := auction.(landlord := player, baseCoin := Max(1, auction.baseCoin) * 2);
    }
    auction := auction.(actionCount := auction.actionCount + 1);
    if auction.actionCount >= |players| {
      if auction.landlord == NOBODY {
        auction := auction.(landlord := auction.highestCaller);
      }
      if auction.landlord == NOBODY && players != [] {
        auction := auction.(landlord := players[0]);
      }
      if auction.landlord !in game.holdings.hands {
        return after.(auction := auction), Rejected(LandlordHandNotFound);
      }
      after := after.(holdings := GiveBottom(game.holdings, auction.landlord), state := Playing);
      auction := auction.(actionCount := 0);
      after := after.(operator := auction.landlord, table := Table(NOBODY, [], 0));
    } else {
      after := after.(operator := NextOperator(players, player));
    }
    after := after.(auction := auction);
    outcome := Accepted(false, NOBODY, 0);
  }

  method ApplyPass(game: Game, players: seq<int>, player: int, request: ActionRequest)
    returns (after: Game, outcome: Outcome)
    ensures Step(after, outcome) == ActPass(game, players, player, request)
  {
    after := game;
    if request.cards != [] {
      return after, Rejected(PassWithCards);
    }
    if game.table.lastCards == [] {
      return after, Rejected(PassOnEmptyTable);
    }
    if game.table.lastPlayer == player {
      return after, Rejected(LeaderCannotPass);
    }
    var table := game.table.(passes := game.table.passes + 1);
    if table.passes >= |players| - 1 {
      after := after.(operator := table.lastPlayer);
      table := Table(NOBODY, [], 0);
    } else {
      after := after.(operator := NextOperator(players, player));
    }
    after := after.(table := table);
    outcome := Accepted(false, NOBODY, 0);
  }

  method ApplyPlayCards(game: Game, players: seq<int>, player: int, request: ActionRequest)
    returns (after: Game, outcome: Outcome)
    ensures Step(after, outcome) == ActPlayCards(game, players, player, request)
  {
    after := game;
    if request.cards == [] {
      return after, Rejected(NoCardsPlayed);
    }
    if player !in game.holdings.hands {
      return after, Rejected(HandNotFound);
    }
    var combo := Analyze(request.cards);
    if !combo.valid {
      return after, Rejected(InvalidCombo);
    }
    if game.table.lastCards != [] && game.table.lastPlayer != player {
      var previous := Analyze(game.table.lastCards);
      if !CanBeat(combo, previous) {
        return after, Rejected(CannotBeatPrevious);
      }
    }
    var removed, hand := RemoveCards(game.holdings.hands[player], request.cards);
    if !removed {
      return after, Rejected(CardsNotInHand);
    }
    after := after.(
    holdings := game.holdings.(hands := game.holdings.hands[player := hand]),
    table := Table(player, request.cards, 0));
    if hand == [] {
      after := after.(state := Settling, operator := player);
      outcome := Accepted(true, player, Max(1, game.auction.baseCoin));
    } else {
      after := after.(operator := NextOperator(players, player));
      outcome := Accepted(false, NOBODY, 0);
    }
  }

  /** The operator's action in a game that has not ended; the first one starts the calling and deals. */
  method TakeTurn(game: Game, players: seq<int>, deck: seq<int>, player: int, request: ActionRequest)
    returns (after: Game, outcome: Outcome)
    requires |deck| == DECK_SIZE
    ensures Step(after, outcome) == ActInTurn(Started(game, players, deck), players, player, request)
  {
    after := game;
    if game.state == WaitStart {
      var holdings := DealCards(game.holdings, players, deck);
      after := after.(state := CallingScore, holdings := holdings);
    }
    if after.state == CallingScore {
      after, outcome := ApplyCallScore(after, players, player, request);
    } else if after.state == RobbingLandlord {
      after, outcome := ApplyRobLandlord(after, players, player, request);
    } else if request.actionType == Pass {
      after, outcome := ApplyPass(after, players, player, request);
    } else if request.actionType != PlayCards {
      outcome := Rejected(NotAllowedInPlaying);
    } else {
      after, outcome := ApplyPlayCards(after, players, player, request);
    }
  }

  // ----- snapshots

  method MakeSnapshot(room: Room) returns (snapshot: RoomSnapshot)
    ensures snapshot == SnapshotOf(room)
  {
    var players, presence := room.players, room.presence;
    var bitmap: string, trustees: seq<int>, nearest := [], [], 0;
    for i := 0 to |players|
      invariant bitmap == OnlineBitmap(players, presence, i)
      invariant trustees == TrusteeList(players, presence, i)
      invariant nearest == NearestDeadline(players, presence, i)
    {
      var player := players[i];
      bitmap := bitmap + [if IsOnline(presence, player) then '1' else '0'];
      if IsTrustee(presence, player) {
        trustees := trustees + [player];
      }
      if player in presence.offlineAtMs && presence.offlineAtMs[player] > 0 {
        var deadline := presence.offlineAtMs[player] + OFFLINE_LOSE_MS;
        if nearest == 0 || deadline < nearest {
          nearest := deadline;
        }
      }
    }
    snapshot := RoomSnapshot(
      room.roomId, room.mode, room.game.state, players, room.game.operator, room.game.auction.landlord,
      room.game.auction.baseCoin, room.snapshotVersion, room.lastActionSeq, bitmap, trustees, nearest);
  }

  /** The first card of the hand that beats the combo on its own. */
  method FindChallenge(hand: seq<int>, previous: CardCombo) returns (card: Option<int>)
    ensures card == FirstBeating(hand, previous)
  {
    for i := 0 to |hand|
      invariant FirstBeating(hand, previous) == FirstBeating(hand[i..], previous)
    {
      var challenge := Analyze([hand[i]]);
      if challenge.valid && CanBeat(challenge, previous) {
        return Some(hand[i]);
      }
      assert hand[i..][1..] == hand[i + 1..];
    }
    return None;
  }

  /** The index with these players pointing to the room. */
  function Assigned(index: map<int, int>, players: seq<int>, roomId: int): map<int, int> {
    index + map p | p in players :: roomId
  }

  lemma AssignOneMore(index: map<int, int>, players: seq<int>, i: nat, roomId: int)
    requires i < |players|
    ensures Assigned(index, players[..i + 1], roomId) == Assigned(index, players[..i], roomId)[players[i] := roomId]
  {
    assert players[..i + 1] == players[..i] + [players[i]];
  }

  ghost predicate IsLifeOf(life: Life, room: Room, deck: seq<int>) {
    life.room == room && (Seated(room.players) ==> Reachable(life, room.players, deck))
  }

  lemma NewIsLife(roomId: int, mode: int, players: seq<int>, deck: seq<int>)
    requires IsDeck(deck) && |deck| == DECK_SIZE
    ensures IsLifeOf(NewLife(roomId, mode, players), NewRoom(roomId, mode, players), deck)
  {
    if Seated(players) {
      NewIsReachable(roomId, mode, players, deck);
    }
  }

  lemma NextIsLife(life: Life, deck: seq<int>, event: Event)
    requires IsLifeOf(life, life.room, deck) && |deck| == DECK_SIZE
    ensures IsLifeOf(Next(life, deck, event), Next(life, deck, event).room, deck)
  {
    SamePlayers(life, deck, event);
    if Seated(life.room.players) {
      NextIsReachable(life, life.room.players, deck, event);
    }
  }

  lemma SamePlayers(life: Life, deck: seq<int>, event: Event)
    requires |deck| == DECK_SIZE
    ensures Next(life, deck, event).room.players == life.room.players
  {
  }

  function FirstOther(players: seq<int>, loser: int): (other: Option<int>)
    ensures other.Some? ==> other.value in players && other.value != loser
    ensures other.None? ==> forall p :: p in players ==> p == loser
  {
    if players == [] then None
    else if players[0] != loser then Some(players[0])
    else
      assert players == [players[0]] + players[1..];
      FirstOther(players[1..], loser)
  }

  /** Only the loser sits before the first other player. */
  lemma {:induction false} OnlyLosersBefore(players: seq<int>, loser: int) returns (i: nat)
    requires FirstOther(players, loser).Some?
    ensures i < |players| && FirstOther(players, loser) == Some(players[i])
    ensures forall j :: 0 <= j < i ==> players[j] == loser
  {
    i := 0;
    if players[0] == loser {
      var k := OnlyLosersBefore(players[1..], loser);
      i := k + 1;
    }
  }

  /** What may be noted of a player's presence. */
  datatype Mark = AwaySince(atMs: int) | BackAgain | HandedOver(trustee: bool)

  function MarkRoom(room: Room, player: int, mark: Mark): Option<Room> {
    match mark
    case AwaySince(atMs) => WentOffline(room, player, atMs)
    case BackAgain => CameOnline(room, player)
    case HandedOver(trustee) => SetTrustee(room, player, trustee)
  }

  predicate CanMark(rooms: map<int, Room>, index: map<int, int>, player: int, mark: Mark) {
    player in index && index[player] in rooms && MarkRoom(rooms[index[player]], player, mark).Some?
  }

  /** The rooms after a mark on the player in the room that the index names. */
  function Marked(rooms: map<int, Room>, index: map<int, int>, player: int, mark: Mark): map<int, Room> {
    if CanMark(rooms, index, player, mark)
    then rooms[index[player] := MarkRoom(rooms[index[player]], player, mark).value] else rooms
  }

  /** The same rooms with the same players in them. */
  ghost predicate SameSeats(before: map<int, Room>, after: map<int, Room>) {
    after.Keys == before.Keys && forall id :: id in before ==> after[id].players == before[id].players
  }

  class RoomManager {
    var nextRoomId: int
    var rooms: map<int, Room>
    var playerToRoom: map<int, int>
    /** The deck each room deals from; the shuffle is seeded by the room id. */
    const deckOf: int -> seq<int>
    /** How each live room came about. */
    ghost var lives: map<int, Life>

    /** Ids are never reused, and every live room of three different players is a reachable one, so that
        all that is proved of reachable rooms holds of the rooms of the manager. */
    ghost predicate Valid()
      reads this
    {
      && (forall id :: IsDeck(deckOf(id)) && |deckOf(id)| == DECK_SIZE)
      && 1 <= nextRoomId
      && lives.Keys == rooms.Keys
      && (forall id :: id in rooms ==> 1 <= id < nextRoomId && rooms[id].roomId == id)
      && (forall id :: id in rooms ==> IsLifeOf(lives[id], rooms[id], deckOf(id)))
    }

    /** Records what happened to a room that has just been changed by the event. */
    ghost method Happened(roomId: int, event: Event)
      requires roomId in rooms && roomId in lives && |deckOf(roomId)| == DECK_SIZE
      requires exists before :: IsLifeOf(lives[roomId], before, deckOf(roomId))
      requires Next(lives[roomId], deckOf(roomId), event).room == rooms[roomId]
      modifies this`lives
      ensures lives == old(lives)[roomId := Next(old(lives)[roomId], deckOf(roomId), event)]
      ensures IsLifeOf(lives[roomId], rooms[roomId], deckOf(roomId))
    {
      NextIsLife(lives[roomId], deckOf(roomId), event);
      lives := lives[roomId := Next(lives[roomId], deckOf(roomId), event)];
    }

    constructor (deckOf: int -> seq<int>)
      requires forall id :: IsDeck(deckOf(id)) && |deckOf(id)| == DECK_SIZE
      ensures Valid() && rooms == map[] && playerToRoom == map[] && nextRoomId == 1 && this.deckOf == deckOf
    {
      this.deckOf := deckOf;
      nextRoomId, rooms, playerToRoom, lives := 1, map[], map[], map[];
    }

    /** Opens a room under an id that no room has had before. */
    method CreateRoom(mode: int, players: seq<int>) returns (roomId: int)
      requires Valid()
      modifies this
      ensures Valid()
      ensures roomId == old(nextRoomId) && nextRoomId == roomId + 1 && roomId !in old(rooms)
      ensures rooms == old(rooms)[roomId := NewRoom(roomId, mode, players)]
      ensures playerToRoom == Assigned(old(playerToRoom), players, roomId)
    {
      roomId := nextRoomId;
      nextRoomId := nextRoomId + 1;
      rooms := rooms[roomId := NewRoom(roomId, mode, players)];
      lives := lives[roomId := NewLife(roomId, mode, players)];
      NewIsLife(roomId, mode, players, deckOf(roomId));
      IndexPlayers(players, roomId);
    }

    /** Points the players to the room. */
    method IndexPlayers(players: seq<int>, roomId: int)
      modifies this`playerToRoom
      ensures playerToRoom == Assigned(old(playerToRoom), players, roomId)
    {
      for i := 0 to |players|
        invariant playerToRoom == Assigned(old(playerToRoom), players[..i], roomId)
      {
        AssignOneMore(old(playerToRoom), players, i, roomId);
        playerToRoom := playerToRoom[players[i] := roomId];
      }
      assert players[..|players|] == players;
    }

    method DestroyRoom(roomId: int) returns (destroyed: bool)
      requires Valid()
      modifies this`rooms, this`playerToRoom, this`lives
      ensures Valid()
      ensures destroyed <==> roomId in old(rooms)
      ensures rooms == old(rooms) - {roomId}
      ensures playerToRoom == if destroyed then old(playerToRoom) - SetOf(old(rooms)[roomId].players)
                              else old(playerToRoom)
    {
      if roomId !in rooms {
        return false;
      }
      var players := rooms[roomId].players;
      for i := 0 to |players|
        invariant playerToRoom == old(playerToRoom) - SetOf(players[..i])
        invariant rooms == old(rooms) && lives == old(lives)
      {
        assert players[..i + 1] == players[..i] + [players[i]];
        playerToRoom := playerToRoom - {players[i]};
      }
      assert players[..|players|] == players;
      rooms := rooms - {roomId};
      lives := lives - {roomId};
      destroyed := true;
    }

    /** An action of a player: exactly the step `Act` of the room's game, or no such room. */
    method ApplyPlayerAction(roomId: int, player: int, request: ActionRequest) returns (answer: ActionAnswer)
      requires Valid()
      modifies this`rooms, this`lives
      ensures Valid()
      ensures roomId !in old(rooms) ==> answer == Refused(RoomNotFound) && rooms == old(rooms)
      ensures roomId in old(rooms) ==>
                var room := old(rooms)[roomId];
                var step := Act(room.game, room.players, deckOf(roomId), player, request);
                && rooms == old(rooms)[roomId := Stepped(room, step)]
                && answer == AnswerTo(step.outcome, Stepped(room, step))
    {
      if roomId !in rooms {
        return Refused(RoomNotFound);
      }
      var room := rooms[roomId];
      if player !in room.players {
        return Refused(PlayerNotInRoom);
      }
      if room.game.operator != player {
        return Refused(NotPlayerTurn);
      }
      if room.game.state == Settling || room.game.state == Finished {
        return Refused(StateNotAllowed);
      }
      var game, outcome := TakeTurn(room.game, room.players, deckOf(roomId), player, request);
      room := room.(game := game);
      if outcome.Accepted? {
        room := Bump(room, true);
        var snapshot := MakeSnapshot(room);
        answer := Done(ActionResult(snapshot, outcome.gameOver, outcome.winner, outcome.baseCoin));
      } else {
        answer := Refused(outcome.error);
      }
      rooms := rooms[roomId := room];
      Happened(roomId, Action(player, request));
    }

    /** Acts for an absent player: exactly the step `ActTrustee`. */
    method ApplyTrusteeAction(roomId: int, player: int) returns (answer: ActionAnswer)
      requires Valid()
      modifies this`rooms, this`lives
      ensures Valid()
      ensures roomId !in old(rooms) ==> answer == Refused(RoomNotFound) && rooms == old(rooms)
      ensures roomId in old(rooms) ==>
                var room := old(rooms)[roomId];
                var step := ActTrustee(room.game, room.players, deckOf(roomId), player);
                && rooms == old(rooms)[roomId := Stepped(room, step)]
                && answer == AnswerTo(step.outcome, Stepped(room, step))
    {
      if roomId !in rooms {
        return Refused(RoomNotFound);
      }
      var game := rooms[roomId].game;
      if game.operator != player {
        return Refused(NotTrusteeTurn);
      }
      var request;
      if game.state == CallingScore {
        request := ActionRequest(CallScore, 0, -1, []);
      } else if game.state == RobbingLandlord {
        request := ActionRequest(RobLandlord, -1, 0, []);
      } else if game.state == Playing {
        if game.table.lastCards == [] || game.table.lastPlayer == player {
          if player !in game.holdings.hands || game.holdings.hands[player] == [] {
            return Refused(TrusteeHandEmpty);
          }
          request := Request(PlayCards, [game.holdings.hands[player][0]]);
        } else {
          var previous := Analyze(game.table.lastCards);
          var hand := if player in game.holdings.hands then game.holdings.hands[player] else [];
          var card := FindChallenge(hand, previous);
          request := if card.Some? then Request(PlayCards, [card.value]) else Request(Pass, []);
        }
      } else {
        return Refused(NoTrusteeAction);
      }
      answer := ApplyPlayerAction(roomId, player, request);
    }

    method MarkPlayerOffline(player: int, atMs: int) returns (marked: bool)
      requires Valid()
      modifies this`rooms, this`lives
      ensures Valid()
      ensures rooms == Marked(old(rooms), playerToRoom, player, AwaySince(atMs))
      ensures marked <==> CanMark(old(rooms), playerToRoom, player, AwaySince(atMs))
      ensures SameSeats(old(rooms), rooms)
    {
      if player !in playerToRoom || playerToRoom[player] !in rooms {
        return false;
      }
      var roomId := playerToRoom[player];
      var room := rooms[roomId];
      var presence := room.presence;
      if player !in presence.online {
        return false;
      }
      if !presence.online[player] && player in presence.offlineAtMs && presence.offlineAtMs[player] > 0 {
        return true;
      }
      presence := presence.(online := presence.online[player := false]);
      presence := presence.(offlineAtMs := presence.offlineAtMs[player := atMs]);
      rooms := rooms[roomId := Bump(room.(presence := presence), false)];
      Happened(roomId, Offline(player, atMs));
      marked := true;
    }

    method MarkPlayerOnline(player: int) returns (marked: bool)
      requires Valid()
      modifies this`rooms, this`lives
      ensures Valid()
      ensures rooms == Marked(old(rooms), playerToRoom, player, BackAgain)
      ensures marked <==> CanMark(old(rooms), playerToRoom, player, BackAgain)
      ensures SameSeats(old(rooms), rooms)
    {
      if player !in playerToRoom || playerToRoom[player] !in rooms {
        return false;
      }
      var roomId := playerToRoom[player];
      var room := rooms[roomId];
      var presence := room.presence;
      if player !in presence.online {
        return false;
      }
      var wasPresent := presence.online[player] && !IsTrustee(presence, player);
      presence := presence.(online := presence.online[player := true]);
      presence := presence.(trustee := presence.trustee[player := false]);
      presence := presence.(offlineAtMs := presence.offlineAtMs[player := 0]);
      room := room.(presence := presence);
      rooms := rooms[roomId := if wasPresent then room else Bump(room, false)];
      Happened(roomId, Online(player));
      marked := true;
    }

    method MarkPlayerTrustee(player: int, trustee: bool) returns (marked: bool)
      requires Valid()
      modifies this`rooms, this`lives
      ensures Valid()
      ensures rooms == Marked(old(rooms), playerToRoom, player, HandedOver(trustee))
      ensures marked <==> CanMark(old(rooms), playerToRoom, player, HandedOver(trustee))
      ensures SameSeats(old(rooms), rooms)
    {
      if player !in playerToRoom || playerToRoom[player] !in rooms {
        return false;
      }
      var roomId := playerToRoom[player];
      var room := rooms[roomId];
      if player !in room.presence.trustee {
        return false;
      }
      if room.presence.trustee[player] == trustee {
        return true;
      }
      var presence := room.presence.(trustee := room.presence.trustee[player := trustee]);
      rooms := rooms[roomId := Bump(room.(presence := presence), false)];
      Happened(roomId, Trustee(player, trustee));
      marked := true;
    }

    /** The first player of the room other than the one who stayed away. */
    method PickWinnerForOfflineLose(roomId: int, loser: int) returns (winner: Option<int>)
      ensures roomId !in rooms ==> winner == None
      ensures roomId in rooms ==> winner == FirstOther(rooms[roomId].players, loser)
    {
      if roomId !in rooms {
        return None;
      }
      var players := rooms[roomId].players;
      for i := 0 to |players|
        invariant FirstOther(players, loser) == FirstOther(players[i..], loser)
      {
        if players[i] != loser {
          return Some(players[i]);
        }
        assert players[i..][1..] == players[i + 1..];
      }
      return None;
    }

    method MarkSettling(roomId: int) returns (marked: bool)
      requires Valid()
      modifies this`rooms, this`lives
      ensures Valid()
      ensures marked <==> roomId in old(rooms)
      ensures rooms == if marked then old(rooms)[roomId := SetState(old(rooms)[roomId], Settling)] else old(rooms)
      ensures SameSeats(old(rooms), rooms)
    {
      if roomId !in rooms {
        return false;
      }
      rooms := rooms[roomId := SetState(rooms[roomId], Settling)];
      Happened(roomId, SettlingMarked);
      marked := true;
    }

    method MarkFinished(roomId: int) returns (marked: bool)
      requires Valid()
      modifies this`rooms, this`lives
      ensures Valid()
      ensures marked <==> roomId in old(rooms)
      ensures rooms == if marked then old(rooms)[roomId := SetState(old(rooms)[roomId], Finished)] else old(rooms)
      ensures SameSeats(old(rooms), rooms)
    {
      if roomId !in rooms {
        return false;
      }
      rooms := rooms[roomId := SetState(rooms[roomId], Finished)];
      Happened(roomId, FinishedMarked);
      marked := true;
    }
  }
}
