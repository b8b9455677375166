/** The request handlers of the server on its managers, each proved to be a step of the world of
    queues, sessions, players and seats. */
module GameServers {
  import opened Basics
  import opened Membership
  import opened InService
  import opened ServerSteps
  import opened TimerSteps
  import RoomRuns

  /** Who sits where, read off the room manager. */
  ghost function SeatsIn(rooms: RM.RoomManager): Seats
    reads rooms
  {
    Seats(rooms.nextRoomId, MembersOf(rooms.rooms), rooms.playerToRoom)
  }

  class GameServer {
    const sessions: S.SessionManager
    const players: P.PlayerManager
    const matching: M.MatchManager
    const rooms: RM.RoomManager
    const storage: St.StorageService
    const settlement: SS.SettlementService

    ghost function World(): World
      reads sessions, players, matching, rooms
    {
      Membership.World(matching.View(), sessions.Table(), players.players, SeatsIn(rooms))
    }

    /** The services share the managers, and the managers are in order. */
    ghost predicate Linked()
      reads this, rooms, settlement, storage, storage.playerDao, storage.recordDao, storage.logDao
    {
      && settlement.sessions == sessions && settlement.players == players
      && settlement.rooms == rooms && settlement.storage == storage
      && rooms.Valid() && storage.Valid()
    }

    /** The server in service, while no settlement is under way. */
    ghost predicate Running()
      reads sessions, players, matching, rooms, settlement
    {
      IsSound(World()) && settlement.settlingRooms == {}
    }

    ghost function State(): ServerState
      reads sessions, players, matching, rooms
    {
      ServerState(World(), rooms.rooms)
    }

    ghost function Conditions(): Conditions
      reads settlement, storage, rooms
      ensures rooms.Valid() ==> HasDecks(Conditions().deckOf)
    {
      TimerSteps.Conditions(settlement.settlingRooms, storage.failpoint, rooms.deckOf)
    }

    /** What would come of a settlement now. */
    ghost function AnswerTo(roomId: int, winner: int, baseCoin: int): SS.ErrorCode
      reads sessions, players, matching, rooms, settlement, storage
    {
      SettleAnswer(World(), settlement.settlingRooms, storage.failpoint, roomId, winner, baseCoin)
    }

    /** Every live room of a running server came about from a new room of three different players, so that all
        that is proved of such rooms holds of it. */
    lemma LiveRoomsAreReachable(roomId: int)
      requires Linked() && Running() && roomId in rooms.rooms
      ensures rooms.lives[roomId].room == rooms.rooms[roomId]
      ensures RoomRuns.Reachable(rooms.lives[roomId], rooms.rooms[roomId].players, rooms.deckOf(roomId))
    {
      assert MembersOf(rooms.rooms)[roomId] == rooms.rooms[roomId].players;
      SoundRoomsAreSeated(World(), roomId);
    }

    constructor (deckOf: int -> seq<int>)
      requires forall id :: R.IsDeck(deckOf(id)) && |deckOf(id)| == Cards.DECK_SIZE
      ensures Linked() && Running() && World() == NewWorld() == Run([])
    {
      var s := new S.SessionManager();
      var p := new P.PlayerManager();
      var r := new RM.RoomManager(deckOf);
      var st := new St.StorageService();
      sessions, players, rooms, storage := s, p, r, st;
      matching := new M.MatchManager();
      settlement := new SS.SettlementService(s, p, r, st);
      new;
      assert MembersOf(map[]) == map[];
      RunsAreSound([]);
    }

    method IsBack(player: int)
      requires Linked()
      modifies rooms`rooms, rooms`lives
      ensures Linked() && World() == old(World())
      ensures rooms.rooms == RM.Marked(old(rooms.rooms), rooms.playerToRoom, player, RM.BackAgain)
    {
      var marked := rooms.MarkPlayerOnline(player);
      SameMembers(old(rooms.rooms), rooms.rooms);
    }

    /** Takes the room as it is for a player who returns to it, and marks the player as being back. */
    method Rejoin(player: int, roomId: int) returns (snapshot: Option<R.RoomSnapshot>)
      requires Linked()
      modifies rooms`rooms, rooms`lives
      ensures Linked() && World() == old(World())
      ensures snapshot == if roomId > 0 && roomId in old(rooms.rooms) then Some(R.SnapshotOf(old(rooms.rooms)[roomId]))
                          else None
      ensures rooms.rooms == if snapshot.Some?
                             then RM.Marked(old(rooms.rooms), rooms.playerToRoom, player, RM.BackAgain)
                             else old(rooms.rooms)
    {
      if roomId <= 0 || roomId !in rooms.rooms {
        return None;
      }
      var current := RM.MakeSnapshot(rooms.rooms[roomId]);
      IsBack(player);
      return Some(current);
    }

    /** A player who logs in becomes known, and is put into the room they sit in or into the lobby. */
    method Arrive(player: int, roomId: int) returns (coin: int)
      modifies players
      ensures coin == if player in old(players.players) then old(players.players)[player].coin else P.STARTING_COINS
      ensures players.players == P.Forced(P.Upserted(old(players.players), player,
                                                     if player in old(players.players) then 0 else P.STARTING_COINS),
                                          player, StateAtRoom(roomId))
    {
      var known := player in players.players;
      coin := if known then players.players[player].coin else P.STARTING_COINS;
      players.UpsertPlayer(player, if known then 0 else coin);
      if roomId > 0 {
        players.ForceState(player, P.InRoom);
      } else {
        players.ForceState(player, P.Lobby);
      }
    }

    /** A login with a verified ticket: the session is bound, and a player who still sits in a room
        returns to it. */
    method HandleLogin(player: int, connection: int, nowMs: int) returns (reply: LoginReply)
      requires Linked()
      modifies sessions, players, rooms`rooms, rooms`lives
      ensures Linked()
      ensures World() == LoggedIn(old(World()), player, connection, nowMs)
      ensures reply.coin == if player in old(players.players) then old(players.players)[player].coin
                            else P.STARTING_COINS
      ensures reply.roomId == S.RoomIdOf(old(sessions.Table()), player)
      ensures reply.snapshot == if reply.roomId > 0 && reply.roomId in old(rooms.rooms)
                                then Some(R.SnapshotOf(old(rooms.rooms)[reply.roomId])) else None
      ensures reply.oldConnection == if player in old(sessions.sessions) && old(sessions.sessions)[player].online
                                     then Some(old(sessions.sessions)[player].connectionId) else None
      ensures rooms.rooms == if reply.snapshot.Some?
                             then RM.Marked(old(rooms.rooms), rooms.playerToRoom, player, RM.BackAgain)
                             else old(rooms.rooms)
      ensures old(Running()) && player > 0 ==> Running()
    {
      StaysSound(World(), Login(player, connection, nowMs));
      var roomId := if player in sessions.sessions then sessions.sessions[player].roomId else S.NO_ROOM;
      var coin := Arrive(player, roomId);
      var oldConnection := sessions.BindLogin(player, connection, nowMs);
      assert World() == LoggedIn(old(World()), player, connection, nowMs);
      var snapshot := Rejoin(player, roomId);
      reply := LoginReply(coin, roomId, snapshot, oldConnection);
    }

    /** A request to be matched; `requested` is the number it names, if it names one. */
    method HandleMatch(connection: int, requested: Option<int>, nowMs: int) returns (code: Code, roomId: Option<int>)
      requires Linked()
      modifies sessions, players, matching, rooms
      ensures Linked()
      ensures World() == MatchRequested(old(World()), connection, ParseMode(requested), nowMs)
      ensures code == Ok <==> CanMatch(old(World()), connection, ParseMode(requested), nowMs)
      ensures code == MatchAnswer(old(World()), connection, ParseMode(requested))
      ensures roomId == if rooms.nextRoomId == old(rooms.nextRoomId) then None else Some(old(rooms.nextRoomId))
      ensures old(Running()) ==> Running()
    {
      var mode := ParseMode(requested);
      StaysSound(World(), Match(connection, mode, nowMs));
      roomId := None;
      if connection !in sessions.connToPlayer {
        return NotLogin, None;
      }
      var player := sessions.connToPlayer[connection];
      if mode.None? {
        return MatchModeInvalid, None;
      }
      var state := P.StateOf(players.players, player);
      if state != P.Lobby {
        if state == P.InRoom || state == P.Playing || state == P.Settlement {
          return PlayerAlreadyInRoom, None;
        }
        return InvalidPlayerState, None;
      }
      var joined;
      joined, roomId := Enqueue(player, mode.value, nowMs);
      code := if joined then Ok else PlayerAlreadyMatching;
    }

    /** Puts a player from the lobby into the queue, and seats the first players of the queue if there
        are now enough of them. */
    method Enqueue(player: int, mode: int, nowMs: int) returns (joined: bool, roomId: Option<int>)
      requires Linked() && P.StateOf(players.players, player) == P.Lobby
      modifies sessions, players, matching, rooms
      ensures Linked()
      ensures joined <==> M.Joined(old(matching.View()), MatchEntry(old(World()), player, mode, nowMs)).Some?
      ensures !joined ==> World() == old(World())
      ensures joined ==>
                var w := old(World());
                World() == SeatedTogether(
                             w.(queues := M.Joined(w.queues, MatchEntry(w, player, mode, nowMs)).value,
                                players := EnteredMatching(w.players, player)), mode)
      ensures roomId == if rooms.nextRoomId == old(rooms.nextRoomId) then None else Some(old(rooms.nextRoomId))
    {
      roomId := None;
      joined := matching.Join(M.MatchPlayer(player, nowMs, P.CoinOf(players.players, player), mode));
      if !joined {
        return;
      }
      var changed := players.SetState(player, P.Matching);
      var matched := matching.TryPopMatchedPlayers(mode);
      if matched.Some? {
        var id := SeatTogether(mode, matched.value);
        roomId := Some(id);
      }
    }

    /** Opens a room for the players and moves their sessions and states into it. */
    method SeatTogether(mode: int, ids: seq<int>) returns (roomId: int)
      requires Linked()
      modifies sessions, players, rooms
      ensures Linked()
      ensures roomId == old(rooms.nextRoomId) && roomId !in old(rooms.rooms) && rooms.nextRoomId == roomId + 1
      ensures SeatsIn(rooms) == Opened(old(SeatsIn(rooms)), ids)
      ensures roomId in rooms.rooms
      ensures sessions.Table() == S.PlacedAll(old(sessions.Table()), ids, roomId, |ids|)
      ensures players.players == P.ForcedAll(old(players.players), ids, P.InRoom, |ids|)
    {
      roomId := rooms.CreateRoom(mode, ids);
      OneRoomMore(old(rooms.rooms), roomId, R.NewRoom(roomId, mode, ids));
      MoveIn(ids, roomId);
    }

    method MoveIn(ids: seq<int>, roomId: int)
      modifies sessions, players
      ensures sessions.Table() == S.PlacedAll(old(sessions.Table()), ids, roomId, |ids|)
      ensures players.players == P.ForcedAll(old(players.players), ids, P.InRoom, |ids|)
    {
      for i := 0 to |ids|
        invariant sessions.Table() == S.PlacedAll(old(sessions.Table()), ids, roomId, i)
        invariant players.players == P.ForcedAll(old(players.players), ids, P.InRoom, i)
      {
        var placed := sessions.SetRoomId(ids[i], roomId);
        players.ForceState(ids[i], P.InRoom);
      }
    }

    method HandleCancelMatch(connection: int) returns (code: Code)
      requires Linked()
      modifies players, matching
      ensures Linked()
      ensures World() == CancelRequested(old(World()), connection)
      ensures code == CancelAnswer(old(World()), connection)
      ensures old(Running()) ==> Running()
    {
      StaysSound(World(), CancelMatch(connection));
      if connection !in sessions.connToPlayer {
        return NotLogin;
      }
      var player := sessions.connToPlayer[connection];
      if P.StateOf(players.players, player) != P.Matching {
        return InvalidPlayerState;
      }
      var cancelled := matching.Cancel(player);
      if !cancelled {
        return MatchCancelFailed;
      }
      players.ForceState(player, P.Lobby);
      return Ok;
    }

    method HandleMatchTimeout(nowMs: int, timeoutMs: int) returns (out: seq<M.MatchPlayer>)
      requires Linked()
      modifies players, matching
      ensures Linked()
      ensures World() == MatchTimedOut(old(World()), nowMs, timeoutMs)
      ensures out == M.TimedOut(old(matching.View()), nowMs, timeoutMs)
      ensures old(Running()) ==> Running()
    {
      StaysSound(World(), MatchTimeout(nowMs, timeoutMs));
      out := matching.PopTimeoutPlayers(nowMs, timeoutMs);
      ReturnToLobby(out);
    }

    method ReturnToLobby(entries: seq<M.MatchPlayer>)
      modifies players
      ensures players.players == BackInLobby(old(players.players), entries, |entries|)
    {
      for i := 0 to |entries|
        invariant players.players == BackInLobby(old(players.players), entries, i)
      {
        if P.StateOf(players.players, entries[i].playerId) == P.Matching {
          players.ForceState(entries[i].playerId, P.Lobby);
        }
      }
    }

    /** A reconnection with a verified token. It is answered with OK exactly when the client's version is
        that of the room, and otherwise with the room's snapshot to take over. */
    method HandleReconnect(player: int, roomId: int, lastVersion: int, connection: int, nowMs: int)
      returns (code: Code, snapshot: Option<R.RoomSnapshot>, oldConnection: Option<int>)
      requires Linked()
      modifies sessions, players, rooms`rooms, rooms`lives
      ensures Linked()
      ensures World() == Reconnected(old(World()), player, roomId, connection, nowMs)
      ensures code == NotLogin <==> player !in old(sessions.sessions)
      ensures code == ReconnectRoomMismatch <==>
                player in old(sessions.sessions) && old(sessions.sessions)[player].roomId != roomId
      ensures code in {Ok, SnapshotVersionConflict} && roomId in old(rooms.rooms) ==>
                && snapshot == Some(R.SnapshotOf(old(rooms.rooms)[roomId]))
                && (code == Ok <==> old(rooms.rooms)[roomId].snapshotVersion == lastVersion)
      ensures code in {Ok, SnapshotVersionConflict} && roomId !in old(rooms.rooms) ==>
                snapshot == None && (code == Ok <==> roomId > 0 || lastVersion == 0)
      ensures oldConnection == if code in {Ok, SnapshotVersionConflict} then
                                 S.TakenOverFrom(old(sessions.Table()), player, connection) else None
      ensures rooms.rooms == if snapshot.Some? then
                               RM.Marked(old(rooms.rooms), rooms.playerToRoom, player, RM.BackAgain)
                             else old(rooms.rooms)
      ensures old(Running()) ==> Running()
    {
      StaysSound(World(), Reconnect(player, roomId, connection, nowMs));
      snapshot, oldConnection := None, None;
      if player !in sessions.sessions {
        return NotLogin, None, None;
      }
      if sessions.sessions[player].roomId != roomId {
        return ReconnectRoomMismatch, None, None;
      }
      oldConnection := MoveTo(player, roomId, connection, nowMs);
      if roomId > 0 {
        snapshot := Rejoin(player, roomId);
        code := if snapshot.Some? && snapshot.value.snapshotVersion != lastVersion then SnapshotVersionConflict else Ok;
      } else {
        code := if lastVersion == 0 then Ok else SnapshotVersionConflict;
      }
    }

    /** Moves the session to the connection, and the player back into the room or the lobby. */
    method MoveTo(player: int, roomId: int, connection: int, nowMs: int) returns (oldConnection: Option<int>)
      requires player in sessions.sessions && sessions.sessions[player].roomId == roomId
      modifies sessions, players
      ensures World() == Reconnected(old(World()), player, roomId, connection, nowMs)
      ensures oldConnection == S.TakenOverFrom(old(sessions.Table()), player, connection)
    {
      oldConnection := sessions.RebindForReconnect(player, connection, nowMs);
      if roomId > 0 {
        players.ForceState(player, P.InRoom);
      } else {
        players.ForceState(player, P.Lobby);
      }
    }

    method OnConnectionClosed(connection: int, nowMs: int)
      requires Linked()
      modifies sessions, players, matching, rooms`rooms, rooms`lives
      ensures Linked()
      ensures World() == ConnectionClosed(old(World()), connection, nowMs)
      ensures connection in old(sessions.connToPlayer) ==>
                var player := old(sessions.connToPlayer)[connection];
                rooms.rooms == RM.Marked(old(rooms.rooms), rooms.playerToRoom, player, RM.AwaySince(nowMs))
      ensures old(Running()) ==> Running()
    {
      StaysSound(World(), Close(connection, nowMs));
      if connection !in sessions.connToPlayer {
        return;
      }
      var player := sessions.connToPlayer[connection];
      Leave(connection, nowMs);
      NoteAway(player, RM.AwaySince(nowMs));
    }

    /** Takes the player on a connection that is gone out of the queue, and notes that the player is offline. */
    method Leave(connection: int, nowMs: int)
      requires connection in sessions.connToPlayer
      modifies sessions, players, matching
      ensures World() == ConnectionClosed(old(World()), connection, nowMs)
    {
      var player := sessions.connToPlayer[connection];
      if P.StateOf(players.players, player) == P.Matching {
        var cancelled := matching.Cancel(player);
      }
      var marked := sessions.MarkOfflineByConnection(connection, nowMs);
      players.ForceState(player, P.Offline);
    }

    /** Settles a room after its game, or after a player stayed away too long. */
    method SettleRoom(roomId: int, winner: int, baseCoin: int, nowMs: int) returns (result: SS.SettlementResult)
      requires Linked()
      modifies settlement, sessions, players, rooms, storage.playerDao, storage.recordDao, storage.logDao
      ensures Linked() && settlement.settlingRooms == old(settlement.settlingRooms)
      ensures result.code == old(AnswerTo(roomId, winner, baseCoin))
      ensures World() == SettlementDone(old(World()), roomId, winner, baseCoin, result.code == SS.Ok)
      ensures rooms.rooms == RoomsAttempted(old(rooms.rooms), settlement.settlingRooms, roomId,
                                            Some(Attempt(winner, baseCoin, result.code == SS.Ok)))
    {
      ghost var w, before, settling := World(), rooms.rooms, settlement.settlingRooms;
      ghost var answer := AnswerTo(roomId, winner, baseCoin);
      assert w.seats.members == MembersOf(before);
      AnswersAgree(roomId, winner, baseCoin);
      result := settlement.SettleByServerResult(roomId, winner, baseCoin, nowMs);
      assert result.code == answer && settlement.settlingRooms == settling;
      if result.code != SS.Ok {
        if roomId in before {
          MarkedMembers(before, roomId, R.Settling);
        }
        assert World() == w;
      } else {
        OneRoomLess(before, roomId);
        SettlementGoesThrough(w, roomId, winner, baseCoin);
      }
    }

    lemma AnswersAgree(roomId: int, winner: int, baseCoin: int)
      requires Linked()
      ensures AnswerTo(roomId, winner, baseCoin) == settlement.AnswerTo(roomId, winner, baseCoin)
    {
      if roomId in rooms.rooms {
        assert MembersOf(rooms.rooms)[roomId] == rooms.rooms[roomId].players;
      }
    }

    /** The step that an action of a player is. */
    ghost function StepOf(roomId: int, player: int, request: R.ActionRequest): R.Step
      requires rooms.Valid() && roomId in rooms.rooms
      reads rooms
    {
      var room := rooms.rooms[roomId];
      R.Act(room.game, room.players, rooms.deckOf(roomId), player, request)
    }

    /** What an action of a player would come to. */
    ghost function OutcomeOf(roomId: int, player: int, request: R.ActionRequest): R.Outcome
      requires rooms.Valid()
      reads rooms
    {
      if roomId in rooms.rooms then StepOf(roomId, player, request).outcome else R.Rejected(R.RoomNotFound)
    }

    /** The rooms after an action of a player. */
    ghost function Stepped(roomId: int, player: int, request: R.ActionRequest): map<int, R.Room>
      requires rooms.Valid()
      reads rooms
    {
      if roomId in rooms.rooms
      then rooms.rooms[roomId := R.Stepped(rooms.rooms[roomId], StepOf(roomId, player, request))] else rooms.rooms
    }

    ghost predicate EndsGame(roomId: int, player: int, request: R.ActionRequest)
      requires rooms.Valid()
      reads rooms
    {
      OutcomeOf(roomId, player, request).Accepted? && OutcomeOf(roomId, player, request).gameOver
    }

    /** Has the action applied to the room; nobody's seat changes. */
    method Play(roomId: int, player: int, request: R.ActionRequest) returns (answer: RM.ActionAnswer)
      requires Linked()
      modifies rooms`rooms, rooms`lives
      ensures Linked() && World() == old(World())
      ensures rooms.rooms == old(Stepped(roomId, player, request))
      ensures match old(OutcomeOf(roomId, player, request))
              case Rejected(error) => answer == RM.Refused(error)
              case Accepted(gameOver, winner, baseCoin) =>
                && answer.Done? && answer.result.gameOver == gameOver && answer.result.winner == winner
                && answer.result.baseCoin == baseCoin
    {
      answer := rooms.ApplyPlayerAction(roomId, player, request);
      SameMembers(old(rooms.rooms), rooms.rooms);
    }

    /** An action of a player. If it ends the game, the room is settled right away. */
    method PlayAndSettle(roomId: int, player: int, request: R.ActionRequest, nowMs: int)
      returns (code: Code, settled: Option<SS.SettlementResult>)
      requires Linked()
      modifies settlement, sessions, players, rooms, storage.playerDao, storage.recordDao, storage.logDao
      ensures Linked() && settlement.settlingRooms == old(settlement.settlingRooms)
      ensures settled.Some? <==> old(EndsGame(roomId, player, request))
      ensures code == ActionAnswer(old(OutcomeOf(roomId, player, request)), settled)
      ensures World() == Attempted(old(World()), roomId, AttemptAfter(old(OutcomeOf(roomId, player, request)), settled))
      ensures rooms.rooms == RoomsAttempted(old(Stepped(roomId, player, request)), settlement.settlingRooms, roomId,
                                            AttemptAfter(old(OutcomeOf(roomId, player, request)), settled))
      ensures settled.Some? ==>
                var outcome := old(OutcomeOf(roomId, player, request));
                settled.value.code == old(AnswerTo(roomId, outcome.winner, outcome.baseCoin))
    {
      settled := None;
      ghost var outcome, stepped, w := OutcomeOf(roomId, player, request), Stepped(roomId, player, request), World();
      var answer := Play(roomId, player, request);
      assert World() == w && rooms.rooms == stepped;
      if answer.Refused? {
        return InvalidPlayerState, None;
      }
      assert outcome.Accepted? && answer.result.gameOver == outcome.gameOver;
      code := Ok;
      if answer.result.gameOver {
        var result := SettleRoom(roomId, answer.result.winner, answer.result.baseCoin, nowMs);
        settled := Some(result);
        assert AttemptAfter(outcome, settled) ==
               Some(Attempt(answer.result.winner, answer.result.baseCoin, result.code == SS.Ok));
        if result.code != SS.Ok {
          code := NotSettled(result.code);
        }
      }
    }

    /** In a running server, who ends a game can be paid for it unless storage is made to fail. */
    lemma EndedGamesAreSettled(roomId: int, player: int, request: R.ActionRequest)
      requires Linked() && Running() && EndsGame(roomId, player, request)
      ensures
        var outcome := OutcomeOf(roomId, player, request);
        AnswerTo(roomId, outcome.winner, outcome.baseCoin) ==
        if storage.failpoint == St.NoFailpoint then SS.Ok else SS.SettlementFailed
    {
      var outcome := OutcomeOf(roomId, player, request);
      WinnerIsSeated(rooms.rooms[roomId], rooms.deckOf(roomId), player, request);
      assert MembersOf(rooms.rooms)[roomId] == rooms.rooms[roomId].players;
      SoundRoomsAreSettled(World(), storage.failpoint, roomId, outcome.winner, outcome.baseCoin);
    }

    /** The same, asked for over a connection. In a running server a game that ends is settled unless storage is
        made to fail. */
    method HandlePlayerAction(connection: int, roomId: int, request: R.ActionRequest, nowMs: int)
      returns (code: Code, settled: Option<SS.SettlementResult>)
      requires Linked()
      modifies settlement, sessions, players, rooms, storage.playerDao, storage.recordDao, storage.logDao
      ensures Linked() && settlement.settlingRooms == old(settlement.settlingRooms)
      ensures connection !in old(sessions.connToPlayer) ==>
                code == NotLogin && settled.None? && World() == old(World()) && unchanged(rooms)
      ensures connection in old(sessions.connToPlayer) ==>
                var player := old(sessions.connToPlayer)[connection];
                var outcome := old(OutcomeOf(roomId, player, request));
                && (settled.Some? <==> old(EndsGame(roomId, player, request)))
                && code == ActionAnswer(outcome, settled)
                && World() == Attempted(old(World()), roomId, AttemptAfter(outcome, settled))
                && rooms.rooms == RoomsAttempted(old(Stepped(roomId, player, request)), settlement.settlingRooms,
                                                 roomId, AttemptAfter(outcome, settled))
                && (settled.Some? ==> settled.value.code == old(AnswerTo(roomId, outcome.winner, outcome.baseCoin)))
      ensures old(Running()) ==> Running()
      ensures old(Running()) && settled.Some? ==>
                settled.value.code == if storage.failpoint == St.NoFailpoint then SS.Ok else SS.SettlementFailed
    {
      if connection !in sessions.connToPlayer {
        return NotLogin, None;
      }
      var player := sessions.connToPlayer[connection];
      ghost var running, w, outcome := Running(), World(), OutcomeOf(roomId, player, request);
      if running && EndsGame(roomId, player, request) {
        EndedGamesAreSettled(roomId, player, request);
      }
      code, settled := PlayAndSettle(roomId, player, request, nowMs);
      AttemptKeepsSound(w, roomId, AttemptAfter(outcome, settled));
    }

    /** Has the trustee act for the player; nobody's seat changes. */
    method PlayForAbsent(roomId: int, player: int) returns (answer: RM.ActionAnswer)
      requires Linked() && roomId in rooms.rooms
      modifies rooms`rooms, rooms`lives
      ensures Linked() && World() == old(World())
      ensures rooms.rooms == ActedFor(old(rooms.rooms), rooms.deckOf, roomId, player)
      ensures answer.Done? <==> TrusteeOutcome(old(rooms.rooms), rooms.deckOf, roomId, player).Accepted?
      ensures answer.Done? ==>
                var outcome := TrusteeOutcome(old(rooms.rooms), rooms.deckOf, roomId, player);
                && answer.result.gameOver == outcome.gameOver && answer.result.winner == outcome.winner
                && answer.result.baseCoin == outcome.baseCoin
    {
      answer := rooms.ApplyTrusteeAction(roomId, player);
      SameMembers(old(rooms.rooms), rooms.rooms);
    }

    /** Notes something about a player's presence; nobody's seat or game changes. */
    method NoteAway(player: int, mark: RM.Mark)
      requires Linked() && (mark.AwaySince? || mark == RM.HandedOver(true))
      modifies rooms`rooms, rooms`lives
      ensures Linked() && World() == old(World())
      ensures rooms.rooms == RM.Marked(old(rooms.rooms), rooms.playerToRoom, player, mark)
    {
      var marked;
      if mark.AwaySince? {
        marked := rooms.MarkPlayerOffline(player, mark.atMs);
      } else {
        marked := rooms.MarkPlayerTrustee(player, true);
      }
      SameMembers(old(rooms.rooms), rooms.rooms);
    }

    /** The turn of a player who has been away long enough for the trustee to take over. If it ends the
        game, the room is settled for the player. */
    method TakeOver(roomId: int, player: int, nowMs: int) returns (attempt: Option<Attempt>)
      requires Linked()
      modifies settlement, sessions, players, rooms, storage.playerDao, storage.recordDao, storage.logDao
      ensures Linked() && settlement.settlingRooms == old(settlement.settlingRooms)
      ensures attempt == old(TrusteeAttempt(State(), Conditions(), roomId, player))
      ensures World() == Attempted(old(World()), roomId, attempt)
      ensures rooms.rooms ==
              RoomsAttempted(
                ActedFor(RM.Marked(old(rooms.rooms), old(rooms.playerToRoom), player, RM.HandedOver(true)),
                         rooms.deckOf, roomId, player),
                settlement.settlingRooms, roomId, attempt)
    {
      attempt := None;
      MarkKeepsGames(rooms.rooms, rooms.playerToRoom, player, RM.HandedOver(true), rooms.deckOf, roomId);
      ghost var w := World();
      NoteAway(player, RM.HandedOver(true));
      if roomId !in rooms.rooms || rooms.rooms[roomId].game.operator != player {
        return;
      }
      var answer := PlayForAbsent(roomId, player);
      assert World() == w;
      if answer.Done? && answer.result.gameOver {
        var result := SettleRoom(roomId, answer.result.winner, answer.result.baseCoin, nowMs);
        attempt := Some(Attempt(answer.result.winner, answer.result.baseCoin, result.code == SS.Ok));
      }
    }

    /** A player who stays away too long loses the room to the first other player in it. */
    method LoseByAbsence(roomId: int, player: int, nowMs: int) returns (attempt: Option<Attempt>)
      requires Linked()
      modifies settlement, sessions, players, rooms, storage.playerDao, storage.recordDao, storage.logDao
      ensures Linked() && settlement.settlingRooms == old(settlement.settlingRooms)
      ensures attempt == old(AbsenceAttempt(World(), Conditions(), roomId, player))
      ensures World() == Attempted(old(World()), roomId, attempt)
      ensures rooms.rooms == RoomsAttempted(old(rooms.rooms), settlement.settlingRooms, roomId, attempt)
    {
      attempt := None;
      if roomId in rooms.rooms {
        assert MembersOf(rooms.rooms)[roomId] == rooms.rooms[roomId].players;
      }
      var winner := rooms.PickWinnerForOfflineLose(roomId, player);
      if winner.None? {
        return;
      }
      var result := SettleRoom(roomId, winner.value, 1, nowMs);
      attempt := Some(Attempt(winner.value, 1, result.code == SS.Ok));
    }

    /** What the timer does about one session, of which it holds a copy that may be out of date: it notes
        that the player is back or away, lets the trustee act, and settles the room if that ended the game
        or if the player has been away too long. */
    method TimerTick(session: S.Session, nowMs: int) returns (byTrustee: Option<Attempt>, byAbsence: Option<Attempt>)
      requires Linked()
      modifies settlement, sessions, players, rooms, storage.playerDao, storage.recordDao, storage.logDao
      ensures Linked() && settlement.settlingRooms == old(settlement.settlingRooms)
      ensures byTrustee == old(ByTrustee(State(), Conditions(), session, nowMs))
      ensures byAbsence == old(ByAbsence(State(), Conditions(), session, nowMs))
      ensures State() == old(Ticked(State(), Conditions(), session, nowMs))
      ensures old(Running()) ==> Running()
    {
      if Running() {
        TickSettles(State(), Conditions(), session, nowMs);
      }
      if session.roomId <= 0 {
        return None, None;
      }
      if session.online {
        IsBack(session.playerId);
        return None, None;
      }
      if session.offlineAtMs <= 0 {
        return None, None;
      }
      byTrustee, byAbsence := AttendTo(session, nowMs);
    }

    /** The same for a session in a room that is known to be offline. */
    method AttendTo(session: S.Session, nowMs: int) returns (byTrustee: Option<Attempt>, byAbsence: Option<Attempt>)
      requires Linked()
      requires session.roomId > 0 && !session.online && session.offlineAtMs > 0
      modifies settlement, sessions, players, rooms, storage.playerDao, storage.recordDao, storage.logDao
      ensures Linked() && settlement.settlingRooms == old(settlement.settlingRooms)
      ensures byTrustee == old(ByTrustee(State(), Conditions(), session, nowMs))
      ensures byAbsence == old(ByAbsence(State(), Conditions(), session, nowMs))
      ensures State() == old(Ticked(State(), Conditions(), session, nowMs))
    {
      ghost var w, conditions := World(), Conditions();
      var roomId, player := session.roomId, session.playerId;
      byTrustee, byAbsence := None, None;
      MarkKeepsGames(rooms.rooms, rooms.playerToRoom, player, RM.AwaySince(session.offlineAtMs), rooms.deckOf, roomId);
      NoteAway(player, RM.AwaySince(session.offlineAtMs));
      if nowMs - session.offlineAtMs >= TRUSTEE_ENTER_MS {
        byTrustee := TakeOver(roomId, player, nowMs);
      }
      AfterAnAttempt(w, conditions.settling, conditions.failpoint, roomId, player, byTrustee);
      assert Conditions() == conditions;
      if nowMs - session.offlineAtMs >= R.OFFLINE_LOSE_MS {
        byAbsence := LoseByAbsence(roomId, player, nowMs);
      }
    }

    /** One round of the timer over all sessions, of which it has taken copies. */
    method TimerRound(all: seq<S.Session>, nowMs: int)
      requires Linked()
      modifies settlement, sessions, players, rooms, storage.playerDao, storage.recordDao, storage.logDao
      ensures Linked() && settlement.settlingRooms == old(settlement.settlingRooms)
      ensures State() == old(TickedAll(State(), Conditions(), all, nowMs, |all|))
      ensures old(Running()) ==> Running()
    {
      ghost var state, conditions := State(), Conditions();
      for i := 0 to |all|
        invariant Linked() && settlement.settlingRooms == old(settlement.settlingRooms)
        invariant State() == TickedAll(state, conditions, all, nowMs, i)
        invariant old(Running()) ==> Running()
      {
        var byTrustee, byAbsence := TimerTick(all[i], nowMs);
      }
    }
  }
}
