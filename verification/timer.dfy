/** What the timer does, as a function of the server's state: who is seen to be away, for whom the trustee acts,
    and which rooms are settled. */
module TimerSteps {
  import opened Basics
  import opened Membership
  import opened InService
  import opened ServerSteps
  import opened RoomSnapshots
  import RoomRuns
  import RoomVersions

  /** Who waits and sits where, and the rooms themselves. */
  datatype ServerState = ServerState(world: World, rooms: map<int, R.Room>)

  /** What the timer's settlements depend on besides that. */
  datatype Conditions = Conditions(settling: set<int>, failpoint: St.Failpoint, deckOf: int -> seq<int>)

  /** The attempt to settle the room after the trustee has ended the game for the player. */
  ghost function TrusteeAttempt(s: ServerState, c: Conditions, roomId: int, player: int): Option<Attempt>
    requires HasDecks(c.deckOf)
  {
    var outcome := TrusteeOutcome(s.rooms, c.deckOf, roomId, player);
    if outcome.Accepted? && outcome.gameOver then Some(AttemptFor(s.world, c, roomId, outcome.winner, outcome.baseCoin))
    else None
  }

  /** The attempt to settle the room for the first player other than this one. */
  ghost function AbsenceAttempt(w: World, c: Conditions, roomId: int, player: int): Option<Attempt> {
    match WinnerByAbsence(w, roomId, player)
    case Some(winner) => Some(AttemptFor(w, c, roomId, winner, 1))
    case None => None
  }

  /** What the trustee comes to for a player who has been away long enough. */
  ghost function ByTrustee(s: ServerState, c: Conditions, session: S.Session, nowMs: int): Option<Attempt>
    requires HasDecks(c.deckOf)
  {
    if AwayFor(session, nowMs, TRUSTEE_ENTER_MS) then TrusteeAttempt(s, c, session.roomId, session.playerId) else None
  }

  /** What absence comes to for a player who has been away too long, unless the trustee got the room settled. */
  ghost function ByAbsence(s: ServerState, c: Conditions, session: S.Session, nowMs: int): Option<Attempt>
    requires HasDecks(c.deckOf)
  {
    if AwayFor(session, nowMs, R.OFFLINE_LOSE_MS) && !Succeeded(ByTrustee(s, c, session, nowMs))
    then AbsenceAttempt(s.world, c, session.roomId, session.playerId) else None
  }

  ghost function AttemptFor(w: World, c: Conditions, roomId: int, winner: int, baseCoin: int): Attempt {
    Attempt(winner, baseCoin, SettleAnswer(w, c.settling, c.failpoint, roomId, winner, baseCoin) == SS.Ok)
  }

  ghost function AfterAttempt(s: ServerState, c: Conditions, roomId: int, attempt: Option<Attempt>): ServerState {
    ServerState(Attempted(s.world, roomId, attempt), RoomsAttempted(s.rooms, c.settling, roomId, attempt))
  }

  /** The state after the timer has seen to one session. */
  ghost function Ticked(s: ServerState, c: Conditions, session: S.Session, nowMs: int): ServerState
    requires HasDecks(c.deckOf)
  {
    var noted := ServerState(s.world, Noted(s.rooms, s.world.seats.roomOf, c.deckOf, session, nowMs));
    AfterAttempt(
      AfterAttempt(noted, c, session.roomId, ByTrustee(s, c, session, nowMs)),
      c, session.roomId, ByAbsence(s, c, session, nowMs))
  }

  /** The state after the timer has seen to the first n sessions. */
  ghost function TickedAll(s: ServerState, c: Conditions, all: seq<S.Session>, nowMs: int, n: nat): ServerState
    requires n <= |all| && HasDecks(c.deckOf)
  {
    if n == 0 then s else Ticked(TickedAll(s, c, all, nowMs, n - 1), c, all[n - 1], nowMs)
  }

  // ----- a server in service

  /** The server is in service, and no settlement is under way. */
  ghost predicate IsRunning(s: ServerState, c: Conditions) {
    IsSound(s.world) && MembersOf(s.rooms) == s.world.seats.members && c.settling == {} && HasDecks(c.deckOf)
  }

  lemma AttemptsSucceed(s: ServerState, c: Conditions, session: S.Session, nowMs: int)
    requires IsRunning(s, c)
    ensures
      var byTrustee := ByTrustee(s, c, session, nowMs);
      byTrustee.Some? ==>
        session.roomId in s.rooms && (Succeeded(byTrustee) <==> c.failpoint == St.NoFailpoint)
    ensures
      var byTrustee, byAbsence := ByTrustee(s, c, session, nowMs), ByAbsence(s, c, session, nowMs);
      && (byAbsence.Some? <==>
          AwayFor(session, nowMs, R.OFFLINE_LOSE_MS) && !Succeeded(byTrustee) && session.roomId in s.rooms)
      && (byAbsence.Some? ==> (Succeeded(byAbsence) <==> c.failpoint == St.NoFailpoint))
  {
    var roomId, player := session.roomId, session.playerId;
    SoundRoomsHaveAWinner(s.world, roomId, player);
    if roomId in s.rooms {
      assert MembersOf(s.rooms)[roomId] == s.rooms[roomId].players;
      TrusteeIsSeated(s.rooms[roomId], c.deckOf(roomId), player);
      if ByTrustee(s, c, session, nowMs).Some? {
        var outcome := TrusteeOutcome(s.rooms, c.deckOf, roomId, player);
        SoundRoomsAreSettled(s.world, c.failpoint, roomId, outcome.winner, outcome.baseCoin);
      }
      SoundRoomsAreSettled(s.world, c.failpoint, roomId, WinnerByAbsence(s.world, roomId, player).value, 1);
    }
  }

  lemma MarkKeepsMembers(rooms: map<int, R.Room>, index: map<int, int>, player: int, mark: RM.Mark)
    ensures MembersOf(RM.Marked(rooms, index, player, mark)) == MembersOf(rooms)
  {
    SameMembers(rooms, RM.Marked(rooms, index, player, mark));
  }

  lemma ActingKeepsMembers(rooms: map<int, R.Room>, deckOf: int -> seq<int>, roomId: int, player: int)
    requires HasDecks(deckOf)
    ensures MembersOf(ActedFor(rooms, deckOf, roomId, player)) == MembersOf(rooms)
  {
    SameMembers(rooms, ActedFor(rooms, deckOf, roomId, player));
  }

  lemma NotedKeepsMembers(rooms: map<int, R.Room>, index: map<int, int>, deckOf: int -> seq<int>, session: S.Session,
                          nowMs: int)
    requires HasDecks(deckOf)
    ensures MembersOf(Noted(rooms, index, deckOf, session, nowMs)) == MembersOf(rooms)
  {
    var player, away := session.playerId, RM.AwaySince(session.offlineAtMs);
    var noted := RM.Marked(rooms, index, player, away);
    var handedOver := RM.Marked(noted, index, player, RM.HandedOver(true));
    MarkKeepsMembers(rooms, index, player, RM.BackAgain);
    MarkKeepsMembers(rooms, index, player, away);
    MarkKeepsMembers(noted, index, player, RM.HandedOver(true));
    ActingKeepsMembers(handedOver, deckOf, session.roomId, player);
  }

  lemma AttemptKeepsRunning(s: ServerState, c: Conditions, roomId: int, attempt: Option<Attempt>)
    requires IsRunning(s, c)
    requires Succeeded(attempt) ==> attempt == Some(AttemptFor(s.world, c, roomId, attempt.value.winner,
                                                               attempt.value.baseCoin))
    ensures
      var after := AfterAttempt(s, c, roomId, attempt);
      && IsRunning(after, c)
      && after.rooms.Keys == s.rooms.Keys - (if Succeeded(attempt) then {roomId} else {})
      && (!Succeeded(attempt) ==> after.world == s.world)
  {
    AttemptKeepsSound(s.world, roomId, attempt);
    OneRoomLess(s.rooms, roomId);
    if roomId in s.rooms {
      MarkedMembers(s.rooms, roomId, R.Settling);
    }
  }

  /** Seeing to one session keeps the server in service, and settles the room exactly if the player loses it by
      absence, or the trustee ends the game, and storage is not made to fail. */
  lemma TickSettles(s: ServerState, c: Conditions, session: S.Session, nowMs: int)
    requires IsRunning(s, c)
    ensures
      var after := Ticked(s, c, session, nowMs);
      && IsRunning(after, c)
      && after.rooms.Keys ==
         s.rooms.Keys - (if (ByTrustee(s, c, session, nowMs).Some? || AwayFor(session, nowMs, R.OFFLINE_LOSE_MS))
                            && c.failpoint == St.NoFailpoint then {session.roomId} else {})
  {
    var roomId := session.roomId;
    var byTrustee, byAbsence := ByTrustee(s, c, session, nowMs), ByAbsence(s, c, session, nowMs);
    AttemptsSucceed(s, c, session, nowMs);
    NotedKeepsMembers(s.rooms, s.world.seats.roomOf, c.deckOf, session, nowMs);
    var noted := ServerState(s.world, Noted(s.rooms, s.world.seats.roomOf, c.deckOf, session, nowMs));
    assert noted.rooms.Keys == MembersOf(noted.rooms).Keys == MembersOf(s.rooms).Keys == s.rooms.Keys;
    AttemptKeepsRunning(noted, c, roomId, byTrustee);
    AttemptKeepsRunning(AfterAttempt(noted, c, roomId, byTrustee), c, roomId, byAbsence);
  }

  // ----- when storage fails

  lemma MarkKeepsGame(rooms: map<int, R.Room>, index: map<int, int>, player: int, mark: RM.Mark, roomId: int)
    requires roomId in rooms
    ensures roomId in RM.Marked(rooms, index, player, mark)
    ensures RM.Marked(rooms, index, player, mark)[roomId].game == rooms[roomId].game
    ensures RM.Marked(rooms, index, player, mark)[roomId].players == rooms[roomId].players
  {
  }

  /** What is noted of an absent player's room ends its game exactly if the trustee does. */
  lemma NotedEnds(s: ServerState, c: Conditions, session: S.Session, nowMs: int)
    requires IsRunning(s, c) && session.roomId in s.rooms
    ensures
      var roomId := session.roomId;
      var noted := Noted(s.rooms, s.world.seats.roomOf, c.deckOf, session, nowMs);
      roomId in noted && (RoomRuns.IsOver(noted[roomId].game) <==>
                          RoomRuns.IsOver(s.rooms[roomId].game) || ByTrustee(s, c, session, nowMs).Some?)
  {
    var index, roomId, player := s.world.seats.roomOf, session.roomId, session.playerId;
    var away := RM.AwaySince(session.offlineAtMs);
    var noted := RM.Marked(s.rooms, index, player, away);
    MarkKeepsGame(s.rooms, index, player, RM.BackAgain, roomId);
    MarkKeepsGame(s.rooms, index, player, away, roomId);
    MarkKeepsGame(noted, index, player, RM.HandedOver(true), roomId);
    RoomRuns.TrusteeEndsByWinning(s.rooms[roomId].game, s.rooms[roomId].players, c.deckOf(roomId), player);
  }

  /** Whoever wins in a running server, nothing but storage keeps the settlement from going through. */
  lemma AttemptsBegin(s: ServerState, c: Conditions, session: S.Session, nowMs: int)
    requires IsRunning(s, c) && session.roomId in s.rooms
    ensures
      forall attempt :: attempt in {ByTrustee(s, c, session, nowMs), ByAbsence(s, c, session, nowMs)} ==>
                          attempt.Some? ==>
                            Begins(c.settling, session.roomId, attempt.value.winner, attempt.value.baseCoin)
  {
    var roomId, player := session.roomId, session.playerId;
    assert MembersOf(s.rooms)[roomId] == s.rooms[roomId].players;
    SoundRoomsAreSeated(s.world, roomId);
    TrusteeIsSeated(s.rooms[roomId], c.deckOf(roomId), player);
  }

  /** A game that is under way in a room that stays is stopped by the timer exactly if storage is made to fail,
      and the trustee wins or the player has been away too long: the room is marked before anything is stored. */
  lemma FailureStopsTheGame(s: ServerState, c: Conditions, session: S.Session, nowMs: int)
    requires IsRunning(s, c) && session.roomId in s.rooms && !RoomRuns.IsOver(s.rooms[session.roomId].game)
    ensures
      var after := Ticked(s, c, session, nowMs);
      session.roomId in after.rooms ==>
        (RoomRuns.IsOver(after.rooms[session.roomId].game) <==>
         && c.failpoint != St.NoFailpoint
         && (ByTrustee(s, c, session, nowMs).Some? || AwayFor(session, nowMs, R.OFFLINE_LOSE_MS)))
  {
    AttemptsSucceed(s, c, session, nowMs);
    AttemptsBegin(s, c, session, nowMs);
    NotedEnds(s, c, session, nowMs);
  }

  // ----- what clients see of it

  /** The room that the index names for a seated player of a running server. */
  lemma IndexNamesTheRoom(s: ServerState, c: Conditions, roomId: int, player: int)
    requires IsRunning(s, c) && roomId in s.rooms && player in s.rooms[roomId].players
    ensures roomId > 0 && player in s.world.seats.roomOf && s.world.seats.roomOf[player] == roomId
  {
    assert MembersOf(s.rooms)[roomId] == s.rooms[roomId].players;
  }

  /** What is noted of the player and of the game of their room. */
  ghost predicate IsNotedIn(before: R.Room, after: R.Room, deck: seq<int>, session: S.Session, nowMs: int)
    requires |deck| == Cards.DECK_SIZE
  {
    var player, since := session.playerId, AwaySince(before.presence, session.playerId);
    var away := AwayFor(session, nowMs, TRUSTEE_ENTER_MS);
    && (if session.online then SeenAs(after.presence, player, true, false, 0)
        else SeenAs(after.presence, player, false, away || R.IsTrustee(before.presence, player),
                    if !R.IsOnline(before.presence, player) && since > 0 then since else session.offlineAtMs))
    && after.game == (if away && before.game.operator == player
                      then R.ActTrustee(before.game, before.players, deck, player).game else before.game)
  }

  lemma NotedIsSeen(s: ServerState, c: Conditions, session: S.Session, nowMs: int)
    requires IsRunning(s, c) && session.roomId in s.rooms && session.playerId in s.rooms[session.roomId].players
    requires RoomVersions.Present(s.rooms[session.roomId].players, s.rooms[session.roomId].presence)
    requires session.online || session.offlineAtMs > 0
    ensures
      var roomId, noted := session.roomId, Noted(s.rooms, s.world.seats.roomOf, c.deckOf, session, nowMs);
      roomId in noted && IsNotedIn(s.rooms[roomId], noted[roomId], c.deckOf(roomId), session, nowMs)
  {
    var roomId, player, index := session.roomId, session.playerId, s.world.seats.roomOf;
    var room := s.rooms[roomId];
    IndexNamesTheRoom(s, c, roomId, player);
    if session.online {
      ReturnIsSeen(room, player);
    } else {
      LeavingIsSeen(room, player, session.offlineAtMs);
      var left := R.WentOffline(room, player, session.offlineAtMs).value;
      assert RM.Marked(s.rooms, index, player, RM.AwaySince(session.offlineAtMs)) == s.rooms[roomId := left];
      HandoverIsSeen(left, player, true);
    }
  }

  /** After the timer has seen to a session, the room, if it is still there, shows whether its player is there; who has
      been away for half a minute is in the hands of the trustee, who has acted if it was their turn. */
  lemma TickIsSeen(s: ServerState, c: Conditions, session: S.Session, nowMs: int)
    requires IsRunning(s, c) && session.roomId in s.rooms && session.playerId in s.rooms[session.roomId].players
    requires RoomVersions.Present(s.rooms[session.roomId].players, s.rooms[session.roomId].presence)
    requires (session.online || session.offlineAtMs > 0) && c.failpoint == St.NoFailpoint
    ensures
      var roomId, after := session.roomId, Ticked(s, c, session, nowMs).rooms;
      roomId in after ==> IsNotedIn(s.rooms[roomId], after[roomId], c.deckOf(roomId), session, nowMs)
  {
    NotedIsSeen(s, c, session, nowMs);
    AttemptsSucceed(s, c, session, nowMs);
  }

  // ----- rounds

  /** Somebody in the list has been away from the room for so long. */
  ghost predicate IsAwayFrom(all: seq<S.Session>, roomId: int, nowMs: int, ms: int) {
    exists session :: session in all && session.roomId == roomId && AwayFor(session, nowMs, ms)
  }

  lemma OneMoreAway(all: seq<S.Session>, n: nat, roomId: int, nowMs: int, ms: int)
    requires 0 < n <= |all|
    ensures
      IsAwayFrom(all[..n], roomId, nowMs, ms) <==>
      IsAwayFrom(all[..n - 1], roomId, nowMs, ms) || (all[n - 1].roomId == roomId && AwayFor(all[n - 1], nowMs, ms))
  {
    assert all[..n] == all[..n - 1] + [all[n - 1]];
    assert all[n - 1] in all[..n];
  }

  /** What a round over these sessions does to a room. */
  ghost predicate FateIs(after: ServerState, c: Conditions, seen: seq<S.Session>, roomId: int, nowMs: int) {
    if c.failpoint != St.NoFailpoint then roomId in after.rooms
    else
      && (IsAwayFrom(seen, roomId, nowMs, R.OFFLINE_LOSE_MS) ==> roomId !in after.rooms)
      && (roomId !in after.rooms ==> IsAwayFrom(seen, roomId, nowMs, TRUSTEE_ENTER_MS))
  }

  /** A round of the timer keeps the server in service. If storage is not made to fail, then the rooms that
      somebody has been away from for two minutes are gone, and of the others only such as somebody has been away
      from for half a minute. If it is made to fail, no room is gone. */
  lemma {:induction false} RoundSettles(s: ServerState, c: Conditions, all: seq<S.Session>, nowMs: int, n: nat)
    requires n <= |all| && IsRunning(s, c)
    ensures
      var after := TickedAll(s, c, all, nowMs, n);
      && IsRunning(after, c) && after.rooms.Keys <= s.rooms.Keys
      && forall r :: r in s.rooms ==> FateIs(after, c, all[..n], r, nowMs)
  {
    if n > 0 {
      var before, last := TickedAll(s, c, all, nowMs, n - 1), all[n - 1];
      RoundSettles(s, c, all, nowMs, n - 1);
      var after := TickedAll(s, c, all, nowMs, n);
      TickSettles(before, c, last, nowMs);
      forall r | r in s.rooms
        ensures FateIs(after, c, all[..n], r, nowMs)
      {
        OneMoreAway(all, n, r, nowMs, R.OFFLINE_LOSE_MS);
        OneMoreAway(all, n, r, nowMs, TRUSTEE_ENTER_MS);
      }
    }
  }

  /** So after a round over all sessions, no live room seats a player who had been away for two minutes, unless
      storage is made to fail. */
  lemma NobodyIsAwayForLong(s: ServerState, c: Conditions, all: seq<S.Session>, nowMs: int, roomId: int, player: int)
    requires IsRunning(s, c) && c.failpoint == St.NoFailpoint
    requires forall p :: p in s.world.table.sessions ==> s.world.table.sessions[p] in all
    requires roomId in s.rooms && player in s.rooms[roomId].players
    ensures player in s.world.table.sessions
    ensures
      AwayFor(s.world.table.sessions[player], nowMs, R.OFFLINE_LOSE_MS) ==>
        roomId !in TickedAll(s, c, all, nowMs, |all|).rooms
  {
    assert MembersOf(s.rooms)[roomId] == s.rooms[roomId].players;
    assert PlayerFits(s.world, player);
    RoundSettles(s, c, all, nowMs, |all|);
    assert all[..|all|] == all;
  }
}
