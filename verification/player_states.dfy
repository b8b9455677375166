/** What the states of players and the times of sessions stand for, over whole runs, and what that means for the answers
    to requests. */
module PlayerStates {
  import opened Basics
  import opened Membership
  import opened ServerSteps
  import opened WaitingPlayers

  // ----- states

  /** The state of a player and what the other managers have on them: whoever is in a room sits in one, and whoever is
      offline has a session that is. Nobody is ever marked as playing or in a settlement. */
  ghost predicate StateFits(w: World, p: int) {
    p in w.players ==>
      match w.players[p].state
      case Offline => p in w.table.sessions && !w.table.sessions[p].online
      case InRoom => p in w.seats.roomOf
      case Lobby => true
      case Matching => true
      case _ => false
  }

  ghost predicate StatesFit(w: World) {
    forall p :: StateFits(w, p)
  }

  lemma TogetherFits(w: World, mode: int)
    requires M.QueuesAgree(w.queues) && StatesFit(w)
    ensures StatesFit(SeatedTogether(w, mode))
  {
    if M.Matched(w.queues, mode).Some? {
      var players := M.Matched(w.queues, mode).value;
      S.PlacedEach(w.table, players, w.seats.nextRoomId, |players|);
      assert players[..|players|] == players;
      forall p
        ensures StateFits(SeatedTogether(w, mode), p)
      {
        assert StateFits(w, p);
        P.ForcedEach(w.players, players, P.InRoom, |players|, p);
      }
    }
  }

  lemma MatchFits(w: World, connection: int, mode: Option<int>, nowMs: int)
    requires Valid(w) && StatesFit(w)
    ensures StatesFit(MatchRequested(w, connection, mode, nowMs))
  {
    if CanMatch(w, connection, mode, nowMs) {
      var entry := MatchEntry(w, S.PlayerOn(w.table, connection).value, mode.value, nowMs);
      var joined := w.(queues := M.Joined(w.queues, entry).value,
                       players := EnteredMatching(w.players, entry.playerId));
      M.JoinedAgrees(w.queues, entry);
      forall p
        ensures StateFits(joined, p)
      {
        assert StateFits(w, p);
      }
      TogetherFits(joined, mode.value);
    }
  }

  lemma TimeoutFits(w: World, nowMs: int, timeoutMs: int)
    requires StatesFit(w)
    ensures StatesFit(MatchTimedOut(w, nowMs, timeoutMs))
  {
    var out := M.TimedOut(w.queues, nowMs, timeoutMs);
    forall p
      ensures StateFits(MatchTimedOut(w, nowMs, timeoutMs), p)
    {
      assert StateFits(w, p);
      BackInLobbyEach(w.players, out, |out|, p);
    }
  }

  lemma SettlementFits(w: World, roomId: int, winner: int, baseCoin: int, stored: bool)
    requires Valid(w) && StatesFit(w)
    ensures StatesFit(SettlementDone(w, roomId, winner, baseCoin, stored))
  {
    if Settles(w, roomId, winner, stored) {
      var players := w.seats.members[roomId];
      SettlementLedger.ReleasedIsSettled(w.players, players, winner, baseCoin);
      S.PlacedEach(w.table, players, S.NO_ROOM, |players|);
      forall p
        ensures StateFits(SettlementDone(w, roomId, winner, baseCoin, stored), p)
      {
        assert StateFits(w, p);
      }
    }
  }

  lemma NextFits(w: World, event: Event)
    requires Valid(w) && StatesFit(w)
    ensures StatesFit(Next(w, event))
  {
    match event
    case Match(connection, mode, nowMs) => MatchFits(w, connection, mode, nowMs);
    case MatchTimeout(nowMs, timeoutMs) => TimeoutFits(w, nowMs, timeoutMs);
    case Settle(roomId, winner, baseCoin, stored) => SettlementFits(w, roomId, winner, baseCoin, stored);
    case _ =>
      forall p
        ensures StateFits(Next(w, event), p)
      {
        OthersFit(w, event, p);
      }
  }

  lemma OthersFit(w: World, event: Event, p: int)
    requires Valid(w) && StateFits(w, p)
    requires event.Login? || event.CancelMatch? || event.Reconnect? || event.Close?
    ensures StateFits(Next(w, event), p)
  {
    assert PlayerFits(w, p);
  }

  lemma {:induction false} RunsFit(events: seq<Event>)
    ensures Valid(Run(events)) && StatesFit(Run(events))
  {
    RunsAreValid(events);
    if events != [] {
      RunsFit(events[..|events| - 1]);
      NextFits(Run(events[..|events| - 1]), events[|events| - 1]);
    }
  }

  /** After every sequence of requests, the state of a player tells where they are: in a room exactly if they sit there
      and are not offline, matching only while they wait, offline only with a session that is, and otherwise in the
      lobby. */
  lemma StatesTellWhere(events: seq<Event>, player: int)
    requires player in Run(events).players
    ensures
      var w := Run(events);
      var state := w.players[player].state;
      && state in {P.Offline, P.Lobby, P.Matching, P.InRoom}
      && (state == P.InRoom <==> player in w.seats.roomOf && state != P.Offline)
      && (state == P.Matching ==> IsWaiting(w, player) && player !in w.seats.roomOf)
      && (state == P.Offline ==> player in w.table.sessions && !w.table.sessions[player].online)
  {
    RunsFit(events);
    assert PlayerFits(Run(events), player) && StateFits(Run(events), player);
  }

  // ----- the answers

  /** How a match request for three is answered, for the player on the connection: they are told that they are in a room
      exactly if they sit in one and are not offline, that they match already exactly if they wait although they are
      in the lobby, and they are taken up exactly if they are there and do not wait. */
  lemma MatchIsAnswered(events: seq<Event>, connection: int, player: int)
    requires S.PlayerOn(Run(events).table, connection) == Some(player)
    ensures
      var w, answer := Run(events), MatchAnswer(Run(events), connection, ParseMode(Some(3)));
      var state := P.StateOf(w.players, player);
      && (answer == PlayerAlreadyInRoom <==> player in w.seats.roomOf && state != P.Offline)
      && (answer == PlayerAlreadyMatching <==> IsWaiting(w, player) && state == P.Lobby)
      && (answer == Ok <==> !IsWaiting(w, player) && state == P.Lobby)
      && (answer == InvalidPlayerState <==> state in {P.Offline, P.Matching})
  {
    RunsFit(events);
    assert PlayerFits(Run(events), player) && StateFits(Run(events), player);
  }

  /** Any other number is refused, and so is whoever is not logged in. */
  lemma OtherModesAreRefused(w: World, connection: int, requested: Option<int>)
    ensures MatchAnswer(w, connection, ParseMode(requested)) == NotLogin <==> connection !in w.table.connToPlayer
    ensures
      MatchAnswer(w, connection, ParseMode(requested)) == MatchModeInvalid <==>
      connection in w.table.connToPlayer && requested != Some(3)
  {
  }

  /** A cancellation succeeds exactly if the player waits and is not astray; that it fails otherwise is always due to
      the state. */
  lemma CancelIsAnswered(events: seq<Event>, connection: int)
    ensures
      var w, answer := Run(events), CancelAnswer(Run(events), connection);
      match S.PlayerOn(w.table, connection)
      case None => answer == NotLogin
      case Some(player) =>
        if IsWaiting(w, player) && !IsStray(w, player) then answer == Ok else answer == InvalidPlayerState
  {
    RunsFit(events);
    var w := Run(events);
    if S.PlayerOn(w.table, connection).Some? {
      assert PlayerFits(w, S.PlayerOn(w.table, connection).value);
    }
  }

  // ----- since when

  datatype Presence = Here | GoneSince(atMs: int)

  /** What an event tells of a player's presence. */
  function PresenceAfter(w: World, event: Event, player: int): Option<Presence> {
    match event
    case Login(p, _, _) => if p == player then Some(Here) else None
    case Reconnect(p, roomId, _, _) =>
      if p == player && p in w.table.sessions && S.RoomIdOf(w.table, p) == roomId then Some(Here) else None
    case Close(connection, nowMs) =>
      if S.PlayerOn(w.table, connection) == Some(player) then Some(GoneSince(nowMs)) else None
    case _ => None
  }

  ghost function LastPresence(events: seq<Event>, player: int): Option<Presence> {
    if events == [] then None
    else
      var before, last := events[..|events| - 1], events[|events| - 1];
      var presence := PresenceAfter(Run(before), last, player);
      if presence.Some? then presence else LastPresence(before, player)
  }

  /** What a session tells of its player's presence. */
  function Told(table: S.SessionTable, player: int): Option<Presence> {
    if player !in table.sessions then None
    else if table.sessions[player].online && table.sessions[player].offlineAtMs == 0 then Some(Here)
    else if !table.sessions[player].online then Some(GoneSince(table.sessions[player].offlineAtMs))
    else None
  }

  lemma PresenceFollows(w: World, event: Event, player: int)
    requires Valid(w)
    ensures
      var presence := PresenceAfter(w, event, player);
      Told(Next(w, event).table, player) == if presence.Some? then presence else Told(w.table, player)
  {
    match event
    case Match(connection, mode, nowMs) =>
      if CanMatch(w, connection, mode, nowMs) {
        var entry := MatchEntry(w, S.PlayerOn(w.table, connection).value, mode.value, nowMs);
        var queues := M.Joined(w.queues, entry).value;
        if M.Matched(queues, mode.value).Some? {
          var players := M.Matched(queues, mode.value).value;
          S.PlacedEach(w.table, players, w.seats.nextRoomId, |players|);
        }
      }
    case Settle(roomId, winner, baseCoin, stored) =>
      if Settles(w, roomId, winner, stored) {
        S.PlacedEach(w.table, w.seats.members[roomId], S.NO_ROOM, |w.seats.members[roomId]|);
      }
    case _ =>
  }

  /** After every sequence of requests, a session is online exactly if its player logged in or reconnected last, and
      otherwise it tells when the connection was lost. */
  lemma {:induction false} SessionsTellPresence(events: seq<Event>, player: int)
    ensures Told(Run(events).table, player) == LastPresence(events, player)
  {
    if events != [] {
      var before, last := events[..|events| - 1], events[|events| - 1];
      SessionsTellPresence(before, player);
      RunsAreValid(before);
      PresenceFollows(Run(before), last, player);
    }
  }

  /** So the timer takes a player for away from a room for so long exactly if the player sits in one and the last that
      was seen of them is a connection that was lost so long ago. */
  lemma AwayIsSinceTheLoss(events: seq<Event>, player: int, nowMs: int, ms: int)
    requires player in Run(events).table.sessions
    ensures
      AwayFor(Run(events).table.sessions[player], nowMs, ms) <==>
      && player in Run(events).seats.roomOf
      && match LastPresence(events, player)
         case Some(GoneSince(atMs)) => atMs > 0 && nowMs - atMs >= ms
         case _ => false
  {
    RunsAreValid(events);
    SessionsTellPresence(events, player);
    var w := Run(events);
    assert PlayerFits(w, player);
    if player in w.seats.roomOf {
      assert w.seats.roomOf[player] in w.seats.members;
    }
  }
}
