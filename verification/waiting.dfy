/** Who can be taken out of the queue: a cancellation and a lost connection look at the player's state, not at
    the queue, so they miss a player who has come back to the lobby while waiting. */
module WaitingPlayers {
  import opened Basics
  import opened Membership
  import M = Matching
  import S = Sessions

  predicate IsWaiting(w: World, player: int) {
    player in w.queues.index
  }

  /** The player waits, but not in the state of those who wait. */
  predicate IsStray(w: World, player: int) {
    IsWaiting(w, player) && P.StateOf(w.players, player) != P.Matching
  }

  // ----- leaving the queue

  /** A lost connection takes its player out of the queue exactly if the player is not astray there. */
  lemma CloseMissesStrays(w: World, connection: int, nowMs: int, player: int)
    requires Valid(w) && S.PlayerOn(w.table, connection) == Some(player)
    ensures IsWaiting(ConnectionClosed(w, connection, nowMs), player) <==> IsStray(w, player)
  {
    M.CancelledAgrees(w.queues, player);
  }

  /** And so does a cancellation. */
  lemma CancelMissesStrays(w: World, connection: int, player: int)
    requires Valid(w) && S.PlayerOn(w.table, connection) == Some(player)
    ensures IsWaiting(CancelRequested(w, connection), player) <==> IsStray(w, player)
  {
    M.CancelledAgrees(w.queues, player);
  }

  // ----- runs

  datatype Move = Queued | Returned

  /** What an event does to the player: it queues them, or brings them back from somewhere else. */
  function MoveOf(w: World, event: Event, player: int): Option<Move> {
    match event
    case Login(p, _, _) => if p == player then Some(Returned) else None
    case Match(connection, mode, nowMs) =>
      if CanMatch(w, connection, mode, nowMs) && S.PlayerOn(w.table, connection) == Some(player)
      then Some(Queued) else None
    case Reconnect(p, roomId, _, _) =>
      if p == player && p in w.table.sessions && S.RoomIdOf(w.table, p) == roomId then Some(Returned) else None
    case _ => None
  }

  ghost function LastMove(events: seq<Event>, player: int): Option<Move> {
    if events == [] then None
    else
      var before, last := events[..|events| - 1], events[|events| - 1];
      var move := MoveOf(Run(before), last, player);
      if move.Some? then move else LastMove(before, player)
  }

  /** If the player still waits, it is as astray as before. */
  ghost predicate LeftAlone(w: World, w': World, player: int) {
    IsWaiting(w', player) ==> IsWaiting(w, player) && (IsStray(w', player) <==> IsStray(w, player))
  }

  lemma TogetherLeavesTheRest(w: World, mode: int, player: int)
    requires M.QueuesAgree(w.queues)
    ensures LeftAlone(w, SeatedTogether(w, mode), player)
  {
    if M.Matched(w.queues, mode).Some? {
      var players := M.Matched(w.queues, mode).value;
      M.PoppedAgrees(w.queues, mode);
      assert players[..|players|] == players;
      P.ForcedEach(w.players, players, P.InRoom, |players|, player);
    }
  }

  lemma MatchDecides(w: World, connection: int, mode: Option<int>, nowMs: int, player: int)
    requires Valid(w)
    ensures
      var w' := MatchRequested(w, connection, mode, nowMs);
      match MoveOf(w, Match(connection, mode, nowMs), player)
      case Some(_) => !IsStray(w', player)
      case None => LeftAlone(w, w', player)
  {
    if CanMatch(w, connection, mode, nowMs) {
      var entry := MatchEntry(w, S.PlayerOn(w.table, connection).value, mode.value, nowMs);
      M.JoinedAgrees(w.queues, entry);
      TogetherLeavesTheRest(
        w.(queues := M.Joined(w.queues, entry).value, players := EnteredMatching(w.players, entry.playerId)),
        mode.value, player);
    }
  }

  lemma TimeoutLeavesTheRest(w: World, nowMs: int, timeoutMs: int, player: int)
    requires Valid(w)
    ensures LeftAlone(w, MatchTimedOut(w, nowMs, timeoutMs), player)
  {
    var out := M.TimedOut(w.queues, nowMs, timeoutMs);
    M.TimedOutAgrees(w.queues, nowMs, timeoutMs);
    assert out[..|out|] == out;
    BackInLobbyEach(w.players, out, |out|, player);
    assert PlayerFits(w, player);
  }

  lemma SettleLeavesTheRest(w: World, roomId: int, winner: int, baseCoin: int, stored: bool, player: int)
    requires Valid(w)
    ensures LeftAlone(w, SettlementDone(w, roomId, winner, baseCoin, stored), player)
  {
    if Settles(w, roomId, winner, stored) {
      SettlementLedger.ReleasedIsSettled(w.players, w.seats.members[roomId], winner, baseCoin);
      assert PlayerFits(w, player);
    }
  }

  /** Whether a waiting player is astray after an event is decided by what it does to the player. */
  lemma MovesDecide(w: World, event: Event, player: int)
    requires Valid(w)
    ensures
      var w' := Next(w, event);
      match MoveOf(w, event, player)
      case Some(Queued) => !IsStray(w', player)
      case Some(Returned) => IsWaiting(w', player) ==> IsStray(w', player)
      case None => LeftAlone(w, w', player)
  {
    match event
    case Match(connection, mode, nowMs) => MatchDecides(w, connection, mode, nowMs, player);
    case CancelMatch(connection) =>
      if S.PlayerOn(w.table, connection).Some? {
        M.CancelledAgrees(w.queues, S.PlayerOn(w.table, connection).value);
      }
    case MatchTimeout(nowMs, timeoutMs) => TimeoutLeavesTheRest(w, nowMs, timeoutMs, player);
    case Close(connection, _) =>
      if S.PlayerOn(w.table, connection).Some? {
        M.CancelledAgrees(w.queues, S.PlayerOn(w.table, connection).value);
      }
    case Settle(roomId, winner, baseCoin, stored) =>
      SettleLeavesTheRest(w, roomId, winner, baseCoin, stored, player);
    case _ =>
  }

  /** After every sequence of requests, a waiting player is astray exactly if they have logged in or
      reconnected since the request that queued them. */
  lemma {:induction false} StrayIffReturned(events: seq<Event>, player: int)
    requires IsWaiting(Run(events), player)
    ensures LastMove(events, player).Some?
    ensures IsStray(Run(events), player) <==> LastMove(events, player) == Some(Returned)
  {
    if events != [] {
      var before, last := events[..|events| - 1], events[|events| - 1];
      RunsAreValid(before);
      MovesDecide(Run(before), last, player);
      if MoveOf(Run(before), last, player).None? {
        StrayIffReturned(before, player);
      }
    }
  }

  /** So a player who waits is still in the queue after the connection is lost, or after a cancellation,
      exactly if they have logged in or reconnected since the request that queued them. */
  lemma ReturnedStayQueued(events: seq<Event>, connection: int, nowMs: int, player: int)
    requires IsWaiting(Run(events), player) && S.PlayerOn(Run(events).table, connection) == Some(player)
    ensures
      IsWaiting(Run(events + [Close(connection, nowMs)]), player) <==> LastMove(events, player) == Some(Returned)
    ensures
      IsWaiting(Run(events + [CancelMatch(connection)]), player) <==> LastMove(events, player) == Some(Returned)
  {
    RunsAreValid(events);
    StrayIffReturned(events, player);
    CloseMissesStrays(Run(events), connection, nowMs, player);
    CancelMissesStrays(Run(events), connection, player);
    OneMore(events, Close(connection, nowMs));
    OneMore(events, CancelMatch(connection));
  }

  lemma OneMore(events: seq<Event>, event: Event)
    ensures Run(events + [event]) == Next(Run(events), event)
  {
    assert (events + [event])[..|events + [event]| - 1] == events;
  }

  // ----- a player who is gone but queued

  /** A player logs in, asks to be matched and reconnects. */
  function ComeBack(player: int, connection: int, nowMs: int): seq<Event> {
    [Login(player, connection, nowMs), Match(connection, Some(3), nowMs), Reconnect(player, 0, connection, nowMs)]
  }

  lemma WorldAfterComingBack(player: int, connection: int, nowMs: int)
    ensures
      var w1 := LoggedIn(NewWorld(), player, connection, nowMs);
      var w2 := MatchRequested(w1, connection, Some(3), nowMs);
      Run(ComeBack(player, connection, nowMs)) == Reconnected(w2, player, 0, connection, nowMs)
  {
    var a, b, c := Login(player, connection, nowMs), Match(connection, Some(3), nowMs),
                   Reconnect(player, 0, connection, nowMs);
    OneMore([], a);
    OneMore([a], b);
    OneMore([a, b], c);
    assert [] + [a] == [a] && [a] + [b] == [a, b] && [a, b] + [c] == ComeBack(player, connection, nowMs);
  }

  lemma FirstToAskWaits(player: int, connection: int, nowMs: int)
    ensures
      var w1 := LoggedIn(NewWorld(), player, connection, nowMs);
      var w2 := MatchRequested(w1, connection, Some(3), nowMs);
      IsWaiting(w2, player) && w2.table == w1.table && w2.queues.index == map[player := 3]
  {
    var w1 := LoggedIn(NewWorld(), player, connection, nowMs);
    assert P.StateOf(w1.players, player) == P.Lobby && CanMatch(w1, connection, Some(3), nowMs);
  }

  /** This player can neither cancel nor leave the queue by going away: afterwards the player is offline and
      waits to be matched. */
  lemma GoneButQueued(player: int, connection: int, nowMs: int)
    ensures
      var w := Run(ComeBack(player, connection, nowMs));
      CancelRequested(w, connection) == w && S.PlayerOn(w.table, connection) == Some(player)
    ensures
      var w := Run(ComeBack(player, connection, nowMs) + [Close(connection, nowMs)]);
      && IsWaiting(w, player) && P.StateOf(w.players, player) == P.Offline
      && player in w.table.sessions && !w.table.sessions[player].online
  {
    FirstToAskWaits(player, connection, nowMs);
    WorldAfterComingBack(player, connection, nowMs);
    OneMore(ComeBack(player, connection, nowMs), Close(connection, nowMs));
  }

  /** The last player whom a match needs takes everybody who waits for it into the room, whoever of them is
      gone by then. */
  lemma LastToAskSeatsAll(w: World, connection: int, mode: int, nowMs: int, player: int)
    requires Valid(w) && CanMatch(w, connection, Some(mode), nowMs)
    requires |M.QueueOf(w.queues, mode)| == mode - 1 && M.IsIndexed(w.queues, player, mode)
    ensures
      var w', roomId := MatchRequested(w, connection, Some(mode), nowMs), w.seats.nextRoomId;
      && roomId in w'.seats.members && player in w'.seats.members[roomId]
      && P.StateOf(w'.players, player) == P.InRoom
      && player in w.table.sessions && player in w'.table.sessions
      && w'.table.sessions[player] == w.table.sessions[player].(roomId := roomId)
  {
    var entry := MatchEntry(w, S.PlayerOn(w.table, connection).value, mode, nowMs);
    var queues := M.Joined(w.queues, entry).value;
    M.JoinedAgrees(w.queues, entry);
    M.PoppedAgrees(queues, mode);
    AllArePopped(queues, mode, player);
    assert PlayerFits(w, player);
    var players := M.Matched(queues, mode).value;
    assert players[..|players|] == players;
    S.PlacedEach(w.table, players, w.seats.nextRoomId, |players|);
    P.ForcedEach(EnteredMatching(w.players, entry.playerId), players, P.InRoom, |players|, player);
  }

  lemma AllArePopped(queues: M.Queues, mode: int, player: int)
    requires M.QueuesAgree(queues) && M.IsMode(mode)
    requires |M.QueueOf(queues, mode)| == mode && M.IsIndexed(queues, player, mode)
    ensures M.Matched(queues, mode).Some? && player in M.Matched(queues, mode).value
  {
    M.SplitEntries(queues, mode, player);
    var queue := M.QueueOf(queues, mode);
    assert queue[..mode] == queue;
  }
}
