/** Which sessions are reached from their connections: a connection may be bound by one player and freed by
    another, and then a session that is still online is not told that its connection has closed. */
module Connections {
  import opened Basics
  import opened Sessions
  import opened Membership

  /** What a step of a player does to a connection. */
  datatype Touch = Bind(player: int) | Free(player: int)

  /** What an event does to the connection. */
  function TouchOf(w: World, event: Event, connection: int): Option<Touch> {
    match event
    case Login(player, to, _) =>
      if to == connection then Some(Bind(player))
      else if player in w.table.sessions && w.table.sessions[player].online
              && w.table.sessions[player].connectionId == connection then Some(Free(player))
      else None
    case Reconnect(player, roomId, to, _) =>
      if player !in w.table.sessions || w.table.sessions[player].roomId != roomId then None
      else if to == connection then Some(Bind(player))
      else if w.table.sessions[player].connectionId == connection
              && (!w.table.sessions[player].online || connection != 0) then Some(Free(player))
      else None
    case Close(closed, _) =>
      if closed == connection && closed in w.table.connToPlayer then Some(Free(w.table.connToPlayer[closed])) else None
    case _ => None
  }

  /** The last step in a run that bound or freed the connection. */
  ghost function LastTouch(events: seq<Event>, connection: int): Option<Touch> {
    if events == [] then None
    else
      var before, last := events[..|events| - 1], events[|events| - 1];
      var touch := TouchOf(Run(before), last, connection);
      if touch.Some? then touch else LastTouch(before, connection)
  }

  predicate IsOnlineAt(table: SessionTable, player: int, connection: int) {
    player in table.sessions && table.sessions[player].online && table.sessions[player].connectionId == connection
  }

  /** After one more event, whom the connection leads to is decided by what the event does to it. */
  lemma ConnectionFollows(w: World, event: Event, connection: int)
    requires Membership.Valid(w)
    ensures
      PlayerOn(Next(w, event).table, connection) ==
      match TouchOf(w, event, connection)
      case Some(Bind(player)) => Some(player)
      case Some(Free(_)) => None
      case None => PlayerOn(w.table, connection)
  {
    SeatsMoveNoConnections(w, event);
  }

  /** What settlements and matches do to sessions moves nobody to another connection. */
  lemma SeatsMoveNoConnections(w: World, event: Event)
    ensures
      event.Match? || event.CancelMatch? || event.MatchTimeout? || event.Settle? ==>
        var table' := Next(w, event).table;
        && table'.connToPlayer == w.table.connToPlayer
        && forall p, c :: IsOnlineAt(table', p, c) <==> IsOnlineAt(w.table, p, c)
  {
    match event
    case Match(connection, mode, nowMs) => MatchMovesNoConnections(w, connection, mode, nowMs);
    case Settle(roomId, winner, baseCoin, stored) =>
      if Settles(w, roomId, winner, stored) {
        var players := w.seats.members[roomId];
        PlacedEach(w.table, players, NO_ROOM, |players|);
      }
    case _ =>
  }

  lemma MatchMovesNoConnections(w: World, connection: int, mode: Option<int>, nowMs: int)
    ensures
      var table' := MatchRequested(w, connection, mode, nowMs).table;
      && table'.connToPlayer == w.table.connToPlayer
      && forall p, c :: IsOnlineAt(table', p, c) <==> IsOnlineAt(w.table, p, c)
  {
    if CanMatch(w, connection, mode, nowMs) {
      var player := PlayerOn(w.table, connection).value;
      var joined := w.(queues := Matching.Joined(w.queues, MatchEntry(w, player, mode.value, nowMs)).value,
                       players := EnteredMatching(w.players, player));
      if Matching.Matched(joined.queues, mode.value).Some? {
        var players := Matching.Matched(joined.queues, mode.value).value;
        PlacedEach(w.table, players, w.seats.nextRoomId, |players|);
      }
    }
  }

  /** Who is online on a connection after an event was so before, or the event is theirs and binds it. */
  lemma OnlineFollows(w: World, event: Event, player: int, connection: int)
    requires IsOnlineAt(Next(w, event).table, player, connection)
    ensures TouchOf(w, event, connection) == Some(Bind(player)) || IsOnlineAt(w.table, player, connection)
    ensures TouchOf(w, event, connection) != Some(Free(player))
  {
    SeatsMoveNoConnections(w, event);
  }

  /** In every run, the connections lead where the last step on them says; and whoever is online on a
      connection has not been the last to free it. */
  lemma {:induction false} TouchesDecide(events: seq<Event>, player: int, connection: int)
    ensures
      PlayerOn(Run(events).table, connection) ==
      match LastTouch(events, connection)
      case Some(Bind(p)) => Some(p)
      case _ => None
    ensures
      IsOnlineAt(Run(events).table, player, connection) ==>
        LastTouch(events, connection).Some? && LastTouch(events, connection) != Some(Free(player))
  {
    if events != [] {
      var before, last := events[..|events| - 1], events[|events| - 1];
      TouchesDecide(before, player, connection);
      RunsAreValid(before);
      ConnectionFollows(Run(before), last, connection);
      if IsOnlineAt(Run(events).table, player, connection) {
        OnlineFollows(Run(before), last, player, connection);
      }
    }
  }

  /** A session that is online is reached from its connection, so that it is told when that closes, exactly
      if the last step that bound or freed the connection was that player's. */
  lemma OnlineIsReachedUnlessTaken(events: seq<Event>, player: int, connection: int)
    requires IsOnlineAt(Run(events).table, player, connection)
    ensures
      PlayerOn(Run(events).table, connection) == Some(player) <==>
      LastTouch(events, connection).Some? && LastTouch(events, connection).value.player == player
  {
    TouchesDecide(events, player, connection);
  }

  /** It may be another's: two players log in over the same connection, the first moves to another one and
      the connection closes. The second stays online, on a connection that is gone. */
  lemma OnlineButOutOfReach(first: int, second: int, connection: int, other: int, nowMs: int)
    requires first != second && connection != other
    ensures
      var events := [Login(first, connection, nowMs), Login(second, connection, nowMs), Login(first, other, nowMs),
                     Close(connection, nowMs)];
      var table := Run(events).table;
      && IsOnlineAt(table, second, connection) && PlayerOn(table, connection) == None
      && LastTouch(events, connection) == Some(Free(first))
  {
    var a, b, c, d := Login(first, connection, nowMs), Login(second, connection, nowMs), Login(first, other, nowMs),
                      Close(connection, nowMs);
    LoginsBind(first, second, connection, other, nowMs);
    TwoOnOneConnection(first, second, connection, other, nowMs);
    RunOf([a, b], c, connection);
    RunOf([a, b, c], d, connection);
    assert [a, b] + [c] == [a, b, c] && [a, b, c] + [d] == [a, b, c, d];
  }

  lemma LoginsBind(first: int, second: int, connection: int, other: int, nowMs: int)
    ensures
      var a, b, c := Login(first, connection, nowMs), Login(second, connection, nowMs), Login(first, other, nowMs);
      var both := Bound(Bound(SessionTable(map[], map[]), first, connection, nowMs), second, connection, nowMs);
      Run([a, b]).table == both && Run([a, b] + [c]).table == Bound(both, first, other, nowMs)
  {
    var a, b, c := Login(first, connection, nowMs), Login(second, connection, nowMs), Login(first, other, nowMs);
    RunOf([], a, connection);
    RunOf([a], b, connection);
    RunOf([a, b], c, connection);
    assert [] + [a] == [a] && [a] + [b] == [a, b];
  }

  lemma TwoOnOneConnection(first: int, second: int, connection: int, other: int, nowMs: int)
    requires first != second && connection != other
    ensures
      var both := Bound(Bound(SessionTable(map[], map[]), first, connection, nowMs), second, connection, nowMs);
      var moved := Bound(both, first, other, nowMs);
      && IsOnlineAt(both, first, connection)
      && IsOnlineAt(moved, second, connection) && PlayerOn(moved, connection) == None
  {
  }

  lemma RunOf(events: seq<Event>, event: Event, connection: int)
    ensures Run(events + [event]) == Next(Run(events), event)
    ensures
      LastTouch(events + [event], connection) ==
      var touch := TouchOf(Run(events), event, connection);
      if touch.Some? then touch else LastTouch(events, connection)
  {
    assert (events + [event])[..|events + [event]| - 1] == events;
  }
}
