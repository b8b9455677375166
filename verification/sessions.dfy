/** Sessions: which connection a player is on, and in which room the player sits. */
module Sessions {
  import opened Basics

  /** A room id of 0 stands for no room. */
  datatype Session = Session(
    playerId: int, connectionId: int, roomId: int, online: bool, loginTimeMs: int, lastHeartbeatMs: int,
    offlineAtMs: int)

  datatype SessionTable = SessionTable(connToPlayer: map<int, int>, sessions: map<int, Session>)

  const NO_ROOM := 0

  function PlayerOn(table: SessionTable, connection: int): Option<int> {
    if connection in table.connToPlayer then Some(table.connToPlayer[connection]) else None
  }

  function RoomIdOf(table: SessionTable, player: int): int {
    if player in table.sessions then table.sessions[player].roomId else NO_ROOM
  }

  function Bound(table: SessionTable, player: int, connection: int, nowMs: int): SessionTable {
    var known := player in table.sessions;
    var conns := if known && table.sessions[player].online
                 then table.connToPlayer - {table.sessions[player].connectionId} else table.connToPlayer;
    SessionTable(
      conns[connection := player],
      table.sessions[player := Session(player, connection, RoomIdOf(table, player), true, nowMs, nowMs, 0)])
  }

  function Rebound(table: SessionTable, player: int, connection: int, nowMs: int): SessionTable {
    if player !in table.sessions then table
    else
      var session := table.sessions[player];
      var previous := session.connectionId;
      var dropped := previous != connection && (!session.online || previous != 0);
      var conns := if dropped then table.connToPlayer - {previous} else table.connToPlayer;
      SessionTable(
        conns[connection := player],
        table.sessions[player := session.(connectionId := connection, online := true, lastHeartbeatMs := nowMs,
                                          offlineAtMs := 0)])
  }

  /** The connection that a reconnection over another one leaves to be closed. */
  function TakenOverFrom(table: SessionTable, player: int, connection: int): Option<int> {
    if player !in table.sessions then None
    else
      var session := table.sessions[player];
      if session.online && session.connectionId !in {0, connection} then Some(session.connectionId) else None
  }

  function Closed(table: SessionTable, connection: int, nowMs: int): SessionTable {
    if connection !in table.connToPlayer then table
    else
      var player := table.connToPlayer[connection];
      SessionTable(
        table.connToPlayer - {connection},
        if player !in table.sessions then table.sessions
        else table.sessions[player := table.sessions[player].(online := false, lastHeartbeatMs := nowMs,
                                                              offlineAtMs := nowMs)])
  }

  function Placed(table: SessionTable, player: int, roomId: int): SessionTable {
    if player !in table.sessions then table
    else table.(sessions := table.sessions[player := table.sessions[player].(roomId := roomId)])
  }

  /** The sessions after the first n of these players were placed in a room. */
  function PlacedAll(table: SessionTable, players: seq<int>, roomId: int, n: nat): SessionTable
    requires n <= |players|
  {
    if n == 0 then table else Placed(PlacedAll(table, players, roomId, n - 1), players[n - 1], roomId)
  }

  lemma {:induction false} PlacedEach(table: SessionTable, players: seq<int>, roomId: int, n: nat)
    requires n <= |players|
    ensures
      var after := PlacedAll(table, players, roomId, n);
      && after.connToPlayer == table.connToPlayer
      && after.sessions.Keys == table.sessions.Keys
      && forall p :: p in table.sessions ==>
                       after.sessions[p] ==
                       if p in players[..n] then table.sessions[p].(roomId := roomId) else table.sessions[p]
  {
    if n > 0 {
      PlacedEach(table, players, roomId, n - 1);
      assert players[..n] == players[..n - 1] + [players[n - 1]];
    }
  }

  class SessionManager {
    var connToPlayer: map<int, int>
    var sessions: map<int, Session>

    ghost function Table(): SessionTable
      reads this
    {
      SessionTable(connToPlayer, sessions)
    }

    constructor ()
      ensures Table() == SessionTable(map[], map[])
    {
      connToPlayer, sessions := map[], map[];
    }

    /** Binds a login to a connection; returns the connection of an earlier login that is still online. */
    method BindLogin(player: int, connection: int, nowMs: int) returns (oldConnection: Option<int>)
      modifies this
      ensures Table() == Bound(old(Table()), player, connection, nowMs)
      ensures oldConnection == if player in old(sessions) && old(sessions)[player].online
                               then Some(old(sessions)[player].connectionId) else None
    {
      oldConnection := None;
      if player in sessions && sessions[player].online {
        oldConnection := Some(sessions[player].connectionId);
        connToPlayer := connToPlayer - {sessions[player].connectionId};
      }
      var session := if player in sessions then sessions[player] else Session(0, 0, NO_ROOM, false, 0, 0, 0);
      session := session.(playerId := player, connectionId := connection, online := true, loginTimeMs := nowMs);
      session := session.(lastHeartbeatMs := nowMs, offlineAtMs := 0);
      sessions := sessions[player := session];
      connToPlayer := connToPlayer[connection := player];
    }

    method RebindForReconnect(player: int, connection: int, nowMs: int) returns (oldConnection: Option<int>)
      modifies this
      ensures Table() == Rebound(old(Table()), player, connection, nowMs)
      ensures oldConnection == TakenOverFrom(old(Table()), player, connection)
    {
      oldConnection := None;
      if player !in sessions {
        return;
      }
      var session := sessions[player];
      var previous := session.connectionId;
      if session.online && previous != 0 && previous != connection {
        oldConnection := Some(previous);
        connToPlayer := connToPlayer - {previous};
      } else if !session.online && previous != connection {
        connToPlayer := connToPlayer - {previous};
      }
      session := session.(connectionId := connection, online := true, lastHeartbeatMs := nowMs, offlineAtMs := 0);
      sessions := sessions[player := session];
      connToPlayer := connToPlayer[connection := player];
    }

    method MarkOfflineByConnection(connection: int, nowMs: int) returns (marked: bool)
      modifies this
      ensures Table() == Closed(old(Table()), connection, nowMs)
      ensures marked <==> connection in old(connToPlayer) && old(connToPlayer)[connection] in old(sessions)
    {
      if connection !in connToPlayer {
        return false;
      }
      var player := connToPlayer[connection];
      connToPlayer := connToPlayer - {connection};
      if player !in sessions {
        return false;
      }
      var session := sessions[player].(online := false, lastHeartbeatMs := nowMs, offlineAtMs := nowMs);
      sessions := sessions[player := session];
      marked := true;
    }

    method SetRoomId(player: int, roomId: int) returns (placed: bool)
      modifies this`sessions
      ensures Table() == Placed(old(Table()), player, roomId)
      ensures placed <==> player in old(sessions)
    {
      if player !in sessions {
        return false;
      }
      sessions := sessions[player := sessions[player].(roomId := roomId)];
      placed := true;
    }
  }
}
