/** Who waits, who sits where: the queues, the sessions, the players and the rooms of the server taken
    together, and what every request does to them. */
module Membership {
  import opened Basics
  import opened Matching
  import opened Sessions
  import P = Players
  import SettlementLedger

  /** The rooms as far as seats are concerned: who sits in each live room, and the index from players to rooms. */
  datatype Seats = Seats(nextRoomId: int, members: map<int, seq<int>>, roomOf: map<int, int>)

  datatype World = World(queues: Queues, table: SessionTable, players: P.PlayerTable, seats: Seats)

  function Opened(seats: Seats, players: seq<int>): Seats {
    Seats(
      seats.nextRoomId + 1,
      seats.members[seats.nextRoomId := players],
      seats.roomOf + map p | p in players :: seats.nextRoomId)
  }

  function Emptied(seats: Seats, roomId: int): Seats
    requires roomId in seats.members
  {
    Seats(
      seats.nextRoomId,
      seats.members - {roomId},
      seats.roomOf - SetOf(seats.members[roomId]))
  }

  // ----- what the requests do

  function StateAtRoom(roomId: int): P.PlayerState {
    if roomId > 0 then P.InRoom else P.Lobby
  }

  /** A login with a verified ticket. */
  function LoggedIn(w: World, player: int, connection: int, nowMs: int): World {
    var coin := if player in w.players then 0 else P.STARTING_COINS;
    w.(
    players := P.Forced(P.Upserted(w.players, player, coin), player, StateAtRoom(RoomIdOf(w.table, player))),
    table := Bound(w.table, player, connection, nowMs))
  }

  function EnteredMatching(players: P.PlayerTable, player: int): P.PlayerTable
    requires player in players
  {
    players[player := players[player].(state := P.Matching)]
  }

  function MatchEntry(w: World, player: int, mode: int, nowMs: int): MatchPlayer {
    MatchPlayer(player, nowMs, P.CoinOf(w.players, player), mode)
  }

  /** Whether a request to be matched is taken up. */
  predicate CanMatch(w: World, connection: int, mode: Option<int>, nowMs: int) {
    && PlayerOn(w.table, connection).Some?
    && mode.Some?
    && var player := PlayerOn(w.table, connection).value;
       && player in w.players && w.players[player].state == P.Lobby
       && Joined(w.queues, MatchEntry(w, player, mode.value, nowMs)).Some?
  }

  /** The players who are matched get a room, and lose their places in the queue. */
  function SeatedTogether(w: World, mode: int): World {
    match Matched(w.queues, mode)
    case None => w
    case Some(players) =>
      World(
        Popped(w.queues, mode),
        PlacedAll(w.table, players, w.seats.nextRoomId, |players|),
        P.ForcedAll(w.players, players, P.InRoom, |players|),
        Opened(w.seats, players))
  }

  function MatchRequested(w: World, connection: int, mode: Option<int>, nowMs: int): World {
    if !CanMatch(w, connection, mode, nowMs) then w
    else
      var player := PlayerOn(w.table, connection).value;
      SeatedTogether(
        w.(queues := Joined(w.queues, MatchEntry(w, player, mode.value, nowMs)).value,
           players := EnteredMatching(w.players, player)),
        mode.value)
  }

  function CancelRequested(w: World, connection: int): World {
    match PlayerOn(w.table, connection)
    case None => w
    case Some(player) =>
      if P.StateOf(w.players, player) != P.Matching then w
      else
        w.(queues := Cancelled(w.queues, player),
           players := if CanCancel(w.queues, player) then P.Forced(w.players, player, P.Lobby) else w.players)
  }

  /** The players after the first n entries have timed out. */
  function BackInLobby(players: P.PlayerTable, entries: seq<MatchPlayer>, n: nat): P.PlayerTable
    requires n <= |entries|
  {
    if n == 0 then players
    else
      var before := BackInLobby(players, entries, n - 1);
      var player := entries[n - 1].playerId;
      if P.StateOf(before, player) == P.Matching then P.Forced(before, player, P.Lobby) else before
  }

  function MatchTimedOut(w: World, nowMs: int, timeoutMs: int): World {
    var out := TimedOut(w.queues, nowMs, timeoutMs);
    w.(queues := WithoutTimedOut(w.queues, nowMs, timeoutMs),
       players := BackInLobby(w.players, out, |out|))
  }

  /** A reconnection with a verified token; it must name the room the session is in. */
  function Reconnected(w: World, player: int, roomId: int, connection: int, nowMs: int): World {
    if player !in w.table.sessions || RoomIdOf(w.table, player) != roomId then w
    else
      w.(table := Rebound(w.table, player, connection, nowMs),
         players := P.Forced(w.players, player, StateAtRoom(roomId)))
  }

  function ConnectionClosed(w: World, connection: int, nowMs: int): World {
    match PlayerOn(w.table, connection)
    case None => w
    case Some(player) =>
      w.(queues := if P.StateOf(w.players, player) == P.Matching then Cancelled(w.queues, player) else w.queues,
         table := Closed(w.table, connection, nowMs),
         players := P.Forced(w.players, player, P.Offline))
  }

  /** Whether a settlement goes through; `stored` tells whether storage accepts its transaction. */
  predicate Settles(w: World, roomId: int, winner: int, stored: bool) {
    && stored && roomId in w.seats.members && winner in w.seats.members[roomId]
    && forall p :: p in w.seats.members[roomId] ==> p in w.players
  }

  function SettlementDone(w: World, roomId: int, winner: int, baseCoin: int, stored: bool): World {
    if !Settles(w, roomId, winner, stored) then w
    else
      var players := w.seats.members[roomId];
      w.(table := PlacedAll(w.table, players, NO_ROOM, |players|),
         players := SettlementLedger.Released(w.players, players, winner, baseCoin),
         seats := Emptied(w.seats, roomId))
  }

  // ----- runs

  datatype Event =
    | Login(player: int, connection: int, nowMs: int)
    | Match(connection: int, mode: Option<int>, nowMs: int)
    | CancelMatch(connection: int)
    | MatchTimeout(nowMs: int, timeoutMs: int)
    | Reconnect(player: int, roomId: int, connection: int, nowMs: int)
    | Close(connection: int, nowMs: int)
    | Settle(roomId: int, winner: int, baseCoin: int, stored: bool)

  ghost function Next(w: World, event: Event): World {
    match event
    case Login(player, connection, nowMs) => LoggedIn(w, player, connection, nowMs)
    case Match(connection, mode, nowMs) => MatchRequested(w, connection, mode, nowMs)
    case CancelMatch(connection) => CancelRequested(w, connection)
    case MatchTimeout(nowMs, timeoutMs) => MatchTimedOut(w, nowMs, timeoutMs)
    case Reconnect(player, roomId, connection, nowMs) => Reconnected(w, player, roomId, connection, nowMs)
    case Close(connection, nowMs) => ConnectionClosed(w, connection, nowMs)
    case Settle(roomId, winner, baseCoin, stored) => SettlementDone(w, roomId, winner, baseCoin, stored)
  }

  function NewWorld(): World {
    World(Queues([], [], map[]), SessionTable(map[], map[]), map[], Seats(1, map[], map[]))
  }

  ghost function Run(events: seq<Event>): World {
    if events == [] then NewWorld() else Next(Run(events[..|events| - 1]), events[|events| - 1])
  }

  // ----- the invariant

  function SeatOf(seats: Seats, player: int): int {
    if player in seats.roomOf then seats.roomOf[player] else NO_ROOM
  }

  /** The room of every player in it points back to the player, and the other way round. */
  ghost predicate SeatsAgree(seats: Seats) {
    && 1 <= seats.nextRoomId
    && (forall r :: r in seats.members ==> 1 <= r < seats.nextRoomId && Distinct(seats.members[r]))
    && (forall r, p :: r in seats.members && p in seats.members[r] ==> p in seats.roomOf && seats.roomOf[p] == r)
    && (forall p :: p in seats.roomOf ==> seats.roomOf[p] in seats.members && p in seats.members[seats.roomOf[p]])
  }

  /** What the managers have on one player fits together. */
  ghost predicate PlayerFits(w: World, p: int) {
    && (p in w.seats.roomOf ==> p in w.table.sessions)
    && (p in w.table.sessions ==> p in w.players && w.table.sessions[p].roomId == SeatOf(w.seats, p))
    && (p in w.queues.index ==> p in w.table.sessions && p !in w.seats.roomOf)
    && (p in w.players && w.players[p].state in {P.Lobby, P.Matching} ==> p !in w.seats.roomOf)
    && (p in w.players && w.players[p].state == P.Matching ==> p in w.queues.index)
  }

  ghost predicate ConnectionsFit(table: SessionTable) {
    forall c :: c in table.connToPlayer ==> table.connToPlayer[c] in table.sessions
  }

  ghost predicate Valid(w: World) {
    && QueuesAgree(w.queues)
    && SeatsAgree(w.seats)
    && ConnectionsFit(w.table)
    && forall p :: PlayerFits(w, p)
  }

  lemma LoginKeeps(w: World, player: int, connection: int, nowMs: int)
    requires Valid(w)
    ensures Valid(LoggedIn(w, player, connection, nowMs))
  {
    var w' := LoggedIn(w, player, connection, nowMs);
    assert PlayerFits(w, player);
    forall p
      ensures PlayerFits(w', p)
    {
      assert PlayerFits(w, p);
    }
  }

  lemma SeatedAgree(seats: Seats, players: seq<int>)
    requires SeatsAgree(seats) && Distinct(players) && forall p :: p in players ==> p !in seats.roomOf
    ensures SeatsAgree(Opened(seats, players))
  {
  }

  lemma TogetherKeeps(w: World, mode: int)
    requires Valid(w)
    ensures Valid(SeatedTogether(w, mode))
  {
    if Matched(w.queues, mode).Some? {
      var players := Matched(w.queues, mode).value;
      var w' := SeatedTogether(w, mode);
      MatchedAreDistinct(w.queues, mode);
      PoppedAgrees(w.queues, mode);
      forall p | p in players
        ensures p !in w.seats.roomOf
      {
        assert PlayerFits(w, p);
      }
      SeatedAgree(w.seats, players);
      PlacedEach(w.table, players, w.seats.nextRoomId, |players|);
      assert players[..|players|] == players;
      forall p
        ensures PlayerFits(w', p)
      {
        assert PlayerFits(w, p);
        P.ForcedEach(w.players, players, P.InRoom, |players|, p);
      }
    }
  }

  lemma MatchKeeps(w: World, connection: int, mode: Option<int>, nowMs: int)
    requires Valid(w)
    ensures Valid(MatchRequested(w, connection, mode, nowMs))
  {
    if CanMatch(w, connection, mode, nowMs) {
      var player := PlayerOn(w.table, connection).value;
      var entry := MatchEntry(w, player, mode.value, nowMs);
      var joined := w.(queues := Joined(w.queues, entry).value, players := EnteredMatching(w.players, player));
      JoinedAgrees(w.queues, entry);
      forall p
        ensures PlayerFits(joined, p)
      {
        assert PlayerFits(w, p);
      }
      TogetherKeeps(joined, mode.value);
    }
  }

  lemma CancelKeeps(w: World, connection: int)
    requires Valid(w)
    ensures Valid(CancelRequested(w, connection))
  {
    var w' := CancelRequested(w, connection);
    if PlayerOn(w.table, connection).Some? {
      CancelledAgrees(w.queues, PlayerOn(w.table, connection).value);
    }
    forall p
      ensures PlayerFits(w', p)
    {
      assert PlayerFits(w, p);
    }
  }

  lemma {:induction false} BackInLobbyEach(players: P.PlayerTable, entries: seq<MatchPlayer>, n: nat, p: int)
    requires n <= |entries|
    ensures
      var after := BackInLobby(players, entries, n);
      && after.Keys == players.Keys
      && (p in players ==>
            after[p].state == if players[p].state == P.Matching && p in PlayersIn(entries[..n]) then P.Lobby
                              else players[p].state)
  {
    if n > 0 {
      BackInLobbyEach(players, entries, n - 1, p);
      assert entries[..n][..n - 1] == entries[..n - 1];
    } else {
      assert entries[..0] == [];
    }
  }

  lemma TimeoutKeeps(w: World, nowMs: int, timeoutMs: int)
    requires Valid(w)
    ensures Valid(MatchTimedOut(w, nowMs, timeoutMs))
  {
    var w' := MatchTimedOut(w, nowMs, timeoutMs);
    var out := TimedOut(w.queues, nowMs, timeoutMs);
    TimedOutAgrees(w.queues, nowMs, timeoutMs);
    assert out[..|out|] == out;
    forall p
      ensures PlayerFits(w', p)
    {
      assert PlayerFits(w, p);
      BackInLobbyEach(w.players, out, |out|, p);
    }
  }

  lemma ReconnectKeeps(w: World, player: int, roomId: int, connection: int, nowMs: int)
    requires Valid(w)
    ensures Valid(Reconnected(w, player, roomId, connection, nowMs))
  {
    var w' := Reconnected(w, player, roomId, connection, nowMs);
    assert PlayerFits(w, player);
    forall p
      ensures PlayerFits(w', p)
    {
      assert PlayerFits(w, p);
    }
  }

  lemma CloseKeeps(w: World, connection: int, nowMs: int)
    requires Valid(w)
    ensures Valid(ConnectionClosed(w, connection, nowMs))
  {
    var w' := ConnectionClosed(w, connection, nowMs);
    if PlayerOn(w.table, connection).Some? {
      CancelledAgrees(w.queues, PlayerOn(w.table, connection).value);
    }
    forall p
      ensures PlayerFits(w', p)
    {
      assert PlayerFits(w, p);
    }
  }

  lemma EmptiedAgree(seats: Seats, roomId: int)
    requires SeatsAgree(seats) && roomId in seats.members
    ensures SeatsAgree(Emptied(seats, roomId))
  {
    var left := Emptied(seats, roomId);
    forall r, p | r in left.members && p in left.members[r]
      ensures p in left.roomOf && left.roomOf[p] == r
    {
      assert seats.roomOf[p] == r;
    }
    forall p | p in left.roomOf
      ensures left.roomOf[p] in left.members && p in left.members[left.roomOf[p]]
    {
      assert p in seats.members[seats.roomOf[p]];
    }
  }

  lemma SettleKeeps(w: World, roomId: int, winner: int, baseCoin: int, stored: bool)
    requires Valid(w)
    ensures Valid(SettlementDone(w, roomId, winner, baseCoin, stored))
  {
    var w' := SettlementDone(w, roomId, winner, baseCoin, stored);
    if w' != w {
      var players := w.seats.members[roomId];
      EmptiedAgree(w.seats, roomId);
      SettlementLedger.ReleasedIsSettled(w.players, players, winner, baseCoin);
      PlacedEach(w.table, players, NO_ROOM, |players|);
      assert players[..|players|] == players;
      forall p
        ensures PlayerFits(w', p)
      {
        assert PlayerFits(w, p);
      }
    }
  }

  lemma NextKeeps(w: World, event: Event)
    requires Valid(w)
    ensures Valid(Next(w, event))
  {
    match event
    case Login(player, connection, nowMs) => LoginKeeps(w, player, connection, nowMs);
    case Match(connection, mode, nowMs) => MatchKeeps(w, connection, mode, nowMs);
    case CancelMatch(connection) => CancelKeeps(w, connection);
    case MatchTimeout(nowMs, timeoutMs) => TimeoutKeeps(w, nowMs, timeoutMs);
    case Reconnect(player, roomId, connection, nowMs) => ReconnectKeeps(w, player, roomId, connection, nowMs);
    case Close(connection, nowMs) => CloseKeeps(w, connection, nowMs);
    case Settle(roomId, winner, baseCoin, stored) => SettleKeeps(w, roomId, winner, baseCoin, stored);
  }

  lemma {:induction false} RunsAreValid(events: seq<Event>)
    ensures Valid(Run(events))
  {
    if events != [] {
      RunsAreValid(events[..|events| - 1]);
      NextKeeps(Run(events[..|events| - 1]), events[|events| - 1]);
    }
  }

  /** After every sequence of requests, rooms, sessions and the player index say the same about where a
      player sits, and so nobody sits in two live rooms. */
  lemma SeatsNeverDisagree(events: seq<Event>, player: int, roomId: int)
    requires roomId in Run(events).seats.members
    ensures
      var w := Run(events);
      && (player in w.seats.members[roomId] <==>
            player in w.table.sessions && w.table.sessions[player].roomId == roomId)
      && (player in w.seats.members[roomId] <==> player in w.seats.roomOf && w.seats.roomOf[player] == roomId)
      && (forall other :: other in w.seats.members && other != roomId && player in w.seats.members[roomId] ==>
                            player !in w.seats.members[other])
  {
    RunsAreValid(events);
    assert PlayerFits(Run(events), player);
  }

  /** After every sequence of requests, whoever waits to be matched has one entry in one queue, the one
      the index names, and sits in no room. */
  lemma QueuedSitNowhere(events: seq<Event>, player: int)
    ensures
      var w := Run(events);
      && Entries(w.queues.three, player) + Entries(w.queues.four, player) == (if player in w.queues.index then 1 else 0)
      && (player in w.queues.index ==>
            && player !in w.seats.roomOf
            && RoomIdOf(w.table, player) == NO_ROOM
            && forall r :: r in w.seats.members ==> player !in w.seats.members[r])
  {
    RunsAreValid(events);
    var w := Run(events);
    assert AgreeOn(w.queues, player);
    assert PlayerFits(w, player);
  }

  /** Everybody in a room is a known player. */
  lemma MembersAreKnown(w: World, roomId: int)
    requires Valid(w) && roomId in w.seats.members
    ensures forall p :: p in w.seats.members[roomId] ==> p in w.players
  {
    forall p | p in w.seats.members[roomId]
      ensures p in w.players
    {
      assert PlayerFits(w, p);
    }
  }

  /** A session never names a room that is gone, or one without the player: whoever logs in or reconnects
      to a room finds it, with their seat. */
  lemma SessionsNameLiveRooms(events: seq<Event>, player: int)
    ensures
      var w := Run(events);
      player in w.table.sessions && w.table.sessions[player].roomId != NO_ROOM ==>
        var roomId := w.table.sessions[player].roomId;
        roomId in w.seats.members && player in w.seats.members[roomId]
  {
    RunsAreValid(events);
    assert PlayerFits(Run(events), player);
  }

  /** A room that is opened is filled with different players who sat nowhere before. */
  lemma NewRoomsAreFilledFresh(w: World, connection: int, mode: Option<int>, nowMs: int)
    requires Valid(w)
    ensures
      var w' := MatchRequested(w, connection, mode, nowMs);
      forall r :: r in w'.seats.members && r !in w.seats.members ==>
                    && r == w.seats.nextRoomId
                    && mode == Some(|w'.seats.members[r]|)
                    && Distinct(w'.seats.members[r])
                    && forall p :: p in w'.seats.members[r] ==> p !in w.seats.roomOf
  {
    MatchKeeps(w, connection, mode, nowMs);
    if CanMatch(w, connection, mode, nowMs) {
      var player := PlayerOn(w.table, connection).value;
      var entry := MatchEntry(w, player, mode.value, nowMs);
      var joined := Joined(w.queues, entry).value;
      JoinedAgrees(w.queues, entry);
      if Matched(joined, mode.value).Some? {
        MatchedAreDistinct(joined, mode.value);
        forall p | p in Matched(joined, mode.value).value
          ensures p !in w.seats.roomOf
        {
          assert PlayerFits(w, p);
        }
      }
    }
  }
}
