/** Settling a finished room: the ledger of who pays whom, and the service that carries it through
    storage, coins, sessions and rooms. */
module SettlementLedger {
  import opened Basics
  import P = Players
  import Storage

  /** What a player of the room wins or loses. */
  function Delta(players: seq<int>, winner: int, baseCoin: int, player: int): int {
    if player == winner then baseCoin * (|players| - 1) else -baseCoin
  }

  function ChangeOf(roomId: int, players: seq<int>, table: P.PlayerTable, winner: int, baseCoin: int, player: int):
    Storage.CoinChange
  {
    var before, delta := P.CoinOf(table, player), Delta(players, winner, baseCoin, player);
    Storage.CoinChange(player, roomId, delta, before, before + delta)
  }

  function ChangesOf(roomId: int, players: seq<int>, table: P.PlayerTable, winner: int, baseCoin: int):
    (changes: seq<Storage.CoinChange>)
    ensures |changes| == |players|
  {
    seq(|players|, i requires 0 <= i < |players| => ChangeOf(roomId, players, table, winner, baseCoin, players[i]))
  }

  function RequestOf(roomId: int, mode: int, players: seq<int>, table: P.PlayerTable, winner: int, baseCoin: int,
                     nowMs: int): Storage.PersistRequest
  {
    Storage.PersistRequest(roomId, mode, winner, nowMs, nowMs, players,
                           ChangesOf(roomId, players, table, winner, baseCoin))
  }

  /** The changes name exactly the players of the room. */
  lemma ChangedPlayers(roomId: int, players: seq<int>, table: P.PlayerTable, winner: int, baseCoin: int)
    ensures
      var changes := ChangesOf(roomId, players, table, winner, baseCoin);
      (forall p :: p in players ==> p > 0) <==> forall i :: 0 <= i < |changes| ==> changes[i].player > 0
  {
    var changes := ChangesOf(roomId, players, table, winner, baseCoin);
    assert forall i :: 0 <= i < |changes| ==> changes[i].player == players[i] && players[i] in players;
    if forall i :: 0 <= i < |changes| ==> changes[i].player > 0 {
      forall p | p in players
        ensures p > 0
      {
        var i :| 0 <= i < |players| && players[i] == p;
        assert changes[i].player == p;
      }
    }
  }

  function PaymentsOf(players: seq<int>, winner: int, baseCoin: int): (payments: seq<(int, int)>)
    ensures |payments| == |players|
    ensures forall i :: 0 <= i < |payments| ==>
                          payments[i] == (players[i], Delta(players, winner, baseCoin, players[i]))
  {
    seq(|players|, i requires 0 <= i < |players| => (players[i], Delta(players, winner, baseCoin, players[i])))
  }

  /** The players after everybody in the list has been paid and then been put into the lobby, one by one. */
  function Released(table: P.PlayerTable, players: seq<int>, winner: int, baseCoin: int): P.PlayerTable
    requires forall p :: p in players ==> p in table
  {
    var payments := PaymentsOf(players, winner, baseCoin);
    P.ForcedAll(P.PaidAll(table, payments, |payments|), players, P.Lobby, |players|)
  }

  /** The players after a settlement: those of the room paid and back in the lobby, all others as before. */
  ghost function Settled(table: P.PlayerTable, players: seq<int>, winner: int, baseCoin: int): P.PlayerTable {
    map p | p in table ::
      if p in players then
        P.PlayerData(p, P.ToppedUp(table[p].coin + Delta(players, winner, baseCoin, p)), P.Lobby)
      else table[p]
  }

  lemma {:induction false} PaidEach(table: P.PlayerTable, players: seq<int>, winner: int, baseCoin: int, n: nat, p: int)
    requires n <= |players| && Distinct(players) && (forall q :: q in players ==> q in table) && p in table
    ensures
      var paid := P.PaidAll(table, PaymentsOf(players, winner, baseCoin), n);
      paid[p] == if p in players[..n] then table[p].(coin := table[p].coin + Delta(players, winner, baseCoin, p))
                 else table[p]
  {
    if n > 0 {
      PaidEach(table, players, winner, baseCoin, n - 1, p);
      assert players[..n] == players[..n - 1] + [players[n - 1]];
    }
  }

  lemma AmountsPaid(table: P.PlayerTable, players: seq<int>, winner: int, baseCoin: int)
    requires Distinct(players) && forall q :: q in players ==> q in table
    ensures forall i ::
              0 <= i < |players| ==>
                P.AmountAfter(table, PaymentsOf(players, winner, baseCoin), i) ==
                table[players[i]].coin + Delta(players, winner, baseCoin, players[i])
  {
    forall i | 0 <= i < |players|
      ensures P.AmountAfter(table, PaymentsOf(players, winner, baseCoin), i)
           == table[players[i]].coin + Delta(players, winner, baseCoin, players[i])
    {
      PaidEach(table, players, winner, baseCoin, i + 1, players[i]);
      assert players[..i + 1][i] == players[i];
    }
  }

  /** Paying everybody and then putting everybody into the lobby settles a room of different players. */
  lemma ReleasedIsSettled(table: P.PlayerTable, players: seq<int>, winner: int, baseCoin: int)
    requires Distinct(players) && forall q :: q in players ==> q in table
    ensures Released(table, players, winner, baseCoin) == Settled(table, players, winner, baseCoin)
  {
    var payments := PaymentsOf(players, winner, baseCoin);
    var paid := P.PaidAll(table, payments, |payments|);
    var lobby := P.ForcedAll(paid, players, P.Lobby, |players|);
    assert players[..|players|] == players;
    forall p
      ensures p in lobby <==> p in table
      ensures p in table ==> lobby[p] == Settled(table, players, winner, baseCoin)[p]
    {
      P.ForcedEach(paid, players, P.Lobby, |players|, p);
      if p in table {
        PaidEach(table, players, winner, baseCoin, |players|, p);
      }
    }
  }

  // ----- the accounts balance

  ghost function SumOfDeltas(players: seq<int>, all: seq<int>, winner: int, baseCoin: int): int {
    if players == [] then 0
    else
      SumOfDeltas(players[..|players| - 1], all, winner, baseCoin)
      + Delta(all, winner, baseCoin, players[|players| - 1])
  }

  lemma Distribute(base: int, all: int, n: int)
    ensures base * (all - (n + 1)) == base * (all - n) - base
    ensures -base * (n + 1) == -base * n - base
    ensures -base * n + base * (all - 1) == base * (all - (n + 1))
  {
  }

  lemma {:induction false} SumOfSomeDeltas(players: seq<int>, all: seq<int>, winner: int, baseCoin: int)
    requires Distinct(players)
    ensures SumOfDeltas(players, all, winner, baseCoin)
         == if winner in players then baseCoin * (|all| - |players|) else -baseCoin * |players|
  {
    if players != [] {
      var n := |players| - 1;
      SumOfSomeDeltas(players[..n], all, winner, baseCoin);
      assert players == players[..n] + [players[n]];
      Distribute(baseCoin, |all|, n);
    }
  }

  /** What the winner gets is what the others pay. */
  lemma DeltasSumToZero(players: seq<int>, winner: int, baseCoin: int)
    requires Distinct(players) && winner in players
    ensures SumOfDeltas(players, players, winner, baseCoin) == 0
  {
    SumOfSomeDeltas(players, players, winner, baseCoin);
  }

  ghost function TotalCoins(table: P.PlayerTable, ids: seq<int>): int {
    if ids == [] then 0 else TotalCoins(table, ids[..|ids| - 1]) + P.CoinOf(table, ids[|ids| - 1])
  }

  /** How many of the players land on a balance of exactly nothing. */
  ghost function Emptied(table: P.PlayerTable, players: seq<int>, winner: int, baseCoin: int, ids: seq<int>): nat {
    if ids == [] then 0
    else
      var last := ids[|ids| - 1];
      Emptied(table, players, winner, baseCoin, ids[..|ids| - 1]) +
      if last in players && P.CoinOf(table, last) + Delta(players, winner, baseCoin, last) == 0 then 1 else 0
  }

  lemma {:induction false} TotalOfSome(table: P.PlayerTable, players: seq<int>, winner: int, baseCoin: int,
                                       ids: seq<int>)
    requires forall p :: p in players ==> p in table
    requires forall p :: p in ids ==> p in players
    ensures TotalCoins(Settled(table, players, winner, baseCoin), ids)
         == TotalCoins(table, ids) + SumOfDeltas(ids, players, winner, baseCoin)
            + P.STARTING_COINS * Emptied(table, players, winner, baseCoin, ids)
  {
    if ids != [] {
      var init, last := ids[..|ids| - 1], ids[|ids| - 1];
      assert ids == init + [last];
      assert last in players;
      TotalOfSome(table, players, winner, baseCoin, init);
    }
  }

  /** A settlement moves coins only between the players of the room, and creates a thousand for each
      of them who lands on exactly nothing. */
  lemma CoinsAreConserved(table: P.PlayerTable, players: seq<int>, winner: int, baseCoin: int)
    requires Distinct(players) && winner in players && forall p :: p in players ==> p in table
    ensures
      var after := Settled(table, players, winner, baseCoin);
      && TotalCoins(after, players)
         == TotalCoins(table, players) + P.STARTING_COINS * Emptied(table, players, winner, baseCoin, players)
      && forall p :: p in table && p !in players ==> p in after && after[p] == table[p]
  {
    TotalOfSome(table, players, winner, baseCoin, players);
    DeltasSumToZero(players, winner, baseCoin);
  }

  /** What storage holds of the players of the room: the amount of the log, which is the balance in
      memory except for players who were topped up from nothing. */
  lemma StorageHoldsTheBalances(coins: map<int, int>, roomId: int, players: seq<int>, table: P.PlayerTable,
                                winner: int, baseCoin: int, player: int)
    requires Distinct(players) && player in players && player in table
    ensures
      var changes := ChangesOf(roomId, players, table, winner, baseCoin);
      var stored := Storage.CoinsAfter(coins, changes, |changes|);
      var after := table[player].coin + Delta(players, winner, baseCoin, player);
      && Storage.Lookup(stored, player) == Some(after)
      && Settled(table, players, winner, baseCoin)[player].coin == if after == 0 then P.STARTING_COINS else after
  {
    var changes := ChangesOf(roomId, players, table, winner, baseCoin);
    Storage.CoinsHoldLastAmounts(coins, changes, |changes|, player);
    var i :| 0 <= i < |players| && players[i] == player;
    assert changes[i].player == player;
  }
}

module SettlementServices {
  import opened Basics
  import opened SettlementLedger
  import R = Rooms
  import RM = RoomManagement
  import S = Sessions
  import St = Storage

  datatype ErrorCode = Ok | InvalidPacket | RoomNotFound | SettlementFailed

  datatype PlayerResult = PlayerResult(player: int, change: int, after: int)

  datatype SettlementResult = SettlementResult(code: ErrorCode, recordId: int, players: seq<PlayerResult>)

  /** The result tells every player the change and the amount after it. */
  ghost predicate Reported(results: seq<PlayerResult>, ids: seq<int>, table: P.PlayerTable, winner: int, baseCoin: int)
    requires forall p :: p in ids ==> p in table
  {
    && |results| == |ids|
    && forall i :: 0 <= i < |ids| ==>
                     && results[i].player == ids[i]
                     && results[i].change == Delta(ids, winner, baseCoin, ids[i])
                     && results[i].after == P.AmountAfter(table, PaymentsOf(ids, winner, baseCoin), i)
  }

  datatype Books = Books(
    players: P.PlayerTable, table: S.SessionTable,
    coins: map<int, int>, records: map<int, St.GameRecord>, logs: map<int, St.CoinLog>)

  /** The books after a room has been settled. */
  function BooksAfter(books: Books, room: R.Room, winner: int, baseCoin: int, nowMs: int, recordId: int,
                      firstLogId: int): Books
    requires forall p :: p in room.players ==> p in books.players
  {
    var request := RequestOf(room.roomId, room.mode, room.players, books.players, winner, baseCoin, nowMs);
    Books(
      Released(books.players, room.players, winner, baseCoin),
      S.PlacedAll(books.table, room.players, S.NO_ROOM, |room.players|),
      St.CoinsAfter(books.coins, request.changes, |request.changes|),
      books.records[recordId := St.RecordOf(request, recordId)],
      St.LogsAfter(books.logs, request, firstLogId, |request.changes|))
  }

  /** The record names the game, and the logs, from the first id on, tell of each player what the result reports: the
      balance there was in memory, the change, and what they make together. */
  ghost predicate Booked(books: Books, room: R.Room, table: P.PlayerTable, winner: int, results: seq<PlayerResult>,
                         nowMs: int, recordId: int, firstLogId: int)
  {
    && recordId in books.records
    && (var record := books.records[recordId];
        && record.roomId == room.roomId && record.gameMode == room.mode && record.players == room.players
        && record.winner == winner && record.startedAtMs == nowMs && record.endedAtMs == nowMs)
    && |results| == |room.players|
    && forall i :: 0 <= i < |results| ==>
         && results[i].player == room.players[i]
         && LogReports(books.logs, firstLogId + i, room.roomId, results[i], P.CoinOf(table, room.players[i]), nowMs)
  }

  predicate LogReports(logs: map<int, St.CoinLog>, id: int, roomId: int, result: PlayerResult, before: int, nowMs: int)
  {
    && id in logs
    && logs[id].player == result.player && logs[id].roomId == roomId && logs[id].createdAtMs == nowMs
    && logs[id].before == before && logs[id].change == result.change && logs[id].after == before + result.change
  }

  lemma SettlementIsBooked(books: Books, room: R.Room, winner: int, baseCoin: int, nowMs: int, recordId: int,
                           firstLogId: int, results: seq<PlayerResult>)
    requires forall p :: p in room.players ==> p in books.players
    requires Reported(results, room.players, books.players, winner, baseCoin)
    ensures
      Booked(BooksAfter(books, room, winner, baseCoin, nowMs, recordId, firstLogId), room, books.players, winner,
             results, nowMs, recordId, firstLogId)
  {
    var request := RequestOf(room.roomId, room.mode, room.players, books.players, winner, baseCoin, nowMs);
    var logs := St.LogsAfter(books.logs, request, firstLogId, |request.changes|);
    St.LogsTellTheChanges(books.logs, request, firstLogId, |request.changes|);
    forall i | 0 <= i < |results|
      ensures LogReports(logs, firstLogId + i, room.roomId, results[i], P.CoinOf(books.players, room.players[i]), nowMs)
    {
      assert St.IsLogged(logs, firstLogId + i, request.changes[i], nowMs);
    }
  }

  function Failed(code: ErrorCode): SettlementResult { SettlementResult(code, 0, []) }

  class SettlementService {
    const sessions: S.SessionManager
    const players: P.PlayerManager
    const rooms: RM.RoomManager
    const storage: St.StorageService
    var settlingRooms: set<int>

    ghost predicate Valid()
      reads this, rooms, storage, storage.playerDao, storage.recordDao, storage.logDao
    {
      rooms.Valid() && storage.Valid()
    }

    constructor (sessions: S.SessionManager, players: P.PlayerManager, rooms: RM.RoomManager,
                 storage: St.StorageService)
      requires rooms.Valid() && storage.Valid()
      ensures Valid() && settlingRooms == {}
      ensures this.sessions == sessions && this.players == players && this.rooms == rooms && this.storage == storage
    {
      this.sessions, this.players, this.rooms, this.storage := sessions, players, rooms, storage;
      settlingRooms := {};
    }

    method TryBeginSettlement(roomId: int) returns (began: bool)
      modifies this
      ensures began <==> roomId !in old(settlingRooms)
      ensures settlingRooms == old(settlingRooms) + {roomId}
    {
      began := roomId !in settlingRooms;
      settlingRooms := settlingRooms + {roomId};
    }

    method EndSettlement(roomId: int)
      modifies this
      ensures settlingRooms == old(settlingRooms) - {roomId}
    {
      settlingRooms := settlingRooms - {roomId};
    }

    /** Whether this settlement gets as far as marking the room. */
    ghost predicate Begins(roomId: int, winner: int, baseCoin: int)
      reads this, rooms
    {
      roomId > 0 && winner > 0 && baseCoin > 0 && roomId !in settlingRooms && roomId in rooms.rooms
    }

    /** Whether this settlement can go through. */
    ghost predicate CanSettle(roomId: int, winner: int, baseCoin: int)
      reads this, rooms, players, storage
    {
      && Begins(roomId, winner, baseCoin)
      && var ids := rooms.rooms[roomId].players;
         && winner in ids
         && (forall p :: p in ids ==> p in players.players && p > 0)
         && storage.failpoint == St.NoFailpoint
    }

    /** The code that this settlement is answered with. */
    ghost function AnswerTo(roomId: int, winner: int, baseCoin: int): ErrorCode
      reads this, rooms, players, storage
    {
      if roomId <= 0 || winner <= 0 || baseCoin <= 0 then InvalidPacket
      else if roomId in settlingRooms then SettlementFailed
      else if roomId !in rooms.rooms then RoomNotFound
      else if CanSettle(roomId, winner, baseCoin) then Ok
      else SettlementFailed
    }

    /** Reads the balances and lists the changes; stops at the first player who is unknown. */
    method CollectChanges(roomId: int, ids: seq<int>, winner: int, baseCoin: int)
      returns (known: bool, changes: seq<St.CoinChange>)
      ensures known <==> forall p :: p in ids ==> p in players.players
      ensures known ==> changes == ChangesOf(roomId, ids, players.players, winner, baseCoin)
    {
      changes := [];
      var winnerGain := baseCoin * (|ids| - 1);
      for i := 0 to |ids|
        invariant forall p :: p in ids[..i] ==> p in players.players
        invariant |changes| == i
        invariant forall j :: 0 <= j < i ==>
                                changes[j] == ChangeOf(roomId, ids, players.players, winner, baseCoin, ids[j])
      {
        var player := ids[i];
        if player !in players.players {
          return false, changes;
        }
        var delta := if player == winner then winnerGain else -baseCoin;
        var before := players.players[player].coin;
        changes := changes + [St.CoinChange(player, roomId, delta, before, before + delta)];
      }
      assert ids[..|ids|] == ids;
      known := true;
    }

    /** Sends the players back to the lobby, out of their room. */
    method ReleasePlayers(ids: seq<int>, payments: seq<(int, int)>, after: seq<int>)
      returns (results: seq<PlayerResult>)
      requires |payments| == |after| == |ids|
      modifies sessions, players
      ensures players.players == P.ForcedAll(old(players.players), ids, P.Lobby, |ids|)
      ensures sessions.Table() == S.PlacedAll(old(sessions.Table()), ids, S.NO_ROOM, |ids|)
      ensures |results| == |ids|
      ensures forall i :: 0 <= i < |ids| ==> results[i] == PlayerResult(ids[i], payments[i].1, after[i])
    {
      results := [];
      for i := 0 to |ids|
        invariant players.players == P.ForcedAll(old(players.players), ids, P.Lobby, i)
        invariant sessions.Table() == S.PlacedAll(old(sessions.Table()), ids, S.NO_ROOM, i)
        invariant |results| == i
        invariant forall j :: 0 <= j < i ==> results[j] == PlayerResult(ids[j], payments[j].1, after[j])
      {
        results := results + [PlayerResult(ids[i], payments[i].1, after[i])];
        var placed := sessions.SetRoomId(ids[i], S.NO_ROOM);
        players.ForceState(ids[i], P.Lobby);
      }
    }

    /** Pays everybody in the room and lets them go. All of them are known, so the payment cannot fail. */
    method PayOut(ids: seq<int>, winner: int, baseCoin: int) returns (results: seq<PlayerResult>)
      requires forall p :: p in ids ==> p in players.players
      modifies sessions, players
      ensures players.players == Released(old(players.players), ids, winner, baseCoin)
      ensures sessions.Table() == S.PlacedAll(old(sessions.Table()), ids, S.NO_ROOM, |ids|)
      ensures Reported(results, ids, old(players.players), winner, baseCoin)
    {
      var payments := PaymentsOf(ids, winner, baseCoin);
      var paid, after := players.BatchAddCoin(payments);
      results := ReleasePlayers(ids, payments, after);
    }

    method CloseRoom(roomId: int)
      requires rooms.Valid() && roomId in rooms.rooms
      modifies rooms`rooms, rooms`playerToRoom, rooms`lives
      ensures rooms.Valid()
      ensures rooms.rooms == old(rooms.rooms) - {roomId}
      ensures rooms.playerToRoom == old(rooms.playerToRoom) - SetOf(old(rooms.rooms)[roomId].players)
    {
      var finished := rooms.MarkFinished(roomId);
      var destroyed := rooms.DestroyRoom(roomId);
    }

    /** What a settlement is about: balances, sessions and the three tables of storage. */
    ghost function Accounts(): Books
      reads this, sessions, players, storage, storage.playerDao, storage.recordDao, storage.logDao
    {
      Books(players.players, sessions.Table(), storage.playerDao.coins, storage.recordDao.records,
            storage.logDao.logs)
    }

    /** The players are paid and let go, and the game and its payments are recorded. */
    twostate predicate GameSettled(room: R.Room, winner: int, baseCoin: int, nowMs: int, recordId: int)
      requires forall p :: p in room.players ==> p in old(players.players)
      reads this, sessions, players, storage, storage.playerDao, storage.recordDao, storage.logDao
    {
      && recordId == old(storage.recordDao.nextRecordId)
      && Accounts() == BooksAfter(old(Accounts()), room, winner, baseCoin, nowMs, recordId,
                                  old(storage.logDao.nextCoinLogId))
    }

    /** Nothing has changed, except that the room may have been marked as settling. */
    twostate predicate NothingSettled(roomId: int, marked: bool)
      requires marked ==> roomId in old(rooms.rooms)
      reads this, sessions, players, rooms, storage, storage.playerDao, storage.recordDao, storage.logDao
    {
      && Accounts() == old(Accounts())
      && rooms.playerToRoom == old(rooms.playerToRoom)
      && rooms.rooms == if marked then old(rooms.rooms)[roomId := R.SetState(old(rooms.rooms)[roomId], R.Settling)]
                        else old(rooms.rooms)
    }

    /** The game is settled, and the room is gone. */
    twostate predicate RoomSettled(roomId: int, winner: int, baseCoin: int, nowMs: int, recordId: int)
      requires roomId in old(rooms.rooms)
      requires forall p :: p in old(rooms.rooms)[roomId].players ==> p in old(players.players)
      reads this, sessions, players, rooms, storage, storage.playerDao, storage.recordDao, storage.logDao
    {
      && GameSettled(old(rooms.rooms)[roomId], winner, baseCoin, nowMs, recordId)
      && rooms.rooms == old(rooms.rooms) - {roomId}
      && rooms.playerToRoom == old(rooms.playerToRoom) - SetOf(old(rooms.rooms)[roomId].players)
    }

    /** Reads the balances of the room's players and stores what the settlement will make of them. */
    method Transact(room: R.Room, winner: int, baseCoin: int, nowMs: int) returns (ok: bool, recordId: int)
      requires storage.Valid() && room.roomId > 0 && winner > 0 && winner in room.players
      modifies storage.playerDao, storage.recordDao, storage.logDao
      ensures storage.Valid()
      ensures ok <==> (forall p :: p in room.players ==> p in players.players && p > 0)
                      && storage.failpoint == St.NoFailpoint
      ensures !ok ==>
                && storage.playerDao.coins == old(storage.playerDao.coins)
                && storage.recordDao.records == old(storage.recordDao.records)
                && storage.logDao.logs == old(storage.logDao.logs)
      ensures ok ==> Recorded(room, winner, baseCoin, nowMs, recordId)
    {
      var known, changes := CollectChanges(room.roomId, room.players, winner, baseCoin);
      if !known {
        return false, 0;
      }
      ChangedPlayers(room.roomId, room.players, players.players, winner, baseCoin);
      var request := St.PersistRequest(room.roomId, room.mode, winner, nowMs, nowMs, room.players, changes);
      ok, recordId := storage.PersistSettlementTransaction(request);
    }

    /** The game, its payments and the new balances are in storage. */
    twostate predicate Recorded(room: R.Room, winner: int, baseCoin: int, nowMs: int, recordId: int)
      reads storage.playerDao, storage.recordDao, storage.logDao
    {
      var request := RequestOf(room.roomId, room.mode, room.players, old(players.players), winner, baseCoin, nowMs);
      && recordId == old(storage.recordDao.nextRecordId)
      && storage.recordDao.records == old(storage.recordDao.records)[recordId := St.RecordOf(request, recordId)]
      && storage.logDao.logs
         == St.LogsAfter(old(storage.logDao.logs), request, old(storage.logDao.nextCoinLogId), |request.changes|)
      && storage.playerDao.coins
         == St.CoinsAfter(old(storage.playerDao.coins), request.changes, |request.changes|)
    }

    /** Settles a room. It goes through exactly when it can; otherwise nothing is settled. */
    method SettleByServerResult(roomId: int, winner: int, baseCoin: int, nowMs: int) returns (result: SettlementResult)
      requires Valid()
      modifies this, sessions, players, rooms`rooms, rooms`playerToRoom, rooms`lives
      modifies storage.playerDao, storage.recordDao, storage.logDao
      ensures Valid()
      ensures settlingRooms == old(settlingRooms)
      ensures result.code == Ok <==> old(CanSettle(roomId, winner, baseCoin))
      ensures result.code == old(AnswerTo(roomId, winner, baseCoin))
      ensures result.code == InvalidPacket <==> roomId <= 0 || winner <= 0 || baseCoin <= 0
      ensures result.code == RoomNotFound <==>
                && roomId > 0 && winner > 0 && baseCoin > 0
                && roomId !in old(settlingRooms) && roomId !in old(rooms.rooms)
      ensures result.code != Ok ==> NothingSettled(roomId, old(Begins(roomId, winner, baseCoin)))
      ensures result.code == Ok ==> RoomSettled(roomId, winner, baseCoin, nowMs, result.recordId)
      ensures result.code == Ok ==>
                Reported(result.players, old(rooms.rooms)[roomId].players, old(players.players), winner, baseCoin)
      ensures result.code == Ok ==>
                Booked(Accounts(), old(rooms.rooms)[roomId], old(players.players), winner, result.players, nowMs,
                       result.recordId, old(storage.logDao.nextCoinLogId))
    {
      ghost var can, begins := CanSettle(roomId, winner, baseCoin), Begins(roomId, winner, baseCoin);
      if roomId <= 0 || winner <= 0 || baseCoin <= 0 {
        return Failed(InvalidPacket);
      }
      var began := TryBeginSettlement(roomId);
      if !began {
        assert settlingRooms == old(settlingRooms);
        return Failed(SettlementFailed);
      }
      ghost var books, first := Accounts(), storage.logDao.nextCoinLogId;
      result := SettleExclusively(roomId, winner, baseCoin, nowMs);
      assert result.code == Ok <==> can;
      if result.code == Ok {
        SettlementIsBooked(books, old(rooms.rooms)[roomId], winner, baseCoin, nowMs, result.recordId, first,
                           result.players);
      }
      assert roomId in old(rooms.rooms) <==> begins;
      EndSettlement(roomId);
      assert settlingRooms == old(settlingRooms);
    }

    /** The part of a settlement between taking and giving back the right to settle the room. */
    method SettleExclusively(roomId: int, winner: int, baseCoin: int, nowMs: int) returns (result: SettlementResult)
      requires Valid() && roomId > 0 && winner > 0 && baseCoin > 0
      modifies sessions, players, rooms`rooms, rooms`playerToRoom, rooms`lives
      modifies storage.playerDao, storage.recordDao, storage.logDao
      ensures Valid()
      ensures result.code == Ok <==>
                && roomId in old(rooms.rooms) && winner in old(rooms.rooms)[roomId].players
                && (forall p :: p in old(rooms.rooms)[roomId].players ==> p in old(players.players) && p > 0)
                && storage.failpoint == St.NoFailpoint
      ensures result.code == RoomNotFound <==> roomId !in old(rooms.rooms)
      ensures result.code != InvalidPacket
      ensures result.code != Ok ==> NothingSettled(roomId, roomId in old(rooms.rooms))
      ensures result.code == Ok ==> RoomSettled(roomId, winner, baseCoin, nowMs, result.recordId)
      ensures result.code == Ok ==>
                Reported(result.players, old(rooms.rooms)[roomId].players, old(players.players), winner, baseCoin)
    {
      if roomId !in rooms.rooms {
        return Failed(RoomNotFound);
      }
      var room := rooms.rooms[roomId];
      var marked := rooms.MarkSettling(roomId);
      if winner !in room.players {
        return Failed(SettlementFailed);
      }
      Overwritten(old(rooms.rooms), roomId, R.SetState(room, R.Settling));
      result := SettleMarked(room, winner, baseCoin, nowMs);
    }

    /** The part of a settlement after the room has been marked. */
    method SettleMarked(room: R.Room, winner: int, baseCoin: int, nowMs: int) returns (result: SettlementResult)
      requires Valid() && room.roomId > 0 && winner > 0 && winner in room.players
      requires room.roomId in rooms.rooms && rooms.rooms[room.roomId].players == room.players
      modifies sessions, players, rooms`rooms, rooms`playerToRoom, rooms`lives
      modifies storage.playerDao, storage.recordDao, storage.logDao
      ensures Valid()
      ensures result.code == Ok || result.code == SettlementFailed
      ensures result.code == Ok <==> (forall p :: p in room.players ==> p in old(players.players) && p > 0)
                                     && storage.failpoint == St.NoFailpoint
      ensures result.code != Ok ==> Accounts() == old(Accounts()) && unchanged(rooms)
      ensures result.code == Ok ==> GameSettled(room, winner, baseCoin, nowMs, result.recordId)
      ensures result.code == Ok ==> rooms.rooms == old(rooms.rooms) - {room.roomId}
      ensures result.code == Ok ==> rooms.playerToRoom == old(rooms.playerToRoom) - SetOf(room.players)
      ensures result.code == Ok ==> Reported(result.players, room.players, old(players.players), winner, baseCoin)
    {
      result := RecordAndPay(room, winner, baseCoin, nowMs);
      if result.code == Ok {
        CloseRoom(room.roomId);
      }
    }

    /** The part of a settlement that stores the game and pays and releases its players. */
    method RecordAndPay(room: R.Room, winner: int, baseCoin: int, nowMs: int) returns (result: SettlementResult)
      requires storage.Valid() && room.roomId > 0 && winner > 0 && winner in room.players
      modifies sessions, players, storage.playerDao, storage.recordDao, storage.logDao
      ensures storage.Valid()
      ensures result.code == Ok || result.code == SettlementFailed
      ensures result.code == Ok <==> (forall p :: p in room.players ==> p in old(players.players) && p > 0)
                                     && storage.failpoint == St.NoFailpoint
      ensures result.code != Ok ==> Accounts() == old(Accounts())
      ensures result.code == Ok ==> GameSettled(room, winner, baseCoin, nowMs, result.recordId)
      ensures result.code == Ok ==> Reported(result.players, room.players, old(players.players), winner, baseCoin)
    {
      var ok, recordId := Transact(room, winner, baseCoin, nowMs);
      if !ok {
        return Failed(SettlementFailed);
      }
      var results := PayOut(room.players, winner, baseCoin);
      return SettlementResult(Ok, recordId, results);
    }
  }
}
