/** In-memory storage: three tables, and the settlement transaction with its undo log. */
module Storage {
  import opened Basics

  datatype GameRecord = GameRecord(
    recordId: int, roomId: int, gameMode: int, winner: int, startedAtMs: int, endedAtMs: int, players: seq<int>)

  datatype CoinLog = CoinLog(id: int, player: int, roomId: int, change: int, before: int, after: int, createdAtMs: int)

  datatype CoinChange = CoinChange(player: int, roomId: int, delta: int, before: int, after: int)

  datatype PersistRequest = PersistRequest(
    roomId: int, gameMode: int, winner: int, startedAtMs: int, endedAtMs: int, players: seq<int>,
    changes: seq<CoinChange>)

  /** Where a test makes the transaction fail. */
  datatype Failpoint = NoFailpoint | AfterRecordInserted | AfterFirstCoinLogInserted

  // ----- the tables

  class PlayerDao {
    var coins: map<int, int>

    ghost predicate Valid()
      reads this
    {
      forall player :: player in coins ==> player > 0
    }

    constructor ()
      ensures Valid() && coins == map[]
    {
      coins := map[];
    }

    method UpsertCoin(player: int, coin: int) returns (stored: bool)
      requires Valid()
      modifies this
      ensures Valid()
      ensures stored <==> player > 0
      ensures coins == if stored then old(coins)[player := coin] else old(coins)
    {
      if player <= 0 {
        return false;
      }
      coins := coins[player := coin];
      return true;
    }

    method GetCoin(player: int) returns (coin: Option<int>)
      ensures coin == Lookup(coins, player)
    {
      coin := if player in coins then Some(coins[player]) else None;
    }

    method Erase(player: int) returns (erased: bool)
      requires Valid()
      modifies this
      ensures Valid()
      ensures erased <==> player in old(coins)
      ensures coins == old(coins) - {player}
    {
      erased := player in coins;
      coins := coins - {player};
    }
  }

  class GameRecordDao {
    var nextRecordId: int
    var records: map<int, GameRecord>

    ghost predicate Valid()
      reads this
    {
      nextRecordId >= 1 && forall id :: id in records ==> 1 <= id < nextRecordId
    }

    constructor ()
      ensures Valid() && records == map[]
    {
      nextRecordId, records := 1, map[];
    }

    method Insert(record: GameRecord) returns (id: int)
      requires Valid()
      modifies this
      ensures Valid()
      ensures id == old(nextRecordId) && nextRecordId == id + 1
      ensures records == old(records)[id := record.(recordId := id)]
    {
      id := nextRecordId;
      nextRecordId := nextRecordId + 1;
      records := records[id := record.(recordId := id)];
    }

    method DeleteById(id: int) returns (deleted: bool)
      requires Valid()
      modifies this`records
      ensures Valid()
      ensures deleted <==> id in old(records)
      ensures records == old(records) - {id}
    {
      deleted := id in records;
      records := records - {id};
    }
  }

  class CoinLogDao {
    var nextCoinLogId: int
    var logs: map<int, CoinLog>

    ghost predicate Valid()
      reads this
    {
      nextCoinLogId >= 1 && forall id :: id in logs ==> 1 <= id < nextCoinLogId
    }

    constructor ()
      ensures Valid() && logs == map[]
    {
      nextCoinLogId, logs := 1, map[];
    }

    method Insert(log: CoinLog) returns (id: int)
      requires Valid()
      modifies this
      ensures Valid()
      ensures id == old(nextCoinLogId) && nextCoinLogId == id + 1
      ensures logs == old(logs)[id := log.(id := id)]
    {
      id := nextCoinLogId;
      nextCoinLogId := nextCoinLogId + 1;
      logs := logs[id := log.(id := id)];
    }

    method DeleteById(id: int) returns (deleted: bool)
      requires Valid()
      modifies this`logs
      ensures Valid()
      ensures deleted <==> id in old(logs)
      ensures logs == old(logs) - {id}
    {
      deleted := id in logs;
      logs := logs - {id};
    }
  }

  // ----- what a transaction does

  function Lookup(coins: map<int, int>, player: int): Option<int> {
    if player in coins then Some(coins[player]) else None
  }

  function RecordOf(request: PersistRequest, id: int): GameRecord {
    GameRecord(id, request.roomId, request.gameMode, request.winner, request.startedAtMs, request.endedAtMs,
               request.players)
  }

  function LogOf(request: PersistRequest, i: nat, id: int): CoinLog
    requires i < |request.changes|
  {
    var c := request.changes[i];
    CoinLog(id, c.player, c.roomId, c.delta, c.before, c.after, request.endedAtMs)
  }

  /** What a log tells of a change, and when. */
  predicate Tells(log: CoinLog, c: CoinChange, atMs: int) {
    && log.player == c.player && log.roomId == c.roomId
    && log.change == c.delta && log.before == c.before && log.after == c.after
    && log.createdAtMs == atMs
  }

  /** What a record tells of the game that the request is about. */
  predicate TellsGame(record: GameRecord, request: PersistRequest) {
    && record.roomId == request.roomId && record.gameMode == request.gameMode
    && record.players == request.players && record.winner == request.winner
    && record.startedAtMs == request.startedAtMs && record.endedAtMs == request.endedAtMs
  }

  /** The coin table after the first n changes, applied in order. */
  function CoinsAfter(coins: map<int, int>, changes: seq<CoinChange>, n: nat): map<int, int>
    requires n <= |changes|
  {
    if n == 0 then coins
    else CoinsAfter(coins, changes, n - 1)[changes[n - 1].player := changes[n - 1].after]
  }

  /** The log table after the first n changes, with ids counted from `first`. */
  function LogsAfter(logs: map<int, CoinLog>, request: PersistRequest, first: int, n: nat): map<int, CoinLog>
    requires n <= |request.changes|
  {
    if n == 0 then logs
    else LogsAfter(logs, request, first, n - 1)[first + n - 1 := LogOf(request, n - 1, first + n - 1)]
  }

  /** After all changes every player holds the last amount noted for them, and nobody else's changed. */
  lemma {:induction false} CoinsHoldLastAmounts(coins: map<int, int>, changes: seq<CoinChange>, n: nat, player: int)
    requires n <= |changes|
    ensures
      var after := CoinsAfter(coins, changes, n);
      || (Lookup(after, player) == Lookup(coins, player) && forall i :: 0 <= i < n ==> changes[i].player != player)
      || exists i :: 0 <= i < n && changes[i].player == player && Lookup(after, player) == Some(changes[i].after)
                     && forall j :: i < j < n ==> changes[j].player != player
  {
    if n > 0 {
      CoinsHoldLastAmounts(coins, changes, n - 1, player);
      if changes[n - 1].player == player {
        assert Lookup(CoinsAfter(coins, changes, n), player) == Some(changes[n - 1].after);
      }
    }
  }

  /** There is a log of the change under the id. */
  predicate IsLogged(logs: map<int, CoinLog>, id: int, c: CoinChange, atMs: int) {
    id in logs && logs[id].id == id && Tells(logs[id], c, atMs)
  }

  ghost predicate AllLogged(logs: map<int, CoinLog>, request: PersistRequest, first: int, n: nat)
    requires n <= |request.changes|
  {
    forall i :: 0 <= i < n ==> IsLogged(logs, first + i, request.changes[i], request.endedAtMs)
  }

  /** The log of each change tells what was changed, from what to what. */
  lemma {:induction false} LogsTellTheChanges(logs: map<int, CoinLog>, request: PersistRequest, first: int, n: nat)
    requires n <= |request.changes|
    ensures AllLogged(LogsAfter(logs, request, first, n), request, first, n)
  {
    if n > 0 {
      var before, after := LogsAfter(logs, request, first, n - 1), LogsAfter(logs, request, first, n);
      LogsTellTheChanges(logs, request, first, n - 1);
      forall i | 0 <= i < n
        ensures IsLogged(after, first + i, request.changes[i], request.endedAtMs)
      {
        if i < n - 1 {
          assert IsLogged(before, first + i, request.changes[i], request.endedAtMs);
        }
      }
    }
  }

  /** The transaction adds exactly one log per change, under the next free ids. */
  lemma {:induction false} LogsAreAdded(logs: map<int, CoinLog>, request: PersistRequest, first: int, n: nat)
    requires n <= |request.changes| && forall id :: id in logs ==> id < first
    ensures
      var after := LogsAfter(logs, request, first, n);
      && (forall id :: id in after <==> id in logs || first <= id < first + n)
      && (forall id :: id in logs ==> after[id] == logs[id])
      && (forall id :: first <= id < first + n ==> after[id] == LogOf(request, id - first, id))
      && AllLogged(after, request, first, n)
  {
    if n > 0 {
      LogsAreAdded(logs, request, first, n - 1);
    }
    LogsTellTheChanges(logs, request, first, n);
  }

  // ----- undoing

  /** One entry of the undo log: a player and the amount stored before, if there was one. */
  type UndoEntry = (int, Option<int>)

  function Restore(coins: map<int, int>, entry: UndoEntry): map<int, int> {
    match entry.1
    case Some(coin) => coins[entry.0 := coin]
    case None => coins - {entry.0}
  }

  /** The coin table after the undo log has been replayed, latest entry first. */
  function Undone(coins: map<int, int>, undo: seq<UndoEntry>): map<int, int>
    decreases |undo|
  {
    if undo == [] then coins
    else Undone(Restore(coins, undo[|undo| - 1]), undo[..|undo| - 1])
  }

  /** Undoing a change, made or not, and then all earlier ones is undoing the earlier ones. */
  lemma UndoneLast(coins: map<int, int>, undo: seq<UndoEntry>, player: int, amount: int)
    ensures Undone(coins[player := amount], undo + [(player, Lookup(coins, player))]) == Undone(coins, undo)
    ensures Undone(coins, undo + [(player, Lookup(coins, player))]) == Undone(coins, undo)
  {
    var entry := (player, Lookup(coins, player));
    assert (undo + [entry])[..|undo|] == undo;
    assert Restore(coins[player := amount], entry) == coins;
    assert Restore(coins, entry) == coins;
  }

  /** A request the transaction accepts. */
  predicate IsPersistable(request: PersistRequest) {
    request.roomId > 0 && request.winner > 0 && request.changes != []
  }

  class StorageService {
    const playerDao: PlayerDao
    const recordDao: GameRecordDao
    const logDao: CoinLogDao
    var failpoint: Failpoint

    ghost predicate Valid()
      reads this, playerDao, recordDao, logDao
    {
      playerDao.Valid() && recordDao.Valid() && logDao.Valid()
    }

    constructor ()
      ensures Valid() && failpoint == NoFailpoint
      ensures fresh(playerDao) && fresh(recordDao) && fresh(logDao)
      ensures playerDao.coins == map[] && recordDao.records == map[] && logDao.logs == map[]
    {
      playerDao := new PlayerDao();
      recordDao := new GameRecordDao();
      logDao := new CoinLogDao();
      failpoint := NoFailpoint;
    }

    method SetTxFailpoint(failpoint: Failpoint)
      modifies this`failpoint
      ensures this.failpoint == failpoint
    {
      this.failpoint := failpoint;
    }

    /** Takes the inserted rows out again and replays the undo log backwards. */
    method Rollback(recordId: int, logIds: seq<int>, undo: seq<UndoEntry>)
      requires Valid() && recordId > 0
      requires forall i :: 0 <= i < |undo| && undo[i].1.Some? ==> undo[i].0 > 0
      modifies playerDao, recordDao`records, logDao`logs
      ensures Valid()
      ensures recordDao.records == old(recordDao.records) - {recordId}
      ensures logDao.logs == old(logDao.logs) - SetOf(logIds)
      ensures playerDao.coins == Undone(old(playerDao.coins), undo)
    {
      var i := |logIds|;
      while i > 0
        invariant 0 <= i <= |logIds| && Valid()
        invariant logDao.logs == old(logDao.logs) - SetOf(logIds[i..])
        invariant recordDao.records == old(recordDao.records) && playerDao.coins == old(playerDao.coins)
      {
        assert logIds[i - 1..] == [logIds[i - 1]] + logIds[i..];
        var deleted := logDao.DeleteById(logIds[i - 1]);
        i := i - 1;
      }
      assert logIds[0..] == logIds;
      var deleted := recordDao.DeleteById(recordId);
      i := |undo|;
      assert undo[..i] == undo;
      while i > 0
        invariant 0 <= i <= |undo| && Valid()
        invariant Undone(playerDao.coins, undo[..i]) == Undone(old(playerDao.coins), undo)
        invariant recordDao.records == old(recordDao.records) - {recordId}
        invariant logDao.logs == old(logDao.logs) - SetOf(logIds)
      {
        assert undo[..i][..i - 1] == undo[..i - 1];
        var entry := undo[i - 1];
        match entry.1 {
          case Some(coin) => var stored := playerDao.UpsertCoin(entry.0, coin);
          case None => var erased := playerDao.Erase(entry.0);
        }
        i := i - 1;
      }
    }

    /** Notes the stored amount of a change's player, stores the new one and logs the change. */
    method StoreChange(request: PersistRequest, i: nat) returns (stored: bool, logId: int, entry: UndoEntry)
      requires playerDao.Valid() && logDao.Valid() && i < |request.changes|
      modifies playerDao, logDao
      ensures playerDao.Valid() && logDao.Valid()
      ensures entry == (request.changes[i].player, Lookup(old(playerDao.coins), request.changes[i].player))
      ensures stored <==> request.changes[i].player > 0
      ensures playerDao.coins == if stored
                                 then old(playerDao.coins)[request.changes[i].player := request.changes[i].after]
                                 else old(playerDao.coins)
      ensures stored ==> logId == old(logDao.nextCoinLogId)
      ensures logDao.nextCoinLogId == old(logDao.nextCoinLogId) + if stored then 1 else 0
      ensures logDao.logs == if stored then old(logDao.logs)[logId := LogOf(request, i, logId)] else old(logDao.logs)
    {
      var c := request.changes[i];
      var before := playerDao.GetCoin(c.player);
      entry, logId := (c.player, before), 0;
      stored := playerDao.UpsertCoin(c.player, c.after);
      if stored {
        logId := logDao.Insert(LogOf(request, i, 0));
      }
    }

    /** The settlement transaction: it stores the record, one log per change and the new amounts, or
        leaves all three tables as they were. It fails exactly when the request is malformed, names a
        player that is none, or a test asks it to. */
    method PersistSettlementTransaction(request: PersistRequest) returns (ok: bool, recordId: int)
      requires Valid()
      modifies playerDao, recordDao, logDao
      ensures Valid()
      ensures recordDao.nextRecordId >= old(recordDao.nextRecordId)
      ensures logDao.nextCoinLogId >= old(logDao.nextCoinLogId)
      ensures ok <==> IsPersistable(request) && failpoint == NoFailpoint
                      && forall i :: 0 <= i < |request.changes| ==> request.changes[i].player > 0
      ensures !ok ==> recordDao.records == old(recordDao.records)
      ensures !ok ==> logDao.logs == old(logDao.logs)
      ensures !ok ==> playerDao.coins == old(playerDao.coins)
      ensures ok ==> recordId == old(recordDao.nextRecordId) > 0
      ensures ok ==> recordDao.records == old(recordDao.records)[recordId := RecordOf(request, recordId)]
      ensures ok ==> TellsGame(recordDao.records[recordId], request)
      ensures ok ==> AllLogged(logDao.logs, request, old(logDao.nextCoinLogId), |request.changes|)
      ensures ok ==> logDao.logs == LogsAfter(old(logDao.logs), request, old(logDao.nextCoinLogId), |request.changes|)
      ensures ok ==> playerDao.coins == CoinsAfter(old(playerDao.coins), request.changes, |request.changes|)
    {
      if request.roomId <= 0 || request.winner <= 0 || request.changes == [] {
        return false, 0;
      }
      recordId := recordDao.Insert(RecordOf(request, 0));
      assert recordDao.records - {recordId} == old(recordDao.records);
      if failpoint == AfterRecordInserted {
        Rollback(recordId, [], []);
        assert logDao.logs == old(logDao.logs);
        return false, 0;
      }
      var logIds, undo;
      ok, logIds, undo := StoreChanges(request);
      if ok {
        LogsTellTheChanges(old(logDao.logs), request, old(logDao.nextCoinLogId), |request.changes|);
      } else {
        LogsTakenOut(old(logDao.logs), request, old(logDao.nextCoinLogId), |logIds|, logIds);
        Rollback(recordId, logIds, undo);
      }
    }

    /** Stores the changes one by one, as far as that goes; what is needed to undo it is returned. */
    method StoreChanges(request: PersistRequest) returns (ok: bool, logIds: seq<int>, undo: seq<UndoEntry>)
      requires playerDao.Valid() && logDao.Valid() && request.changes != []
      modifies playerDao, logDao
      ensures playerDao.Valid() && logDao.Valid() && logDao.nextCoinLogId >= old(logDao.nextCoinLogId)
      ensures ok <==> failpoint != AfterFirstCoinLogInserted
                      && forall i :: 0 <= i < |request.changes| ==> request.changes[i].player > 0
      ensures |logIds| <= |request.changes|
      ensures forall j :: 0 <= j < |logIds| ==> logIds[j] == old(logDao.nextCoinLogId) + j
      ensures logDao.logs == LogsAfter(old(logDao.logs), request, old(logDao.nextCoinLogId), |logIds|)
      ensures Undone(playerDao.coins, undo) == old(playerDao.coins)
      ensures forall j :: 0 <= j < |undo| && undo[j].1.Some? ==> undo[j].0 > 0
      ensures ok ==> |logIds| == |request.changes|
      ensures ok ==> playerDao.coins == CoinsAfter(old(playerDao.coins), request.changes, |request.changes|)
    {
      ghost var first := logDao.nextCoinLogId;
      logIds, undo := [], [];
      for i := 0 to |request.changes|
        invariant playerDao.Valid() && logDao.Valid()
        invariant logDao.nextCoinLogId == first + i
        invariant logDao.logs == LogsAfter(old(logDao.logs), request, first, i)
        invariant |logIds| == i && forall j :: 0 <= j < i ==> logIds[j] == first + j
        invariant playerDao.coins == CoinsAfter(old(playerDao.coins), request.changes, i)
        invariant Undone(playerDao.coins, undo) == old(playerDao.coins)
        invariant forall j :: 0 <= j < |undo| && undo[j].1.Some? ==> undo[j].0 > 0
        invariant forall j :: 0 <= j < i ==> request.changes[j].player > 0
        invariant i > 0 ==> failpoint != AfterFirstCoinLogInserted
      {
        ghost var coins := playerDao.coins;
        var stored, logId, entry := StoreChange(request, i);
        UndoneLast(coins, undo, request.changes[i].player, request.changes[i].after);
        undo := undo + [entry];
        if !stored {
          return false, logIds, undo;
        }
        logIds := logIds + [logId];
        if failpoint == AfterFirstCoinLogInserted && i == 0 {
          return false, logIds, undo;
        }
      }
      ok := true;
    }
  }

  lemma LogsTakenOut(logs: map<int, CoinLog>, request: PersistRequest, first: int, n: nat, ids: seq<int>)
    requires n <= |request.changes| && forall id :: id in logs ==> id < first
    requires |ids| == n && forall j :: 0 <= j < n ==> ids[j] == first + j
    ensures LogsAfter(logs, request, first, n) - SetOf(ids) == logs
  {
    LogsAreAdded(logs, request, first, n);
    forall id | first <= id < first + n
      ensures id in ids
    {
      assert ids[id - first] == id;
    }
  }
}
