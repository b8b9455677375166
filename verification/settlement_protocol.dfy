/** Concurrent settlements: any number of workers settle rooms at the same time, each call into a
    manager being one step, while rooms are opened and players arrive. */
module SettlementProtocol {

  /** Where a settlement is between two calls into the managers. */
  datatype Phase =
    | Entering                                  // about to take the right to settle the room
    | Began                                     // about to look the room up
    | Found(players: seq<int>)                  // about to mark the room as settling
    | Reading(players: seq<int>, n: nat)        // about to read the balance of player n, or to persist
    | Persisted(players: seq<int>)              // about to pay the players
    | Paid(players: seq<int>, n: nat)           // about to clear the room of player n, or to mark the room as finished
    | Cleared(players: seq<int>, n: nat, player: int)   // about to force player n, now without a room, into the lobby
    | Finishing(players: seq<int>)              // about to destroy the room
    | Destroyed                                 // about to give the right back and to answer OK
    | Failing                                   // about to give the right back and to answer with an error
    | Returned(ok: bool)

  datatype Worker = Worker(roomId: int, winner: int, baseCoin: int, phase: Phase)

  /** The managers as far as settlements share them, and per room how many surviving records, paid coin
      batches and OK answers there have been. */
  datatype System = System(
    settling: set<int>,
    nextRoomId: int,
    rooms: map<int, seq<int>>,
    known: set<int>,
    records: multiset<int>,
    batches: multiset<int>,
    oks: multiset<int>,
    workers: map<int, Worker>)

  datatype Event =
    | OpenRoom(players: seq<int>)
    | Arrive(player: int)
    | Start(worker: int, roomId: int, winner: int, baseCoin: int)
    | Advance(worker: int, persists: bool)      // `persists`: whether storage accepts the transaction

  function Initial(): System {
    System({}, 1, map[], {}, multiset{}, multiset{}, multiset{}, map[])
  }

  function At(s: System, w: int, phase: Phase): System
    requires w in s.workers
  {
    s.(workers := s.workers[w := s.workers[w].(phase := phase)])
  }

  /** The next call of a worker. */
  function Advanced(s: System, w: int, persists: bool): System
    requires w in s.workers
  {
    var worker := s.workers[w];
    var roomId := worker.roomId;
    match worker.phase
    case Entering =>
      if roomId in s.settling then At(s, w, Returned(false))
      else At(s.(settling := s.settling + {roomId}), w, Began)
    case Began =>
      if roomId !in s.rooms then At(s, w, Failing) else At(s, w, Found(s.rooms[roomId]))
    case Found(players) =>
      if worker.winner !in players then At(s, w, Failing) else At(s, w, Reading(players, 0))
    case Reading(players, n) =>
      if n < |players| then
        if players[n] !in s.known then At(s, w, Failing) else At(s, w, Reading(players, n + 1))
      else if !persists then At(s, w, Failing)
      else At(s.(records := s.records + multiset{roomId}), w, Persisted(players))
    case Persisted(players) =>
      if exists p :: p in players && p !in s.known then At(s, w, Failing)
      else At(s.(batches := s.batches + multiset{roomId}), w, Paid(players, 0))
    case Paid(players, n) =>
      if n < |players| then At(s, w, Cleared(players, n, players[n])) else At(s, w, Finishing(players))
    case Cleared(players, n, player) =>
      At(s.(known := s.known + {player}), w, Paid(players, n + 1))
    case Finishing(players) => At(s.(rooms := s.rooms - {roomId}), w, Destroyed)
    case Destroyed =>
      At(s.(settling := s.settling - {roomId}, oks := s.oks + multiset{roomId}), w, Returned(true))
    case Failing => At(s.(settling := s.settling - {roomId}), w, Returned(false))
    case Returned(_) => s
  }

  function Next(s: System, event: Event): System {
    match event
    case OpenRoom(players) =>
      s.(rooms := s.rooms[s.nextRoomId := players], nextRoomId := s.nextRoomId + 1)
    case Arrive(player) => s.(known := s.known + {player})
    case Start(w, roomId, winner, baseCoin) =>
      if w in s.workers then s
      else
        var phase := if roomId <= 0 || winner <= 0 || baseCoin <= 0 then Returned(false) else Entering;
        s.(workers := s.workers[w := Worker(roomId, winner, baseCoin, phase)])
    case Advance(w, persists) => if w in s.workers then Advanced(s, w, persists) else s
  }

  function Run(events: seq<Event>): System {
    if events == [] then Initial() else Next(Run(events[..|events| - 1]), events[|events| - 1])
  }

  // ----- the invariant

  /** The worker has the right to settle its room. */
  predicate Holds(s: System, w: int) {
    w in s.workers && !s.workers[w].phase.Entering? && !s.workers[w].phase.Returned?
  }

  predicate HoldsRoom(s: System, w: int, roomId: int) {
    Holds(s, w) && s.workers[w].roomId == roomId
  }

  /** The room existed and is gone. */
  predicate IsGone(s: System, roomId: int) {
    1 <= roomId < s.nextRoomId && roomId !in s.rooms
  }

  predicate CountsAre(s: System, roomId: int, records: nat, batches: nat, oks: nat) {
    s.records[roomId] == records && s.batches[roomId] == batches && s.oks[roomId] == oks
  }

  /** What has been done for a room that nobody is in the middle of settling: everything or nothing. */
  predicate AtRest(s: System, roomId: int) {
    if IsGone(s, roomId) then CountsAre(s, roomId, 1, 1, 1) else CountsAre(s, roomId, 0, 0, 0)
  }

  predicate IsLive(s: System, roomId: int, players: seq<int>) {
    roomId in s.rooms && s.rooms[roomId] == players
  }

  /** What the holder of the right to settle a room may rely on. */
  predicate InProgress(s: System, roomId: int, phase: Phase) {
    match phase
    case Began | Failing => AtRest(s, roomId)
    case Found(players) => IsLive(s, roomId, players) && CountsAre(s, roomId, 0, 0, 0)
    case Reading(players, n) =>
      && IsLive(s, roomId, players) && CountsAre(s, roomId, 0, 0, 0)
      && n <= |players| && forall i :: 0 <= i < n ==> players[i] in s.known
    case Persisted(players) =>
      && IsLive(s, roomId, players) && CountsAre(s, roomId, 1, 0, 0)
      && forall p :: p in players ==> p in s.known
    case Paid(players, _) => IsLive(s, roomId, players) && CountsAre(s, roomId, 1, 1, 0)
    case Cleared(players, _, _) => IsLive(s, roomId, players) && CountsAre(s, roomId, 1, 1, 0)
    case Finishing(players) => IsLive(s, roomId, players) && CountsAre(s, roomId, 1, 1, 0)
    case Destroyed => IsGone(s, roomId) && CountsAre(s, roomId, 1, 1, 0)
    case _ => true
  }

  ghost predicate Valid(s: System) {
    && 1 <= s.nextRoomId
    && (forall r :: r in s.rooms ==> 1 <= r < s.nextRoomId)
    && (forall w :: Holds(s, w) ==> s.workers[w].roomId in s.settling)
    && (forall v, w :: Holds(s, v) && Holds(s, w) && s.workers[v].roomId == s.workers[w].roomId ==> v == w)
    && (forall r :: r in s.settling ==> exists w :: HoldsRoom(s, w, r))
    && (forall w :: Holds(s, w) ==> InProgress(s, s.workers[w].roomId, s.workers[w].phase))
    && (forall r :: r !in s.settling ==> AtRest(s, r))
  }

  /** Steps of others: a room that keeps its place and its counts stays as far in its settlement. */
  lemma OthersKeepProgress(s: System, s': System, roomId: int, phase: Phase)
    requires InProgress(s, roomId, phase)
    requires s.nextRoomId <= s'.nextRoomId && s.known <= s'.known
    requires roomId in s.rooms ==> roomId in s'.rooms && s'.rooms[roomId] == s.rooms[roomId]
    requires IsGone(s', roomId) <==> IsGone(s, roomId)
    requires s'.records[roomId] == s.records[roomId] && s'.batches[roomId] == s.batches[roomId]
    requires s'.oks[roomId] == s.oks[roomId]
    ensures InProgress(s', roomId, phase)
  {
  }

  /** Where a step of a worker for this room leaves the other rooms. */
  ghost predicate LeavesOtherRooms(s: System, s': System, roomId: int) {
    && (forall r :: r in s'.rooms ==> r in s.rooms)
    && (forall r :: r != roomId ==> (r in s'.rooms <==> r in s.rooms) && (r in s.rooms ==> s'.rooms[r] == s.rooms[r]))
    && (forall r :: r != roomId ==> (r in s'.settling <==> r in s.settling))
  }

  ghost predicate LeavesOtherCounts(s: System, s': System, roomId: int) {
    forall r :: r != roomId ==>
                  s'.records[r] == s.records[r] && s'.batches[r] == s.batches[r] && s'.oks[r] == s.oks[r]
  }

  ghost predicate LeavesOtherWorkers(s: System, s': System, w: int)
    requires w in s.workers
  {
    && s'.workers.Keys == s.workers.Keys
    && (forall v :: v in s.workers && v != w ==> s'.workers[v] == s.workers[v])
    && s'.workers[w].roomId == s.workers[w].roomId
    && s.known <= s'.known && s'.nextRoomId == s.nextRoomId
  }

  lemma OwnRoom(s: System, w: int, persists: bool)
    requires w in s.workers
    ensures LeavesOtherRooms(s, Advanced(s, w, persists), s.workers[w].roomId)
  {
  }

  lemma OwnCounts(s: System, w: int, persists: bool)
    requires w in s.workers
    ensures LeavesOtherCounts(s, Advanced(s, w, persists), s.workers[w].roomId)
  {
  }

  lemma OwnPhase(s: System, w: int, persists: bool)
    requires w in s.workers
    ensures LeavesOtherWorkers(s, Advanced(s, w, persists), w)
  {
  }

  /** A worker's own step: it moves on in its settlement and leaves all other rooms alone. */
  lemma OwnStep(s: System, w: int, persists: bool)
    requires w in s.workers
    ensures
      var s', roomId := Advanced(s, w, persists), s.workers[w].roomId;
      LeavesOtherWorkers(s, s', w) && LeavesOtherRooms(s, s', roomId) && LeavesOtherCounts(s, s', roomId)
  {
    OwnRoom(s, w, persists);
    OwnCounts(s, w, persists);
    OwnPhase(s, w, persists);
  }

  /** After its own step a worker either still holds its room and is as far as its phase says, or the
      room is at rest unless another worker holds it. */
  lemma OwnProgress(s: System, w: int, persists: bool)
    requires w in s.workers
    requires s.workers[w].roomId in s.rooms ==> 1 <= s.workers[w].roomId < s.nextRoomId
    requires if Holds(s, w)
             then s.workers[w].roomId in s.settling && InProgress(s, s.workers[w].roomId, s.workers[w].phase)
             else s.workers[w].roomId !in s.settling ==> AtRest(s, s.workers[w].roomId)
    ensures
      var s', roomId := Advanced(s, w, persists), s.workers[w].roomId;
      && (Holds(s', w) ==> roomId in s'.settling && InProgress(s', roomId, s'.workers[w].phase))
      && (Holds(s', w) && !Holds(s, w) ==> roomId !in s.settling)
      && (!Holds(s', w) && Holds(s, w) ==> roomId !in s'.settling && AtRest(s', roomId))
      && (!Holds(s', w) && !Holds(s, w) ==> s'.(workers := s.workers) == s)
  {
    match s.workers[w].phase
    case Entering =>
    case Reading(_, _) =>
    case Persisted(_) =>
    case Cleared(_, _, _) =>
    case Finishing(_) =>
    case Destroyed =>
    case Failing =>
    case _ =>
  }

  lemma AdvanceKeeps(s: System, w: int, persists: bool)
    requires Valid(s) && w in s.workers
    ensures Valid(Advanced(s, w, persists))
  {
    var s' := Advanced(s, w, persists);
    var roomId := s.workers[w].roomId;
    OwnStep(s, w, persists);
    OwnProgress(s, w, persists);
    forall v | Holds(s', v) && v != w
      ensures s'.workers[v].roomId in s'.settling && InProgress(s', s'.workers[v].roomId, s'.workers[v].phase)
      ensures Holds(s', w) ==> s'.workers[v].roomId != roomId
    {
      assert Holds(s, v);
      OtherHolder(s, w, v, persists);
    }
    forall r | r in s'.settling
      ensures exists v :: HoldsRoom(s', v, r)
    {
      if r == roomId && Holds(s', w) {
        assert HoldsRoom(s', w, r);
      } else {
        var v :| HoldsRoom(s, v, r);
        assert HoldsRoom(s', v, r);
      }
    }
    forall r | r !in s'.settling
      ensures AtRest(s', r)
    {
      if r != roomId { assert AtRest(s, r); }
    }
  }

  /** Another holder's room is untouched. */
  lemma OtherHolder(s: System, w: int, v: int, persists: bool)
    requires Valid(s) && w in s.workers && Holds(s, v) && v != w
    ensures
      var s' := Advanced(s, w, persists);
      && s.workers[v].roomId in s'.settling
      && InProgress(s', s.workers[v].roomId, s.workers[v].phase)
      && (Holds(s', w) ==> s.workers[v].roomId != s.workers[w].roomId)
  {
    OwnStep(s, w, persists);
    OwnProgress(s, w, persists);
    var s', roomId := Advanced(s, w, persists), s.workers[v].roomId;
    OthersKeepProgress(s, s', roomId, s.workers[v].phase);
  }

  lemma OpenKeeps(s: System, players: seq<int>)
    requires Valid(s)
    ensures Valid(Next(s, OpenRoom(players)))
  {
    var s' := Next(s, OpenRoom(players));
    forall w | Holds(s', w)
      ensures InProgress(s', s'.workers[w].roomId, s'.workers[w].phase)
    {
      assert Holds(s, w);
      OthersKeepProgress(s, s', s.workers[w].roomId, s.workers[w].phase);
    }
    forall r | r in s'.settling
      ensures exists w :: HoldsRoom(s', w, r)
    {
      var w :| HoldsRoom(s, w, r);
      assert HoldsRoom(s', w, r);
    }
    forall r | r !in s'.settling
      ensures AtRest(s', r)
    {
      assert AtRest(s, r);
    }
  }

  lemma StartKeeps(s: System, w: int, roomId: int, winner: int, baseCoin: int)
    requires Valid(s) && w !in s.workers
    ensures Valid(Next(s, Start(w, roomId, winner, baseCoin)))
  {
    var s' := Next(s, Start(w, roomId, winner, baseCoin));
    forall v | Holds(s', v)
      ensures Holds(s, v) && s'.workers[v] == s.workers[v]
      ensures InProgress(s', s'.workers[v].roomId, s'.workers[v].phase)
    {
      OthersKeepProgress(s, s', s.workers[v].roomId, s.workers[v].phase);
    }
    forall r
      ensures r in s'.settling ==> exists v :: HoldsRoom(s', v, r)
      ensures r !in s'.settling ==> AtRest(s', r)
    {
      if r in s.settling {
        var v :| HoldsRoom(s, v, r);
        assert HoldsRoom(s', v, r);
      } else {
        assert AtRest(s, r);
      }
    }
  }

  lemma ArriveKeeps(s: System, player: int)
    requires Valid(s)
    ensures Valid(Next(s, Arrive(player)))
  {
    var s' := Next(s, Arrive(player));
    forall w | Holds(s', w)
      ensures Holds(s, w) && InProgress(s', s'.workers[w].roomId, s'.workers[w].phase)
    {
      OthersKeepProgress(s, s', s.workers[w].roomId, s.workers[w].phase);
    }
    forall r | r in s'.settling
      ensures exists w :: HoldsRoom(s', w, r)
    {
      var w :| HoldsRoom(s, w, r);
      assert HoldsRoom(s', w, r);
    }
    forall r | r !in s'.settling
      ensures AtRest(s', r)
    {
      assert AtRest(s, r);
    }
  }

  lemma {:induction false} RunsAreValid(events: seq<Event>)
    ensures Valid(Run(events))
  {
    if events != [] {
      var s := Run(events[..|events| - 1]);
      RunsAreValid(events[..|events| - 1]);
      match events[|events| - 1]
      case OpenRoom(players) => OpenKeeps(s, players);
      case Arrive(player) => ArriveKeeps(s, player);
      case Start(w, roomId, winner, baseCoin) =>
        if w !in s.workers { StartKeeps(s, w, roomId, winner, baseCoin); }
      case Advance(w, persists) =>
        if w in s.workers { AdvanceKeeps(s, w, persists); }
    }
  }

  /** Under every interleaving, a room is settled at most once: at most one settlement of it ever answers
      OK, at most one coin batch is paid and at most one record survives for it. An OK comes with both,
      for a room that is gone; and once no settlement of a room is under way, it has had all three or none. */
  lemma AtMostOneSettlement(events: seq<Event>, roomId: int)
    ensures
      var s := Run(events);
      && s.records[roomId] <= 1 && s.batches[roomId] <= 1 && s.oks[roomId] <= 1
      && (s.oks[roomId] == 1 ==> CountsAre(s, roomId, 1, 1, 1) && IsGone(s, roomId))
      && (roomId !in s.settling ==> AtRest(s, roomId))
  {
    RunsAreValid(events);
    var s := Run(events);
    if roomId in s.settling {
      var w :| HoldsRoom(s, w, roomId);
      assert InProgress(s, roomId, s.workers[w].phase);
    } else {
      assert AtRest(s, roomId);
    }
  }

  /** The right to settle a room is held by exactly one settlement under way, and by none once all have
      returned: it is neither shared nor lost. */
  lemma RightIsExclusive(events: seq<Event>, roomId: int)
    ensures
      var s := Run(events);
      && (roomId in s.settling <==> exists w :: HoldsRoom(s, w, roomId))
      && (forall v, w :: HoldsRoom(s, v, roomId) && HoldsRoom(s, w, roomId) ==> v == w)
  {
    RunsAreValid(events);
  }

  /** The payment after a stored transaction never fails: the players were seen, and nobody disappears.
      So no record is left behind by a settlement that answers with an error. */
  lemma PaymentNeverFails(events: seq<Event>, w: int, persists: bool)
    requires w in Run(events).workers && Run(events).workers[w].phase.Persisted?
    ensures Advanced(Run(events), w, persists).workers[w].phase.Paid?
  {
    RunsAreValid(events);
    assert Holds(Run(events), w);
  }
}
