/** How long players wait: the queues know since when each of them does, and a timeout takes out exactly those who have
    waited too long. */
module WaitingTimes {
  import opened Basics
  import opened Matching
  import opened Membership
  import opened WaitingPlayers

  // ----- one queue

  /** All entries of the player were made then, for that mode. */
  predicate MadeAt(queue: Queue, player: int, mode: int, atMs: int) {
    forall e :: e in queue && e.playerId == player ==> e.mode == mode && e.joinTimeMs == atMs
  }

  predicate AllMadeAt(queues: Queues, player: int, mode: int, atMs: int) {
    MadeAt(queues.three, player, mode, atMs) && MadeAt(queues.four, player, mode, atMs)
  }

  ghost predicate IsPart(part: Queue, whole: Queue) {
    forall e :: e in part ==> e in whole
  }

  lemma {:induction false} WithoutIsPart(queue: Queue, player: int)
    ensures IsPart(Without(queue, player), queue)
  {
    if queue != [] {
      WithoutIsPart(queue[..|queue| - 1], player);
    }
  }

  lemma {:induction false} TheRestIsPart(queue: Queue, nowMs: int, timeoutMs: int)
    ensures IsPart(Waiting(queue, nowMs, timeoutMs), queue)
  {
    if queue != [] {
      TheRestIsPart(queue[..|queue| - 1], nowMs, timeoutMs);
    }
  }

  /** Of a player's entries, all have expired or none has. */
  lemma {:induction false} ExpiredTogether(queue: Queue, player: int, mode: int, atMs: int, nowMs: int, timeoutMs: int)
    requires MadeAt(queue, player, mode, atMs)
    ensures Entries(Expired(queue, nowMs, timeoutMs), player) ==
            if nowMs - atMs >= timeoutMs then Entries(queue, player) else 0
  {
    if queue != [] {
      var init, last := queue[..|queue| - 1], queue[|queue| - 1];
      ExpiredTogether(init, player, mode, atMs, nowMs, timeoutMs);
      if IsExpired(last, nowMs, timeoutMs) {
        EntriesAppended(Expired(init, nowMs, timeoutMs), last, player);
      } else {
        assert Expired(queue, nowMs, timeoutMs) == Expired(init, nowMs, timeoutMs);
      }
    }
  }

  /** A timeout takes a player out exactly if it is on and the player has waited for so long. */
  lemma TimeoutTakesOut(queues: Queues, player: int, mode: int, atMs: int, nowMs: int, timeoutMs: int)
    requires QueuesAgree(queues) && player in queues.index && AllMadeAt(queues, player, mode, atMs)
    ensures player in WithoutTimedOut(queues, nowMs, timeoutMs).index <==> timeoutMs <= 0 || nowMs - atMs < timeoutMs
  {
    TimedOutAgrees(queues, nowMs, timeoutMs);
    assert AgreeOn(queues, player);
    var out3, out4 := Expired(queues.three, nowMs, timeoutMs), Expired(queues.four, nowMs, timeoutMs);
    ExpiredTogether(queues.three, player, mode, atMs, nowMs, timeoutMs);
    ExpiredTogether(queues.four, player, mode, atMs, nowMs, timeoutMs);
    EntriesOfConcat(out3, out4, player);
    PlayersHaveEntries(out3 + out4, player);
  }

  // ----- runs

  /** The mode and the time of the last request that queued the player. */
  ghost function LastQueued(events: seq<Event>, player: int): Option<(int, int)> {
    if events == [] then None
    else
      var before, last := events[..|events| - 1], events[|events| - 1];
      if MoveOf(Run(before), last, player) == Some(Queued) then Some((last.mode.value, last.nowMs))
      else LastQueued(before, player)
  }

  lemma NoEntries(queue: Queue, player: int, mode: int, atMs: int)
    requires Entries(queue, player) == 0
    ensures MadeAt(queue, player, mode, atMs)
  {
    IdsHaveEntries(queue, player);
    forall e | e in queue
      ensures e.playerId in Ids(queue)
    {
      IdIsListed(queue, e);
    }
  }

  lemma IdIsListed(queue: Queue, entry: MatchPlayer)
    requires entry in queue
    ensures entry.playerId in Ids(queue)
  {
    var i :| 0 <= i < |queue| && queue[i] == entry;
    assert Ids(queue)[i] == entry.playerId;
  }

  lemma QueuedNow(w: World, connection: int, mode: Option<int>, nowMs: int, player: int)
    requires Valid(w) && MoveOf(w, Match(connection, mode, nowMs), player) == Some(Queued)
    ensures
      var queues := MatchRequested(w, connection, mode, nowMs).queues;
      && AllMadeAt(queues, player, mode.value, nowMs)
      && (player in queues.index ==> queues.index[player] == mode.value)
  {
    var entry := MatchEntry(w, player, mode.value, nowMs);
    assert AgreeOn(w.queues, player);
    NoEntries(w.queues.three, player, mode.value, nowMs);
    NoEntries(w.queues.four, player, mode.value, nowMs);
    PoppedIsPart(Joined(w.queues, entry).value, mode.value);
  }

  lemma PoppedIsPart(queues: Queues, mode: int)
    ensures
      var popped := Popped(queues, mode);
      && IsPart(popped.three, queues.three) && IsPart(popped.four, queues.four)
      && forall p :: p in popped.index ==> p in queues.index && popped.index[p] == queues.index[p]
  {
  }

  /** What does not queue the player leaves their entries as they are, or takes them out. */
  lemma OthersLeaveEntries(w: World, event: Event, player: int, mode: int, atMs: int)
    requires Valid(w) && AllMadeAt(w.queues, player, mode, atMs)
    requires MoveOf(w, event, player) != Some(Queued)
    ensures
      var queues := Next(w, event).queues;
      && AllMadeAt(queues, player, mode, atMs)
      && (player in queues.index ==> player in w.queues.index && queues.index[player] == w.queues.index[player])
  {
    match event
    case Match(connection, requested, nowMs) =>
      if CanMatch(w, connection, requested, nowMs) {
        var entry := MatchEntry(w, S.PlayerOn(w.table, connection).value, requested.value, nowMs);
        PoppedIsPart(Joined(w.queues, entry).value, requested.value);
      }
    case CancelMatch(connection) =>
      if S.PlayerOn(w.table, connection).Some? {
        CancelLeavesEntries(w.queues, S.PlayerOn(w.table, connection).value);
      }
    case Close(connection, _) =>
      if S.PlayerOn(w.table, connection).Some? {
        CancelLeavesEntries(w.queues, S.PlayerOn(w.table, connection).value);
      }
    case MatchTimeout(nowMs, timeoutMs) =>
      TheRestIsPart(w.queues.three, nowMs, timeoutMs);
      TheRestIsPart(w.queues.four, nowMs, timeoutMs);
    case _ =>
  }

  lemma CancelLeavesEntries(queues: Queues, player: int)
    ensures
      var after := Cancelled(queues, player);
      && IsPart(after.three, queues.three) && IsPart(after.four, queues.four)
      && forall p :: p in after.index ==> p in queues.index && after.index[p] == queues.index[p]
  {
    WithoutIsPart(queues.three, player);
    WithoutIsPart(queues.four, player);
  }

  /** After every sequence of requests, whoever waits does so for the mode and since the time of the request that queued
      them. */
  lemma {:induction false} WaitsSinceAsked(events: seq<Event>, player: int)
    requires IsWaiting(Run(events), player)
    ensures
      && LastQueued(events, player).Some?
      && var (mode, atMs) := LastQueued(events, player).value;
         AllMadeAt(Run(events).queues, player, mode, atMs) && Run(events).queues.index[player] == mode
  {
    if events != [] {
      var before, last := events[..|events| - 1], events[|events| - 1];
      RunsAreValid(before);
      if MoveOf(Run(before), last, player) == Some(Queued) {
        QueuedNow(Run(before), last.connection, last.mode, last.nowMs, player);
      } else {
        MovesDecide(Run(before), last, player);
        StaysWaiting(Run(before), last, player);
        WaitsSinceAsked(before, player);
        var (mode, atMs) := LastQueued(before, player).value;
        OthersLeaveEntries(Run(before), last, player, mode, atMs);
      }
    }
  }

  lemma StaysWaiting(w: World, event: Event, player: int)
    requires Valid(w) && MoveOf(w, event, player) != Some(Queued) && IsWaiting(Next(w, event), player)
    ensures IsWaiting(w, player)
  {
    MovesDecide(w, event, player);
  }

  /** So a timeout takes out a waiting player exactly if it is on and the request that queued them is so long ago,
      however often they have come back since. */
  lemma TimeoutsTakeOutWhoWaitedLong(events: seq<Event>, player: int, nowMs: int, timeoutMs: int)
    requires IsWaiting(Run(events), player)
    ensures
      && LastQueued(events, player).Some?
      && (IsWaiting(Run(events + [MatchTimeout(nowMs, timeoutMs)]), player) <==>
          timeoutMs <= 0 || nowMs - LastQueued(events, player).value.1 < timeoutMs)
  {
    WaitsSinceAsked(events, player);
    RunsAreValid(events);
    OneMore(events, MatchTimeout(nowMs, timeoutMs));
    var (mode, atMs) := LastQueued(events, player).value;
    TimeoutTakesOut(Run(events).queues, player, mode, atMs, nowMs, timeoutMs);
  }
}
