/** The matching queues: one per mode, and an index from players to the mode they wait for. */
module Matching {
  import opened Basics

  datatype MatchPlayer = MatchPlayer(playerId: int, joinTimeMs: int, coin: int, mode: int)

  type Queue = seq<MatchPlayer>

  datatype Queues = Queues(three: Queue, four: Queue, index: map<int, int>)

  predicate IsMode(mode: int) { mode == 3 || mode == 4 }

  function QueueOf(queues: Queues, mode: int): Queue
    requires IsMode(mode)
  {
    if mode == 3 then queues.three else queues.four
  }

  function WithQueue(queues: Queues, mode: int, queue: Queue): Queues
    requires IsMode(mode)
  {
    if mode == 3 then queues.(three := queue) else queues.(four := queue)
  }

  function Ids(queue: Queue): (ids: seq<int>)
    ensures |ids| == |queue|
    ensures forall i :: 0 <= i < |queue| ==> ids[i] == queue[i].playerId
  {
    if queue == [] then [] else Ids(queue[..|queue| - 1]) + [queue[|queue| - 1].playerId]
  }

  /** The players who wait in the queue. */
  function PlayersIn(queue: Queue): set<int> {
    if queue == [] then {} else PlayersIn(queue[..|queue| - 1]) + {queue[|queue| - 1].playerId}
  }

  // ----- what the operations do

  function Joined(queues: Queues, player: MatchPlayer): Option<Queues> {
    if player.playerId in queues.index || !IsMode(player.mode) then None
    else
      Some(WithQueue(queues, player.mode, QueueOf(queues, player.mode) + [player])
           .(index := queues.index[player.playerId := player.mode]))
  }

  /** The entries of the queue that belong to other players. */
  function Without(queue: Queue, player: int): Queue {
    if queue == [] then []
    else
      var last := queue[|queue| - 1];
      Without(queue[..|queue| - 1], player) + if last.playerId == player then [] else [last]
  }

  function Cancelled(queues: Queues, player: int): (after: Queues) {
    if player !in queues.index then queues
    else
      var mode := queues.index[player];
      var left := queues.(index := queues.index - {player});
      if !IsMode(mode) then left else WithQueue(left, mode, Without(QueueOf(queues, mode), player))
  }

  predicate CanCancel(queues: Queues, player: int) {
    player in queues.index && IsMode(queues.index[player])
  }

  /** The first players of the queue, if there are enough of them for a room. */
  function Matched(queues: Queues, mode: int): Option<seq<int>> {
    if !IsMode(mode) || |QueueOf(queues, mode)| < mode then None
    else Some(Ids(QueueOf(queues, mode)[..mode]))
  }

  function Popped(queues: Queues, mode: int): Queues {
    if Matched(queues, mode).None? then queues
    else
      var queue := QueueOf(queues, mode);
      WithQueue(queues, mode, queue[mode..])
      .(index := queues.index - PlayersIn(queue[..mode]))
  }

  predicate IsExpired(player: MatchPlayer, nowMs: int, timeoutMs: int) {
    nowMs - player.joinTimeMs >= timeoutMs
  }

  function Expired(queue: Queue, nowMs: int, timeoutMs: int): Queue {
    if queue == [] then []
    else
      var last := queue[|queue| - 1];
      Expired(queue[..|queue| - 1], nowMs, timeoutMs) + if IsExpired(last, nowMs, timeoutMs) then [last] else []
  }

  function Waiting(queue: Queue, nowMs: int, timeoutMs: int): Queue {
    if queue == [] then []
    else
      var last := queue[|queue| - 1];
      Waiting(queue[..|queue| - 1], nowMs, timeoutMs) + if IsExpired(last, nowMs, timeoutMs) then [] else [last]
  }

  function TimedOut(queues: Queues, nowMs: int, timeoutMs: int): seq<MatchPlayer> {
    if timeoutMs <= 0 then []
    else Expired(queues.three, nowMs, timeoutMs) + Expired(queues.four, nowMs, timeoutMs)
  }

  function WithoutTimedOut(queues: Queues, nowMs: int, timeoutMs: int): Queues {
    if timeoutMs <= 0 then queues
    else
      Queues(
        Waiting(queues.three, nowMs, timeoutMs),
        Waiting(queues.four, nowMs, timeoutMs),
        queues.index - PlayersIn(TimedOut(queues, nowMs, timeoutMs)))
  }

  // ----- the queues and the index agree

  /** How many entries of the queue belong to the player. */
  ghost function Entries(queue: Queue, player: int): nat {
    if queue == [] then 0
    else Entries(queue[..|queue| - 1], player) + if queue[|queue| - 1].playerId == player then 1 else 0
  }

  lemma {:induction false} EntriesOfConcat(a: Queue, b: Queue, player: int)
    ensures Entries(a + b, player) == Entries(a, player) + Entries(b, player)
  {
    if b == [] {
      assert a + b == a;
    } else {
      assert (a + b)[..|a + b| - 1] == a + b[..|b| - 1];
      EntriesOfConcat(a, b[..|b| - 1], player);
    }
  }

  lemma {:induction false} PlayersHaveEntries(queue: Queue, player: int)
    ensures player in PlayersIn(queue) <==> Entries(queue, player) > 0
  {
    if queue != [] { PlayersHaveEntries(queue[..|queue| - 1], player); }
  }

  lemma {:induction false} IdsHaveEntries(queue: Queue, player: int)
    ensures player in Ids(queue) <==> Entries(queue, player) > 0
    ensures Entries(queue, player) <= 1 ==>
              forall i, j :: 0 <= i < j < |queue| && queue[i].playerId == player ==> queue[j].playerId != player
  {
    if queue != [] { IdsHaveEntries(queue[..|queue| - 1], player); }
  }

  /** Whether the index has the player waiting for this mode. */
  ghost predicate IsIndexed(queues: Queues, player: int, mode: int) {
    player in queues.index && queues.index[player] == mode
  }

  /** Every waiting player has exactly one entry, in the queue that the index names. */
  ghost predicate QueuesAgree(queues: Queues) {
    && (forall p :: p in queues.index ==> IsMode(queues.index[p]))
    && (forall p :: AgreeOn(queues, p))
  }

  lemma EntriesAppended(queue: Queue, entry: MatchPlayer, p: int)
    ensures Entries(queue + [entry], p) == Entries(queue, p) + if entry.playerId == p then 1 else 0
  {
    assert (queue + [entry])[..|queue|] == queue;
  }

  /** The queues agree as far as one player is concerned. */
  ghost predicate AgreeOn(queues: Queues, p: int) {
    && Entries(queues.three, p) == (if IsIndexed(queues, p, 3) then 1 else 0)
    && Entries(queues.four, p) == (if IsIndexed(queues, p, 4) then 1 else 0)
  }

  lemma JoinedAgreesOn(queues: Queues, player: MatchPlayer, p: int)
    requires Joined(queues, player).Some? && AgreeOn(queues, p)
    ensures AgreeOn(Joined(queues, player).value, p)
  {
    var index := queues.index[player.playerId := player.mode];
    if player.mode == 3 {
      EntriesAppended(queues.three, player, p);
      OneMoreWaits(queues, player, Queues(queues.three + [player], queues.four, index), p);
    } else {
      EntriesAppended(queues.four, player, p);
      OneMoreWaits(queues, player, Queues(queues.three, queues.four + [player], index), p);
    }
  }

  lemma OneMoreWaits(queues: Queues, player: MatchPlayer, after: Queues, p: int)
    requires AgreeOn(queues, p) && player.playerId !in queues.index && IsMode(player.mode)
    requires after.index == queues.index[player.playerId := player.mode]
    requires Entries(after.three, p)
          == Entries(queues.three, p) + if player.playerId == p && player.mode == 3 then 1 else 0
    requires Entries(after.four, p)
          == Entries(queues.four, p) + if player.playerId == p && player.mode == 4 then 1 else 0
    ensures AgreeOn(after, p)
  {
  }

  lemma JoinedAgrees(queues: Queues, player: MatchPlayer)
    requires QueuesAgree(queues) && Joined(queues, player).Some?
    ensures QueuesAgree(Joined(queues, player).value)
  {
    forall p
      ensures AgreeOn(Joined(queues, player).value, p)
    {
      assert AgreeOn(queues, p);
      JoinedAgreesOn(queues, player, p);
    }
  }

  lemma {:induction false} WithoutEntries(queue: Queue, player: int, p: int)
    ensures Entries(Without(queue, player), p) == if p == player then 0 else Entries(queue, p)
  {
    if queue != [] {
      var init, last := queue[..|queue| - 1], queue[|queue| - 1];
      WithoutEntries(init, player, p);
      if last.playerId == player {
        assert Without(queue, player) == Without(init, player);
      } else {
        EntriesAppended(Without(init, player), last, p);
      }
    }
  }

  lemma CancelledAgrees(queues: Queues, player: int)
    requires QueuesAgree(queues)
    ensures QueuesAgree(Cancelled(queues, player))
    ensures Cancelled(queues, player).index == queues.index - {player}
  {
    forall p
      ensures AgreeOn(Cancelled(queues, player), p)
    {
      assert AgreeOn(queues, p);
      WithoutEntries(queues.three, player, p);
      WithoutEntries(queues.four, player, p);
    }
  }

  lemma MatchedAreDistinct(queues: Queues, mode: int)
    requires QueuesAgree(queues) && Matched(queues, mode).Some?
    ensures
      var players := Matched(queues, mode).value;
      && |players| == mode && Distinct(players)
      && forall p :: p in players ==> p in queues.index
  {
    var players := Matched(queues, mode).value;
    forall i, j | 0 <= i < j < |players|
      ensures players[i] != players[j]
    {
      SplitEntries(queues, mode, players[i]);
    }
    forall p | p in players
      ensures p in queues.index
    {
      SplitEntries(queues, mode, p);
    }
  }

  lemma PoppedAgrees(queues: Queues, mode: int)
    requires QueuesAgree(queues) && Matched(queues, mode).Some?
    ensures QueuesAgree(Popped(queues, mode))
    ensures forall p :: p in Popped(queues, mode).index <==> p in queues.index && p !in Matched(queues, mode).value
  {
    forall p
      ensures AgreeOn(Popped(queues, mode), p)
      ensures p in Popped(queues, mode).index <==> p in queues.index && p !in Matched(queues, mode).value
    {
      SplitEntries(queues, mode, p);
    }
  }

  lemma {:induction false} IdsOfConcat(a: Queue, b: Queue)
    ensures Ids(a + b) == Ids(a) + Ids(b)
  {
    if b == [] {
      assert a + b == a;
    } else {
      assert (a + b)[..|a + b| - 1] == a + b[..|b| - 1];
      IdsOfConcat(a, b[..|b| - 1]);
    }
  }

  /** Who joins stands behind all who wait for the mode; nothing else changes in the queues. */
  lemma JoinedStandsLast(queues: Queues, player: MatchPlayer, mode: int)
    requires Joined(queues, player).Some? && IsMode(mode)
    ensures
      Ids(QueueOf(Joined(queues, player).value, mode)) ==
      Ids(QueueOf(queues, mode)) + if mode == player.mode then [player.playerId] else []
  {
    IdsAppended(QueueOf(queues, mode), player);
  }

  /** Those who are matched stood in front of all others who waited for the mode; these stay in their order, and so do
      those who wait for another mode. */
  lemma MatchedStoodFirst(queues: Queues, mode: int, other: int)
    requires Matched(queues, mode).Some? && IsMode(other)
    ensures
      Ids(QueueOf(queues, other)) ==
      (if other == mode then Matched(queues, mode).value else []) + Ids(QueueOf(Popped(queues, mode), other))
  {
    var queue := QueueOf(queues, mode);
    assert queue == queue[..mode] + queue[mode..];
    IdsOfConcat(queue[..mode], queue[mode..]);
    assert [] + Ids(QueueOf(queues, other)) == Ids(QueueOf(queues, other));
  }

  /** The first entries of a queue and the rest, as far as one player is concerned. */
  lemma SplitEntries(queues: Queues, mode: int, p: int)
    requires QueuesAgree(queues) && Matched(queues, mode).Some?
    ensures
      var queue, players := QueueOf(queues, mode), Matched(queues, mode).value;
      && AgreeOn(queues, p)
      && Entries(queue, p) == Entries(queue[..mode], p) + Entries(queue[mode..], p)
      && (p in PlayersIn(queue[..mode]) <==> Entries(queue[..mode], p) > 0)
      && (p in players <==> Entries(queue[..mode], p) > 0)
      && forall i, j :: 0 <= i < j < |players| && players[i] == p ==> players[j] != p
  {
    var queue := QueueOf(queues, mode);
    assert queue == queue[..mode] + queue[mode..];
    assert AgreeOn(queues, p);
    EntriesOfConcat(queue[..mode], queue[mode..], p);
    PlayersHaveEntries(queue[..mode], p);
    IdsHaveEntries(queue[..mode], p);
  }

  /** A timeout splits a queue: everybody is either expired or still waiting. */
  lemma {:induction false} TimeoutSplits(queue: Queue, nowMs: int, timeoutMs: int, p: int)
    ensures Entries(Expired(queue, nowMs, timeoutMs), p) + Entries(Waiting(queue, nowMs, timeoutMs), p)
         == Entries(queue, p)
  {
    if queue != [] {
      var init, last := queue[..|queue| - 1], queue[|queue| - 1];
      TimeoutSplits(init, nowMs, timeoutMs, p);
      if IsExpired(last, nowMs, timeoutMs) {
        EntriesAppended(Expired(init, nowMs, timeoutMs), last, p);
        assert Waiting(queue, nowMs, timeoutMs) == Waiting(init, nowMs, timeoutMs);
      } else {
        EntriesAppended(Waiting(init, nowMs, timeoutMs), last, p);
        assert Expired(queue, nowMs, timeoutMs) == Expired(init, nowMs, timeoutMs);
      }
    }
  }

  lemma TimedOutAgrees(queues: Queues, nowMs: int, timeoutMs: int)
    requires QueuesAgree(queues)
    ensures QueuesAgree(WithoutTimedOut(queues, nowMs, timeoutMs))
    ensures WithoutTimedOut(queues, nowMs, timeoutMs).index
         == queues.index - PlayersIn(TimedOut(queues, nowMs, timeoutMs))
  {
    if timeoutMs > 0 {
      var out3, out4 := Expired(queues.three, nowMs, timeoutMs), Expired(queues.four, nowMs, timeoutMs);
      forall p
        ensures AgreeOn(WithoutTimedOut(queues, nowMs, timeoutMs), p)
      {
        assert AgreeOn(queues, p);
        TimeoutSplits(queues.three, nowMs, timeoutMs, p);
        TimeoutSplits(queues.four, nowMs, timeoutMs, p);
        EntriesOfConcat(out3, out4, p);
        PlayersHaveEntries(out3 + out4, p);
      }
    }
  }

  lemma NextEntry(queue: Queue, i: nat, nowMs: int, timeoutMs: int)
    requires i < |queue|
    ensures Expired(queue[..i + 1], nowMs, timeoutMs)
         == Expired(queue[..i], nowMs, timeoutMs) + if IsExpired(queue[i], nowMs, timeoutMs) then [queue[i]] else []
    ensures Waiting(queue[..i + 1], nowMs, timeoutMs)
         == Waiting(queue[..i], nowMs, timeoutMs) + if IsExpired(queue[i], nowMs, timeoutMs) then [] else [queue[i]]
  {
    assert queue[..i + 1][..i] == queue[..i];
  }

  lemma PlayersAppended(queue: Queue, entry: MatchPlayer)
    ensures PlayersIn(queue + [entry]) == PlayersIn(queue) + {entry.playerId}
  {
    assert (queue + [entry])[..|queue|] == queue;
  }

  lemma IdsAppended(queue: Queue, entry: MatchPlayer)
    ensures Ids(queue + [entry]) == Ids(queue) + [entry.playerId]
  {
    assert (queue + [entry])[..|queue|] == queue;
  }

  lemma OneMoreFirst(queue: Queue, i: nat)
    requires i < |queue|
    ensures Ids(queue[..i + 1]) == Ids(queue[..i]) + [queue[i].playerId]
    ensures PlayersIn(queue[..i + 1]) == PlayersIn(queue[..i]) + {queue[i].playerId}
    ensures queue[i..][0] == queue[i] && queue[i..][1..] == queue[i + 1..]
  {
    assert queue[..i + 1] == queue[..i] + [queue[i]];
    IdsAppended(queue[..i], queue[i]);
    PlayersAppended(queue[..i], queue[i]);
  }

  // ----- the manager

  class MatchManager {
    var three: Queue
    var four: Queue
    var index: map<int, int>

    ghost function View(): Queues
      reads this
    {
      Queues(three, four, index)
    }

    constructor ()
      ensures View() == Queues([], [], map[])
    {
      three, four, index := [], [], map[];
    }

    method Join(player: MatchPlayer) returns (joined: bool)
      modifies this
      ensures joined <==> Joined(old(View()), player).Some?
      ensures View() == if joined then Joined(old(View()), player).value else old(View())
    {
      if player.playerId in index || !IsMode(player.mode) {
        return false;
      }
      if player.mode == 3 {
        three := three + [player];
      } else {
        four := four + [player];
      }
      index := index[player.playerId := player.mode];
      return true;
    }

    method Cancel(player: int) returns (cancelled: bool)
      modifies this
      ensures cancelled <==> CanCancel(old(View()), player)
      ensures View() == Cancelled(old(View()), player)
    {
      if player !in index {
        return false;
      }
      var mode := index[player];
      index := index - {player};
      if mode == 3 {
        three := Without(three, player);
      } else if mode == 4 {
        four := Without(four, player);
      } else {
        return false;
      }
      return true;
    }

    method TryPopMatchedPlayers(mode: int) returns (players: Option<seq<int>>)
      modifies this
      ensures players == Matched(old(View()), mode)
      ensures View() == Popped(old(View()), mode)
    {
      if !IsMode(mode) {
        return None;
      }
      var queue := if mode == 3 then three else four;
      if |queue| < mode {
        return None;
      }
      var popped;
      queue, popped := PopFirst(queue, mode);
      if mode == 3 {
        three := queue;
      } else {
        four := queue;
      }
      return Some(popped);
    }

    /** Takes the first n entries off a queue, and their players out of the index. */
    method PopFirst(queue: Queue, n: nat) returns (left: Queue, popped: seq<int>)
      requires n <= |queue|
      modifies this`index
      ensures left == queue[n..] && popped == Ids(queue[..n])
      ensures index == old(index) - PlayersIn(queue[..n])
    {
      left, popped := queue, [];
      for i := 0 to n
        invariant left == queue[i..] && popped == Ids(queue[..i])
        invariant index == old(index) - PlayersIn(queue[..i])
      {
        var first := left[0];
        OneMoreFirst(queue, i);
        left := left[1..];
        popped := popped + [first.playerId];
        index := index - {first.playerId};
      }
    }

    /** Takes the expired entries out of one queue, erasing while it goes through it. */
    method PopFromQueue(queue: Queue, nowMs: int, timeoutMs: int) returns (left: Queue, out: Queue)
      modifies this`index
      ensures left == Waiting(queue, nowMs, timeoutMs)
      ensures out == Expired(queue, nowMs, timeoutMs)
      ensures index == old(index) - PlayersIn(out)
    {
      left, out := queue, [];
      var i := 0;
      ghost var seen := 0;
      while i < |left|
        invariant 0 <= seen <= |queue| && 0 <= i <= |left|
        invariant left[..i] == Waiting(queue[..seen], nowMs, timeoutMs) && left[i..] == queue[seen..]
        invariant out == Expired(queue[..seen], nowMs, timeoutMs)
        invariant index == old(index) - PlayersIn(out)
        decreases |queue| - seen
      {
        NextEntry(queue, seen, nowMs, timeoutMs);
        assert left[i] == left[i..][0] == queue[seen];
        assert left[i + 1..] == queue[seen + 1..];
        if IsExpired(left[i], nowMs, timeoutMs) {
          PlayersAppended(out, left[i]);
          index := index - {left[i].playerId};
          out := out + [left[i]];
          left := left[..i] + left[i + 1..];
        } else {
          assert left[..i + 1] == left[..i] + [left[i]];
          i := i + 1;
        }
        seen := seen + 1;
      }
      assert queue[..seen] == queue && left[..i] == left;
    }

    method PopTimeoutPlayers(nowMs: int, timeoutMs: int) returns (out: seq<MatchPlayer>)
      modifies this
      ensures out == TimedOut(old(View()), nowMs, timeoutMs)
      ensures View() == WithoutTimedOut(old(View()), nowMs, timeoutMs)
    {
      if timeoutMs <= 0 {
        return [];
      }
      var left3, out3 := PopFromQueue(three, nowMs, timeoutMs);
      three := left3;
      var left4, out4 := PopFromQueue(four, nowMs, timeoutMs);
      four := left4;
      out := out3 + out4;
      PlayersOfConcat(out3, out4);
    }
  }

  lemma {:induction false} PlayersOfConcat(a: Queue, b: Queue)
    ensures PlayersIn(a + b) == PlayersIn(a) + PlayersIn(b)
  {
    if b == [] {
      assert a + b == a;
    } else {
      assert (a + b)[..|a + b| - 1] == a + b[..|b| - 1];
      PlayersOfConcat(a, b[..|b| - 1]);
    }
  }
}
