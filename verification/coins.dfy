/** All coins that players hold, over whole runs of the server: a thousand for everybody who ever arrived,
    and a thousand more for each time somebody was left with nothing. */
module CoinsInCirculation {
  import opened Basics
  import opened Membership
  import opened SettlementLedger

  /** The players in the order in which they first logged in. */
  ghost function Arrived(events: seq<Event>): seq<int> {
    if events == [] then []
    else
      var before, last := events[..|events| - 1], events[|events| - 1];
      ArrivedWith(Run(before), last, Arrived(before))
  }

  /** How many players the settlements of a run left with nothing. */
  ghost function LeftWithNothing(events: seq<Event>): nat {
    if events == [] then 0
    else
      var before, last := events[..|events| - 1], events[|events| - 1];
      LeftWithNothing(before) + EmptiedBy(Run(before), last)
  }

  ghost function EmptiedBy(w: World, event: Event): nat {
    match event
    case Settle(roomId, winner, baseCoin, stored) =>
      if Settles(w, roomId, winner, stored) then
        var players := w.seats.members[roomId];
        SettlementLedger.Emptied(w.players, players, winner, baseCoin, players)
      else 0
    case _ => 0
  }

  // ----- sums

  ghost function Sum(ids: seq<int>, f: int -> int): int {
    if ids == [] then 0 else Sum(ids[..|ids| - 1], f) + f(ids[|ids| - 1])
  }

  lemma SumOneMore(ids: seq<int>, id: int, f: int -> int)
    ensures Sum(ids + [id], f) == Sum(ids, f) + f(id)
  {
    assert (ids + [id])[..|ids|] == ids;
  }

  lemma {:induction false} SumWithout(ids: seq<int>, i: nat, f: int -> int)
    requires i < |ids|
    ensures Sum(ids, f) == Sum(ids[..i] + ids[i + 1..], f) + f(ids[i])
    decreases |ids|
  {
    var n := |ids| - 1;
    if i == n {
      assert ids[..i] + ids[i + 1..] == ids[..n];
    } else {
      SumWithout(ids[..n], i, f);
      var rest := ids[..n][..i] + ids[..n][i + 1..];
      assert ids[..i] + ids[i + 1..] == rest + [ids[n]];
      SumOneMore(rest, ids[n], f);
    }
  }

  /** What changes only for some of different players changes in sum by what it changes for those. */
  lemma {:induction false} SumOfPart(all: seq<int>, part: seq<int>, f: int -> int)
    requires Distinct(all) && Distinct(part) && forall i :: 0 <= i < |part| ==> part[i] in all
    requires forall p :: p in all && p !in part ==> f(p) == 0
    ensures Sum(all, f) == Sum(part, f)
    decreases |all|
  {
    if all != [] {
      var n := |all| - 1;
      var last := all[n];
      if last in part {
        var i :| 0 <= i < |part| && part[i] == last;
        var rest := part[..i] + part[i + 1..];
        SumWithout(part, i, f);
        RestIsPart(all, part, i);
        SumOfPart(all[..n], rest, f);
      } else {
        PartWithoutLast(all, part);
        SumOfPart(all[..n], part, f);
      }
    }
  }

  lemma PartWithoutLast(all: seq<int>, part: seq<int>)
    requires all != [] && all[|all| - 1] !in part && forall i :: 0 <= i < |part| ==> part[i] in all
    ensures forall i :: 0 <= i < |part| ==> part[i] in all[..|all| - 1]
  {
    forall i | 0 <= i < |part|
      ensures part[i] in all[..|all| - 1]
    {
      var j :| 0 <= j < |all| && all[j] == part[i];
      assert all[..|all| - 1][j] == part[i];
    }
  }

  /** Different numbers without one of them are the others. */
  lemma OthersRemain(part: seq<int>, i: nat)
    requires Distinct(part) && i < |part|
    ensures
      var rest := part[..i] + part[i + 1..];
      Distinct(rest) && forall p :: p in rest <==> p in part && p != part[i]
  {
    var rest := part[..i] + part[i + 1..];
    assert part == part[..i] + [part[i]] + part[i + 1..];
    forall j | 0 <= j < |rest|
      ensures rest[j] == if j < i then part[j] else part[j + 1]
    {
    }
    forall p | p in rest
      ensures p in part && p != part[i]
    {
      var j :| 0 <= j < |rest| && rest[j] == p;
    }
  }

  lemma RestIsPart(all: seq<int>, part: seq<int>, i: nat)
    requires Distinct(all) && Distinct(part) && all != [] && i < |part| && part[i] == all[|all| - 1]
    requires forall i :: 0 <= i < |part| ==> part[i] in all
    ensures
      var rest := part[..i] + part[i + 1..];
      && Distinct(rest) && (forall j :: 0 <= j < |rest| ==> rest[j] in all[..|all| - 1])
      && forall p :: p in all[..|all| - 1] && p !in rest ==> p in all && p !in part
  {
    var rest := part[..i] + part[i + 1..];
    OthersRemain(part, i);
    forall j | 0 <= j < |rest|
      ensures rest[j] in all
    {
      assert rest[j] in rest;
      assert rest[j] in part;
    }
    assert all[|all| - 1] !in rest;
    PartWithoutLast(all, rest);
  }

  lemma {:induction false} TotalChanges(before: P.PlayerTable, after: P.PlayerTable, ids: seq<int>, change: int -> int)
    requires forall p :: change(p) == P.CoinOf(after, p) - P.CoinOf(before, p)
    ensures TotalCoins(after, ids) == TotalCoins(before, ids) + Sum(ids, change)
  {
    if ids != [] {
      TotalChanges(before, after, ids[..|ids| - 1], change);
    }
  }

  lemma {:induction false} SameTotal(before: P.PlayerTable, after: P.PlayerTable, ids: seq<int>)
    requires forall p :: p in ids ==> P.CoinOf(after, p) == P.CoinOf(before, p)
    ensures TotalCoins(after, ids) == TotalCoins(before, ids)
  {
    if ids != [] {
      SameTotal(before, after, ids[..|ids| - 1]);
    }
  }

  // ----- nobody is ever without coins

  ghost predicate NobodyIsBroke(players: P.PlayerTable) {
    forall p :: p in players ==> players[p].coin != 0
  }

  ghost predicate SameCoins(before: P.PlayerTable, after: P.PlayerTable) {
    after.Keys == before.Keys && forall p :: p in before ==> after[p].coin == before[p].coin
  }

  /** Every request but a first login and a settlement leaves all balances alone. */
  lemma BalancesStay(w: World, event: Event)
    requires Membership.Valid(w) && NobodyIsBroke(w.players) && !event.Settle?
    requires event.Login? ==> event.player in w.players
    ensures SameCoins(w.players, Next(w, event).players)
  {
    match event
    case Match(connection, mode, nowMs) =>
      if CanMatch(w, connection, mode, nowMs) {
        MatchKeepsCoins(w, connection, mode, nowMs);
      }
    case MatchTimeout(nowMs, timeoutMs) =>
      var out := Matching.TimedOut(w.queues, nowMs, timeoutMs);
      LobbyKeepsCoins(w.players, out, |out|);
    case CancelMatch(connection) => CancelKeepsCoins(w, connection);
    case Reconnect(player, _, _, _) => assert PlayerFits(w, player);
    case Close(connection, nowMs) => CloseKeepsCoins(w, connection, nowMs);
    case _ =>
  }

  lemma CancelKeepsCoins(w: World, connection: int)
    requires Membership.Valid(w) && NobodyIsBroke(w.players)
    ensures SameCoins(w.players, CancelRequested(w, connection).players)
  {
  }

  lemma CloseKeepsCoins(w: World, connection: int, nowMs: int)
    requires Membership.Valid(w) && NobodyIsBroke(w.players)
    ensures SameCoins(w.players, ConnectionClosed(w, connection, nowMs).players)
  {
    if connection in w.table.connToPlayer {
      assert PlayerFits(w, w.table.connToPlayer[connection]);
    }
  }

  lemma {:induction false} LobbyKeepsCoins(players: P.PlayerTable, entries: seq<Matching.MatchPlayer>, n: nat)
    requires n <= |entries| && NobodyIsBroke(players)
    ensures SameCoins(players, BackInLobby(players, entries, n))
  {
    if n > 0 {
      LobbyKeepsCoins(players, entries, n - 1);
    }
  }

  lemma MatchKeepsCoins(w: World, connection: int, mode: Option<int>, nowMs: int)
    requires Membership.Valid(w) && NobodyIsBroke(w.players) && CanMatch(w, connection, mode, nowMs)
    ensures SameCoins(w.players, MatchRequested(w, connection, mode, nowMs).players)
  {
    var player := Sessions.PlayerOn(w.table, connection).value;
    var entry := MatchEntry(w, player, mode.value, nowMs);
    var entered := EnteredMatching(w.players, player);
    var joined := Matching.Joined(w.queues, entry).value;
    Matching.JoinedAgrees(w.queues, entry);
    if Matching.Matched(joined, mode.value).Some? {
      var players := Matching.Matched(joined, mode.value).value;
      Matching.MatchedAreDistinct(joined, mode.value);
      forall p | p in players
        ensures p in entered
      {
        assert PlayerFits(w, p);
      }
      ForcedKeepsCoins(entered, players, P.InRoom);
    }
  }

  lemma ForcedKeepsCoins(players: P.PlayerTable, ids: seq<int>, state: P.PlayerState)
    requires NobodyIsBroke(players) && forall p :: p in ids ==> p in players
    ensures SameCoins(players, P.ForcedAll(players, ids, state, |ids|))
  {
    assert ids[..|ids|] == ids;
    forall p
      ensures p in P.ForcedAll(players, ids, state, |ids|) <==> p in players
      ensures p in players ==> P.ForcedAll(players, ids, state, |ids|)[p].coin == players[p].coin
    {
      P.ForcedEach(players, ids, state, |ids|, p);
    }
  }

  // ----- the total

  /** A settlement adds a thousand to the total for everybody it leaves with nothing. */
  lemma SettlingAdds(table: P.PlayerTable, players: seq<int>, winner: int, baseCoin: int, all: seq<int>)
    requires Distinct(players) && winner in players && NobodyIsBroke(table)
    requires Distinct(all) && (forall p :: p in all <==> p in table) && forall p :: p in players ==> p in table
    ensures
      var after := Settled(table, players, winner, baseCoin);
      && NobodyIsBroke(after)
      && TotalCoins(after, all)
         == TotalCoins(table, all)
            + P.STARTING_COINS * SettlementLedger.Emptied(table, players, winner, baseCoin, players)
  {
    var after := Settled(table, players, winner, baseCoin);
    var change := p => P.CoinOf(after, p) - P.CoinOf(table, p);
    CoinsAreConserved(table, players, winner, baseCoin);
    TotalChanges(table, after, all, change);
    TotalChanges(table, after, players, change);
    SumOfPart(all, players, change);
  }

  lemma SettlementAdds(w: World, roomId: int, winner: int, baseCoin: int, all: seq<int>)
    requires Membership.Valid(w) && NobodyIsBroke(w.players) && Settles(w, roomId, winner, true)
    requires Distinct(all) && forall p :: p in all <==> p in w.players
    ensures
      var event := Settle(roomId, winner, baseCoin, true);
      && Next(w, event).players.Keys == w.players.Keys && NobodyIsBroke(Next(w, event).players)
      && TotalCoins(Next(w, event).players, all)
         == TotalCoins(w.players, all) + P.STARTING_COINS * EmptiedBy(w, event)
  {
    var players := w.seats.members[roomId];
    ReleasedIsSettled(w.players, players, winner, baseCoin);
    SettlingAdds(w.players, players, winner, baseCoin, all);
  }

  /** Who has arrived after one more event. */
  ghost function ArrivedWith(w: World, event: Event, arrived: seq<int>): seq<int> {
    if event.Login? && event.player !in w.players then arrived + [event.player] else arrived
  }

  ghost predicate AddUp(players: P.PlayerTable, arrived: seq<int>, n: nat) {
    && Distinct(arrived) && (forall p :: p in arrived <==> p in players)
    && NobodyIsBroke(players)
    && TotalCoins(players, arrived) == P.STARTING_COINS * (|arrived| + n)
  }

  lemma SettlementAddsUp(w: World, roomId: int, winner: int, baseCoin: int, stored: bool, arrived: seq<int>, n: nat)
    requires Membership.Valid(w) && AddUp(w.players, arrived, n)
    ensures
      var event := Settle(roomId, winner, baseCoin, stored);
      AddUp(Next(w, event).players, arrived, n + EmptiedBy(w, event))
  {
    if Settles(w, roomId, winner, stored) {
      SettlementAdds(w, roomId, winner, baseCoin, arrived);
    }
  }

  lemma FirstLoginAddsUp(w: World, player: int, connection: int, nowMs: int, arrived: seq<int>, n: nat)
    requires player !in w.players && AddUp(w.players, arrived, n)
    ensures AddUp(LoggedIn(w, player, connection, nowMs).players, arrived + [player], n)
  {
    FirstLogin(w, player, connection, nowMs);
    ArrivalAddsUp(w.players, LoggedIn(w, player, connection, nowMs).players, player, arrived, n);
  }

  lemma BalancesAddUp(before: P.PlayerTable, after: P.PlayerTable, arrived: seq<int>, n: nat)
    requires AddUp(before, arrived, n) && SameCoins(before, after)
    ensures AddUp(after, arrived, n)
  {
    SameTotal(before, after, arrived);
  }

  lemma NextAddsUp(w: World, event: Event, arrived: seq<int>, n: nat)
    requires Membership.Valid(w) && AddUp(w.players, arrived, n)
    ensures AddUp(Next(w, event).players, ArrivedWith(w, event, arrived), n + EmptiedBy(w, event))
  {
    if event.Settle? {
      SettlementAddsUp(w, event.roomId, event.winner, event.baseCoin, event.stored, arrived, n);
    } else if event.Login? && event.player !in w.players {
      FirstLoginAddsUp(w, event.player, event.connection, event.nowMs, arrived, n);
    } else {
      BalancesStay(w, event);
      BalancesAddUp(w.players, Next(w, event).players, arrived, n);
    }
  }

  /** In every run: everybody who has arrived has coins, and all coins together are a thousand for each of
      them and for each time a settlement left somebody with nothing. */
  lemma {:induction false} CoinsAddUp(events: seq<Event>)
    ensures
      var players, arrived := Run(events).players, Arrived(events);
      && Distinct(arrived) && (forall p :: p in arrived <==> p in players)
      && NobodyIsBroke(players)
      && TotalCoins(players, arrived) == P.STARTING_COINS * (|arrived| + LeftWithNothing(events))
  {
    if events != [] {
      var before, last := events[..|events| - 1], events[|events| - 1];
      CoinsAddUp(before);
      RunsAreValid(before);
      NextAddsUp(Run(before), last, Arrived(before), LeftWithNothing(before));
    }
  }

  lemma FirstLogin(w: World, player: int, connection: int, nowMs: int)
    requires player !in w.players
    ensures
      var after := LoggedIn(w, player, connection, nowMs).players;
      && after.Keys == w.players.Keys + {player} && after[player].coin == P.STARTING_COINS
      && forall p :: p in w.players ==> after[p] == w.players[p]
  {
  }

  lemma ArrivalAddsUp(before: P.PlayerTable, after: P.PlayerTable, player: int, arrived: seq<int>, n: nat)
    requires player !in before && AddUp(before, arrived, n)
    requires after.Keys == before.Keys + {player} && after[player].coin == P.STARTING_COINS
    requires forall p :: p in before ==> after[p] == before[p]
    ensures AddUp(after, arrived + [player], n)
  {
    SameTotal(before, after, arrived);
    TotalOneMore(after, arrived, player);
    OneMoreArrived(arrived, player);
  }

  lemma TotalOneMore(table: P.PlayerTable, ids: seq<int>, id: int)
    ensures TotalCoins(table, ids + [id]) == TotalCoins(table, ids) + P.CoinOf(table, id)
  {
    assert (ids + [id])[..|ids|] == ids;
  }

  lemma OneMoreArrived(arrived: seq<int>, player: int)
    requires Distinct(arrived) && player !in arrived
    ensures Distinct(arrived + [player]) && forall p :: p in arrived + [player] <==> p in arrived || p == player
  {
  }
}
