/** Players: their coins and where they are in the life of a game. */
module Players {

  datatype PlayerState = Offline | Lobby | Matching | InRoom | Playing | Settlement

  /** A player id of 0 marks an entry that has not been filled in yet. */
  datatype PlayerData = PlayerData(playerId: int, coin: int, state: PlayerState)

  type PlayerTable = map<int, PlayerData>

  const STARTING_COINS := 1000

  function StateOf(players: PlayerTable, player: int): PlayerState {
    if player in players then players[player].state else Offline
  }

  function CoinOf(players: PlayerTable, player: int): int {
    if player in players then players[player].coin else 0
  }

  predicate IsTransitionAllowed(from: PlayerState, to: PlayerState) {
    from == to ||
    match from
    case Offline => to == Lobby || to == Playing
    case Lobby => to == Matching || to == Offline
    case Matching => to == Lobby || to == InRoom || to == Offline
    case InRoom => to == Playing || to == Offline || to == Lobby
    case Playing => to == Settlement || to == Offline
    case Settlement => to == Lobby || to == Offline
  }

  /** The states of a game in the order in which it goes through them, and back to the lobby. */
  const ROUND: seq<PlayerState> := [Lobby, Matching, InRoom, Playing, Settlement]

  predicate IsStep(i: nat, from: PlayerState, to: PlayerState)
    requires i < 5
  {
    ROUND[i] == from && ROUND[(i + 1) % 5] == to
  }

  /** A change is allowed if it is none, goes offline, or takes one step of the round; waiting or seated players may go
      back to the lobby, and whoever is offline may return to the lobby or to a game under way. Nothing else is. */
  lemma TransitionsGoRound(from: PlayerState, to: PlayerState)
    ensures
      IsTransitionAllowed(from, to) <==>
      || from == to || to == Offline
      || (exists i: nat :: i < 5 && IsStep(i, from, to))
      || (from in {Matching, InRoom} && to == Lobby)
      || (from == Offline && to in {Lobby, Playing})
  {
    assert forall i: nat :: i < 5 && IsStep(i, from, to) ==> i == 0 || i == 1 || i == 2 || i == 3 || i == 4;
    assert IsStep(0, Lobby, Matching) && IsStep(1, Matching, InRoom) && IsStep(2, InRoom, Playing);
    assert IsStep(3, Playing, Settlement) && IsStep(4, Settlement, Lobby);
  }

  /** The player in a forced state; a player with no coins at all gets the starting amount. */
  function Forced(players: PlayerTable, player: int, state: PlayerState): PlayerTable {
    var coin := CoinOf(players, player);
    players[player := PlayerData(player, ToppedUp(coin), state)]
  }

  /** A balance of nothing is topped up when a state is forced. */
  function ToppedUp(coin: int): int {
    if coin == 0 then STARTING_COINS else coin
  }

  /** The table after a state was forced on the first n of these players. */
  function ForcedAll(players: PlayerTable, ids: seq<int>, state: PlayerState, n: nat): PlayerTable
    requires n <= |ids|
  {
    if n == 0 then players else Forced(ForcedAll(players, ids, state, n - 1), ids[n - 1], state)
  }

  lemma {:induction false} ForcedEach(players: PlayerTable, ids: seq<int>, state: PlayerState, n: nat, p: int)
    requires n <= |ids|
    ensures
      var after := ForcedAll(players, ids, state, n);
      && (p in after <==> p in players || p in ids[..n])
      && (p in after ==>
            after[p] == if p in ids[..n] then PlayerData(p, ToppedUp(CoinOf(players, p)), state) else players[p])
  {
    if n > 0 {
      ForcedEach(players, ids, state, n - 1, p);
      assert ids[..n] == ids[..n - 1] + [ids[n - 1]];
    }
  }

  function Upserted(players: PlayerTable, player: int, coin: int): PlayerTable {
    var data := if player in players then players[player] else PlayerData(0, 0, Offline);
    var coin' := if coin > 0 then coin
                 else if data.playerId == 0 && data.coin == 0 then STARTING_COINS
                 else data.coin;
    players[player := PlayerData(player, coin', data.state)]
  }

  function Paid(players: PlayerTable, player: int, delta: int): PlayerTable
    requires player in players
  {
    players[player := players[player].(coin := players[player].coin + delta)]
  }

  /** The table after the first n payments. */
  function PaidAll(players: PlayerTable, changes: seq<(int, int)>, n: nat): (paid: PlayerTable)
    requires n <= |changes| && forall i :: 0 <= i < |changes| ==> changes[i].0 in players
    ensures paid.Keys == players.Keys
  {
    if n == 0 then players else Paid(PaidAll(players, changes, n - 1), changes[n - 1].0, changes[n - 1].1)
  }

  /** What the player of the i-th payment has right after it. */
  function AmountAfter(players: PlayerTable, changes: seq<(int, int)>, i: nat): int
    requires i < |changes| && forall j :: 0 <= j < |changes| ==> changes[j].0 in players
  {
    PaidAll(players, changes, i + 1)[changes[i].0].coin
  }

  class PlayerManager {
    var players: PlayerTable

    constructor ()
      ensures players == map[]
    {
      players := map[];
    }

    method UpsertPlayer(player: int, coin: int)
      modifies this
      ensures players == Upserted(old(players), player, coin)
    {
      var data := if player in players then players[player] else PlayerData(0, 0, Offline);
      var isNewPlayer := data.playerId == 0;
      data := data.(playerId := player);
      if coin > 0 {
        data := data.(coin := coin);
      } else if isNewPlayer && data.coin == 0 {
        data := data.(coin := STARTING_COINS);
      }
      players := players[player := data];
    }

    method SetState(player: int, next: PlayerState) returns (changed: bool)
      modifies this
      ensures changed <==> player in old(players) && IsTransitionAllowed(old(players)[player].state, next)
      ensures players == if changed then old(players)[player := old(players)[player].(state := next)] else old(players)
    {
      if player !in players || !IsTransitionAllowed(players[player].state, next) {
        return false;
      }
      players := players[player := players[player].(state := next)];
      return true;
    }

    method ForceState(player: int, next: PlayerState)
      modifies this
      ensures players == Forced(old(players), player, next)
    {
      var data := if player in players then players[player] else PlayerData(0, 0, Offline);
      data := data.(playerId := player);
      if data.coin == 0 {
        data := data.(coin := STARTING_COINS);
      }
      players := players[player := data.(state := next)];
    }

    method AddCoin(player: int, delta: int) returns (added: bool, after: int)
      modifies this
      ensures added <==> player in old(players)
      ensures players == if added then Paid(old(players), player, delta) else old(players)
      ensures added ==> after == players[player].coin
    {
      if player !in players {
        return false, 0;
      }
      players := players[player := players[player].(coin := players[player].coin + delta)];
      return true, players[player].coin;
    }

    /** Pays all or, if one of the players is unknown, nobody. */
    method BatchAddCoin(changes: seq<(int, int)>) returns (paid: bool, after: seq<int>)
      modifies this
      ensures paid <==> forall i :: 0 <= i < |changes| ==> changes[i].0 in old(players)
      ensures players == if paid then PaidAll(old(players), changes, |changes|) else old(players)
      ensures paid ==> |after| == |changes|
      ensures paid ==> forall i :: 0 <= i < |changes| ==> after[i] == AmountAfter(old(players), changes, i)
    {
      for i := 0 to |changes|
        invariant forall j :: 0 <= j < i ==> changes[j].0 in players
      {
        if changes[i].0 !in players {
          return false, [];
        }
      }
      after := PayAll(changes);
      return true, after;
    }

    method PayAll(changes: seq<(int, int)>) returns (after: seq<int>)
      requires forall i :: 0 <= i < |changes| ==> changes[i].0 in players
      modifies this
      ensures players == PaidAll(old(players), changes, |changes|)
      ensures |after| == |changes|
      ensures forall i :: 0 <= i < |changes| ==> after[i] == AmountAfter(old(players), changes, i)
    {
      after := [];
      for i := 0 to |changes|
        invariant players == PaidAll(old(players), changes, i)
        invariant |after| == i
        invariant forall j :: 0 <= j < i ==> after[j] == AmountAfter(old(players), changes, j)
      {
        var player := changes[i].0;
        players := players[player := players[player].(coin := players[player].coin + changes[i].1)];
        after := after + [players[player].coin];
      }
    }
  }
}
