/** What the snapshot of a reachable room tells of its game, and what it shows after a player has gone, returned or
    handed over to the trustee. */
module RoomSnapshots {
  import opened Cards
  import opened Basics
  import opened Rooms
  import opened RoomInvariant
  import opened RoomRuns
  import opened RoomTrustee
  import opened RoomActions

  // ----- the game

  lemma ActionIsNumbered(life: Life, deck: seq<int>, event: Event)
    requires |deck| == DECK_SIZE
    ensures
      Next(life, deck, event).room.lastActionSeq - Next(life, deck, event).history.accepted ==
      life.room.lastActionSeq - life.history.accepted
  {
  }

  lemma {:induction false} ActionsAreNumbered(life: Life, deck: seq<int>, events: seq<Event>)
    requires |deck| == DECK_SIZE
    ensures
      Run(life, deck, events).room.lastActionSeq - Run(life, deck, events).history.accepted ==
      life.room.lastActionSeq - life.history.accepted
  {
    if events != [] {
      var last := |events| - 1;
      ActionsAreNumbered(life, deck, events[..last]);
      ActionIsNumbered(Run(life, deck, events[..last]), deck, events[last]);
    }
  }

  /** In every reachable room, the snapshot counts the actions that have been accepted. */
  lemma SnapshotCountsActions(life: Life, players: seq<int>, deck: seq<int>)
    requires Reachable(life, players, deck)
    ensures SnapshotOf(life.room).lastActionSeq == life.history.accepted
  {
    var roomId, mode, events :| life == Run(NewLife(roomId, mode, players), deck, events);
    ActionsAreNumbered(NewLife(roomId, mode, players), deck, events);
  }

  /** An action of the player would be accepted. */
  ghost predicate CanAct(game: Game, players: seq<int>, deck: seq<int>, player: int)
    requires |deck| == DECK_SIZE
  {
    exists request :: Act(game, players, deck, player, request).outcome.Accepted?
  }

  /** Until the game is over, the operator of the snapshot is the one player who can act; then nobody can. */
  lemma SnapshotNamesWhoCanAct(life: Life, players: seq<int>, deck: seq<int>, player: int)
    requires Reachable(life, players, deck)
    ensures
      CanAct(life.room.game, players, deck, player) <==>
      player == SnapshotOf(life.room).currentOperator && SnapshotOf(life.room).state !in {Settling, Finished}
  {
    var game := life.room.game;
    if CanAct(game, players, deck, player) {
      var request :| Act(game, players, deck, player, request).outcome.Accepted?;
      ActionIsAccepted(life, players, deck, player, request);
    } else if player == game.operator && !IsOver(game) {
      OperatorCanAct(life, players, deck);
    }
  }

  lemma OperatorCanAct(life: Life, players: seq<int>, deck: seq<int>)
    requires Reachable(life, players, deck) && !IsOver(life.room.game)
    ensures CanAct(life.room.game, players, deck, life.room.game.operator)
  {
    var game := life.room.game;
    if game.state == WaitStart {
      var call := ActionRequest(CallScore, 0, -1, []);
      ActionIsAccepted(life, players, deck, game.operator, call);
      assert Act(game, players, deck, game.operator, call).outcome.Accepted?;
    } else {
      ReachableIsValid(life, players, deck);
      TrusteeIsAccepted(players, life.history, deck);
      match TrusteeAction(game, game.operator)
      case Choose(request) => assert Act(game, players, deck, game.operator, request).outcome.Accepted?;
      case NoChoice(_) =>
    }
  }

  /** Whoever ends the game is paid the stake of the snapshot, which is that of the auction, as its landlord is. */
  lemma SnapshotTellsTheStake(life: Life, players: seq<int>, deck: seq<int>, player: int, request: ActionRequest)
    requires Reachable(life, players, deck) && life.room.game.state == Playing
    ensures
      var snapshot, calls, robs := SnapshotOf(life.room), life.history.calls, life.history.robs;
      && calls != [] && snapshot.landlord == Seat(players, LandlordSeat(calls, robs))
      && snapshot.baseCoin == BaseCoin(calls, robs)
    ensures
      var outcome := Act(life.room.game, players, deck, player, request).outcome;
      outcome.Accepted? && outcome.gameOver ==> outcome.baseCoin == SnapshotOf(life.room).baseCoin
  {
    ReachableIsValid(life, players, deck);
    AuctionIsOver(players, life.history);
    var outcome := Act(life.room.game, players, deck, player, request).outcome;
    if outcome.Accepted? {
      ActionIsAccepted(life, players, deck, player, request);
      if request.actionType == PlayCards {
        PlayTakesEffect(life, players, deck, player, request);
      } else {
        PassTakesEffect(life, players, deck, player, request);
      }
    }
  }

  lemma AuctionIsOver(players: seq<int>, h: History)
    requires Seated(players) && AuctionFollows(players, h) && h.game.state == Playing
    ensures h.calls != [] && h.game.auction.landlord == Seat(players, LandlordSeat(h.calls, h.robs))
    ensures h.game.auction.baseCoin == BaseCoin(h.calls, h.robs)
  {
  }

  // ----- presence

  /** Since when a player has been away; 0 if the player is not. */
  function AwaySince(presence: Presence, player: int): int {
    if player in presence.offlineAtMs && presence.offlineAtMs[player] > 0 then presence.offlineAtMs[player] else 0
  }

  ghost predicate SeenAs(presence: Presence, player: int, online: bool, trusted: bool, awaySince: int) {
    && IsOnline(presence, player) == online
    && IsTrustee(presence, player) == trusted
    && AwaySince(presence, player) == awaySince
  }

  /** Everybody else is seen as before, and the game is as it was. */
  ghost predicate OnlyOneMoved(before: Room, after: Room, player: int) {
    && after.game == before.game && after.players == before.players
    && forall p :: p != player ==>
         SeenAs(after.presence, p, IsOnline(before.presence, p), IsTrustee(before.presence, p),
                AwaySince(before.presence, p))
  }

  /** A new room is waiting to be started by the first player; everybody is there and nobody trusts the trustee. */
  lemma NewRoomIsShownAs(roomId: int, mode: int, players: seq<int>)
    requires Seated(players)
    ensures
      var snapshot := SnapshotOf(NewRoom(roomId, mode, players));
      && snapshot.roomId == roomId && snapshot.mode == mode && snapshot.players == players
      && snapshot.state == WaitStart && snapshot.currentOperator == players[0]
      && snapshot.snapshotVersion == 1 && snapshot.lastActionSeq == 0
      && snapshot.landlord == NOBODY && snapshot.baseCoin == 1
    ensures forall p :: p in players ==> SeenAs(NewRoom(roomId, mode, players).presence, p, true, false, 0)
  {
  }

  /** Who returns is seen online and away no longer, and takes back over from the trustee. */
  lemma ReturnIsSeen(room: Room, player: int)
    requires CameOnline(room, player).Some?
    ensures
      var after := CameOnline(room, player).value;
      SeenAs(after.presence, player, true, false, 0) && OnlyOneMoved(room, after, player)
  {
  }

  /** Who goes is seen offline, and away since then, or since an earlier time if already offline; the trustee neither
      takes over nor leaves. */
  lemma LeavingIsSeen(room: Room, player: int, atMs: int)
    requires WentOffline(room, player, atMs).Some? && atMs > 0
    ensures
      var after, since := WentOffline(room, player, atMs).value, AwaySince(room.presence, player);
      && SeenAs(after.presence, player, false, IsTrustee(room.presence, player),
                if !IsOnline(room.presence, player) && since > 0 then since else atMs)
      && OnlyOneMoved(room, after, player)
  {
  }

  /** Handing over to the trustee, or taking back, changes nothing else that is seen. */
  lemma HandoverIsSeen(room: Room, player: int, trusted: bool)
    requires SetTrustee(room, player, trusted).Some?
    ensures
      var after := SetTrustee(room, player, trusted).value;
      && SeenAs(after.presence, player, IsOnline(room.presence, player), trusted, AwaySince(room.presence, player))
      && OnlyOneMoved(room, after, player)
  {
  }
}
