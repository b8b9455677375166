/** What a snapshot version tells a client: once the first action has started the game, equal versions
    of a room mean equal snapshots. */
module RoomVersions {
  import opened Cards
  import opened Rooms
  import opened RoomInvariant
  import opened RoomRuns

  /** Every seat has a presence entry, and whoever is online has no moment of going offline. */
  ghost predicate Present(players: seq<int>, presence: Presence) {
    && (forall p :: p in players <==> p in presence.online)
    && (forall p :: p in players <==> p in presence.trustee)
    && (forall p :: p in players <==> p in presence.offlineAtMs)
    && (forall p ::
          p in presence.online && presence.online[p] ==> p in presence.offlineAtMs && presence.offlineAtMs[p] == 0)
  }

  lemma NextKeepsPresence(life: Life, deck: seq<int>, event: Event)
    requires Present(life.room.players, life.room.presence) && |deck| == DECK_SIZE
    ensures Present(life.room.players, Next(life, deck, event).room.presence)
  {
  }

  lemma {:induction false} RunKeepsPresence(life: Life, deck: seq<int>, events: seq<Event>)
    requires ValidLife(life) && IsDeck(deck) && |deck| == DECK_SIZE
    requires Present(life.room.players, life.room.presence)
    ensures Present(life.room.players, Run(life, deck, events).room.presence)
  {
    if events != [] {
      var last := |events| - 1;
      RunKeepsPresence(life, deck, events[..last]);
      RunIsValid(life, deck, events[..last]);
      NextKeepsPresence(Run(life, deck, events[..last]), deck, events[last]);
    }
  }

  lemma ReachableIsPresent(life: Life, players: seq<int>, deck: seq<int>)
    requires Reachable(life, players, deck)
    ensures Present(players, life.room.presence)
  {
    var roomId, mode, events :| life == Run(NewLife(roomId, mode, players), deck, events);
    NewLifeIsValid(roomId, mode, players);
    RunKeepsPresence(NewLife(roomId, mode, players), deck, events);
  }

  /** An event that starts the game by an action that is then rejected. */
  ghost predicate StartsRejected(room: Room, event: Event) {
    && room.game.state == WaitStart
    && event.Action?
    && event.player in room.players && event.player == room.game.operator
    && (event.request.actionType != CallScore || !(0 <= event.request.callScore <= 3))
  }

  /** A step either raises the version or leaves the room as it was, with one exception. */
  lemma StepRaisesVersion(life: Life, deck: seq<int>, event: Event)
    requires ValidLife(life) && Present(life.room.players, life.room.presence)
    requires |deck| == DECK_SIZE && IsDeck(deck) && !StartsRejected(life.room, event)
    ensures
      var next := Next(life, deck, event).room;
      next.snapshotVersion > life.room.snapshotVersion || next == life.room
  {
    match event
    case Action(player, request) => ActionRaisesVersion(life, deck, player, request);
    case TrusteeTurn(player) =>
      var choice := TrusteeAction(life.room.game, player);
      if choice.Choose? {
        ActionRaisesVersion(life, deck, player, choice.request);
      }
    case Online(player) => ReturnRaisesVersion(life.room, player);
    case _ =>
  }

  lemma ReturnRaisesVersion(room: Room, player: int)
    requires Present(room.players, room.presence)
    ensures
      var next := OrElse(CameOnline(room, player), room);
      next.snapshotVersion > room.snapshotVersion || next == room
  {
    var presence := room.presence;
    if player in presence.online && presence.online[player] && !IsTrustee(presence, player) {
      assert presence.online[player := true] == presence.online;
      assert presence.trustee[player := false] == presence.trustee;
      assert presence.offlineAtMs[player := 0] == presence.offlineAtMs;
    }
  }

  lemma ActionRaisesVersion(life: Life, deck: seq<int>, player: int, request: ActionRequest)
    requires ValidLife(life) && |deck| == DECK_SIZE && IsDeck(deck)
    requires !StartsRejected(life.room, Action(player, request))
    ensures
      var next := Acted(life, deck, player, request).room;
      next.snapshotVersion > life.room.snapshotVersion || next == life.room
  {
    RejectedIsSame(life.room.players, life.history, deck, player, request);
  }

  lemma RejectedIsSame(players: seq<int>, h: History, deck: seq<int>, player: int, request: ActionRequest)
    requires Valid(players, h) && |deck| == DECK_SIZE
    requires h.game.state == WaitStart && player in players && player == h.game.operator ==>
               request.actionType == CallScore && 0 <= request.callScore <= 3
    ensures
      var step := Act(h.game, players, deck, player, request);
      step.outcome.Accepted? || step.game == h.game
  {
    if player in players && h.game.operator == player && h.game.state !in {Settling, Finished} {
      if h.game.state == WaitStart {
        FirstCallIsAccepted(Started(h.game, players, deck), players, player, request);
      } else {
        TurnHasLandlordHand(players, h, request);
        if ActInTurn(h.game, players, player, request).outcome.Rejected? {
          RejectedTurn(h.game, players, request);
        }
      }
    }
  }

  lemma FirstCallIsAccepted(game: Game, players: seq<int>, player: int, request: ActionRequest)
    requires game.state == CallingScore && request.actionType == CallScore && 0 <= request.callScore <= 3
    ensures ActInTurn(game, players, player, request).outcome.Accepted?
  {
  }

  /** The exception: a first action that is rejected still starts the game, under the old version. */
  lemma RejectedStartKeepsVersion(life: Life, deck: seq<int>, event: Event)
    requires |deck| == DECK_SIZE && StartsRejected(life.room, event)
    ensures
      var next := Next(life, deck, event).room;
      && next.snapshotVersion == life.room.snapshotVersion
      && next.game.state == CallingScore
      && PushSnapshotOf(next) != PushSnapshotOf(life.room)
  {
    assert SnapshotOf(Next(life, deck, event).room).state == CallingScore;
  }

  /** Exactly when a step of a reachable room changes what clients see without raising the version. */
  lemma VersionMissesAChange(life: Life, players: seq<int>, deck: seq<int>, event: Event)
    requires Reachable(life, players, deck)
    ensures
      var next := Next(life, deck, event).room;
      next.snapshotVersion == life.room.snapshotVersion && PushSnapshotOf(next) != PushSnapshotOf(life.room)
      <==> StartsRejected(life.room, event)
  {
    ReachableIsValid(life, players, deck);
    ReachableIsPresent(life, players, deck);
    if StartsRejected(life.room, event) {
      RejectedStartKeepsVersion(life, deck, event);
    } else {
      StepRaisesVersion(life, deck, event);
    }
  }

  /** A started game never goes back to waiting for its start. */
  lemma StartedStaysStarted(life: Life, deck: seq<int>, event: Event)
    requires |deck| == DECK_SIZE && life.room.game.state != WaitStart
    ensures Next(life, deck, event).room.game.state != WaitStart
  {
    match event
    case Action(player, request) => ActionStaysStarted(life.room.game, life.room.players, deck, player, request);
    case TrusteeTurn(player) =>
      var choice := TrusteeAction(life.room.game, player);
      if choice.Choose? {
        ActionStaysStarted(life.room.game, life.room.players, deck, player, choice.request);
      }
    case _ =>
  }

  lemma ActionStaysStarted(game: Game, players: seq<int>, deck: seq<int>, player: int, request: ActionRequest)
    requires |deck| == DECK_SIZE && game.state != WaitStart
    ensures Act(game, players, deck, player, request).game.state != WaitStart
  {
  }

  lemma {:induction false} VersionsGrow(life: Life, deck: seq<int>, events: seq<Event>)
    requires ValidLife(life) && Present(life.room.players, life.room.presence)
    requires IsDeck(deck) && |deck| == DECK_SIZE && life.room.game.state != WaitStart
    ensures
      var later := Run(life, deck, events).room;
      && later.game.state != WaitStart
      && (later.snapshotVersion > life.room.snapshotVersion || later == life.room)
  {
    if events != [] {
      var last := |events| - 1;
      var before := Run(life, deck, events[..last]);
      VersionsGrow(life, deck, events[..last]);
      RunIsValid(life, deck, events[..last]);
      RunKeepsPresence(life, deck, events[..last]);
      StepRaisesVersion(before, deck, events[last]);
      StartedStaysStarted(before, deck, events[last]);
    }
  }

  /** Between any two moments of a started game: the version never falls, and if it is the same, the
      whole room is the same, and with it every snapshot a client can be sent. */
  lemma EqualVersionsMeanEqualSnapshots(life: Life, players: seq<int>, deck: seq<int>, events: seq<Event>)
    requires Reachable(life, players, deck) && life.room.game.state != WaitStart
    ensures
      var later := Run(life, deck, events).room;
      && later.snapshotVersion >= life.room.snapshotVersion
      && (later.snapshotVersion == life.room.snapshotVersion ==>
            later == life.room && PushSnapshotOf(later) == PushSnapshotOf(life.room))
  {
    ReachableIsValid(life, players, deck);
    ReachableIsPresent(life, players, deck);
    VersionsGrow(life, deck, events);
  }
}
