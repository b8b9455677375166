/** A server in service: tokens are issued for positive ids only, and requests can only ask for rooms of three.
    Then every live room is one of three different players, and can be settled for each of them. */
module InService {
  import opened Basics
  import opened Membership
  import R = Rooms
  import S = Sessions

  predicate CanArise(event: Event) {
    match event
    case Login(player, _, _) => player > 0
    case Match(_, mode, _) => mode in {None, Some(3)}
    case _ => true
  }

  ghost predicate PositiveIds(table: S.SessionTable) {
    forall p :: p in table.sessions ==> p > 0
  }

  ghost predicate RoomsOfThree(seats: Seats) {
    forall r :: r in seats.members ==> |seats.members[r]| == 3
  }

  ghost predicate IsSound(w: World) {
    Valid(w) && PositiveIds(w.table) && RoomsOfThree(w.seats)
  }

  lemma MatchKeepsSessions(w: World, connection: int, mode: Option<int>, nowMs: int)
    requires Valid(w)
    ensures MatchRequested(w, connection, mode, nowMs).table.sessions.Keys == w.table.sessions.Keys
    ensures
      var members := MatchRequested(w, connection, mode, nowMs).seats.members;
      forall r :: r in w.seats.members ==> r in members && members[r] == w.seats.members[r]
  {
    if CanMatch(w, connection, mode, nowMs) {
      var entry := MatchEntry(w, S.PlayerOn(w.table, connection).value, mode.value, nowMs);
      var queues := Matching.Joined(w.queues, entry).value;
      if Matching.Matched(queues, mode.value).Some? {
        var players := Matching.Matched(queues, mode.value).value;
        S.PlacedEach(w.table, players, w.seats.nextRoomId, |players|);
      }
    }
  }

  lemma MatchKeepsSound(w: World, connection: int, mode: Option<int>, nowMs: int)
    requires IsSound(w) && mode in {None, Some(3)}
    ensures IsSound(MatchRequested(w, connection, mode, nowMs))
  {
    MatchKeeps(w, connection, mode, nowMs);
    MatchKeepsSessions(w, connection, mode, nowMs);
    NewRoomsAreFilledFresh(w, connection, mode, nowMs);
  }

  lemma SettleKeepsSound(w: World, roomId: int, winner: int, baseCoin: int, stored: bool)
    requires IsSound(w)
    ensures IsSound(SettlementDone(w, roomId, winner, baseCoin, stored))
  {
    SettleKeeps(w, roomId, winner, baseCoin, stored);
    if Settles(w, roomId, winner, stored) {
      S.PlacedEach(w.table, w.seats.members[roomId], S.NO_ROOM, |w.seats.members[roomId]|);
    }
  }

  lemma NextKeepsSound(w: World, event: Event)
    requires IsSound(w) && CanArise(event)
    ensures IsSound(Next(w, event))
  {
    NextKeeps(w, event);
    match event
    case Match(connection, mode, nowMs) => MatchKeepsSound(w, connection, mode, nowMs);
    case Settle(roomId, winner, baseCoin, stored) => SettleKeepsSound(w, roomId, winner, baseCoin, stored);
    case _ =>
  }

  lemma {:induction false} RunsAreSound(events: seq<Event>)
    requires forall event :: event in events ==> CanArise(event)
    ensures IsSound(Run(events))
  {
    if events != [] {
      RunsAreSound(events[..|events| - 1]);
      NextKeepsSound(Run(events[..|events| - 1]), events[|events| - 1]);
    }
  }

  /** Every room of a sound world seats three different players with positive ids, all of them known. */
  lemma SoundRoomsAreSeated(w: World, roomId: int)
    requires IsSound(w) && roomId in w.seats.members
    ensures R.Seated(w.seats.members[roomId])
    ensures forall p :: p in w.seats.members[roomId] ==> p in w.players
  {
    var players := w.seats.members[roomId];
    MembersAreKnown(w, roomId);
    forall p | p in players
      ensures p > 0
    {
      assert PlayerFits(w, p);
    }
    assert players[0] in players && players[1] in players && players[2] in players;
  }

  /** In every run that can arise, a live room is settled for any of its three players as soon as storage
      takes the transaction. */
  lemma LiveRoomsCanBeSettled(events: seq<Event>, roomId: int, winner: int, stored: bool)
    requires forall event :: event in events ==> CanArise(event)
    requires roomId in Run(events).seats.members
    ensures R.Seated(Run(events).seats.members[roomId])
    ensures Settles(Run(events), roomId, winner, stored) <==> stored && winner in Run(events).seats.members[roomId]
  {
    RunsAreSound(events);
    SoundRoomsAreSeated(Run(events), roomId);
  }
}
