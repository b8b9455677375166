/** The steps of the server as functions of who waits, who sits where and what the rooms are: the answers to
    requests, what the timer notes, and what comes of an attempt to settle a room. */
module ServerSteps {
  import opened Basics
  import opened Membership
  import opened InService
  import Cards
  import M = Matching
  import RM = RoomManagement
  import SS = SettlementServices
  import St = Storage

  datatype Code =
    | Ok
    | NotLogin
    | MatchModeInvalid
    | PlayerAlreadyInRoom
    | InvalidPlayerState
    | PlayerAlreadyMatching
    | MatchCancelFailed
    | ReconnectRoomMismatch
    | SnapshotVersionConflict
    | NotSettled(error: SS.ErrorCode)

  /** The only mode that requests may ask for is that of three players. */
  function ParseMode(requested: Option<int>): Option<int> {
    if requested == Some(3) then requested else None
  }

  function MatchAnswer(w: World, connection: int, mode: Option<int>): Code {
    match S.PlayerOn(w.table, connection)
    case None => NotLogin
    case Some(player) =>
      var state := P.StateOf(w.players, player);
      if mode.None? then MatchModeInvalid
      else if state in {P.InRoom, P.Playing, P.Settlement} then PlayerAlreadyInRoom
      else if state != P.Lobby then InvalidPlayerState
      else if player in w.queues.index then PlayerAlreadyMatching
      else Ok
  }

  function CancelAnswer(w: World, connection: int): Code {
    match S.PlayerOn(w.table, connection)
    case None => NotLogin
    case Some(player) =>
      if P.StateOf(w.players, player) != P.Matching then InvalidPlayerState
      else if !M.CanCancel(w.queues, player) then MatchCancelFailed
      else Ok
  }

  datatype LoginReply = LoginReply(
    coin: int, roomId: int, snapshot: Option<R.RoomSnapshot>, oldConnection: Option<int>)

  /** The answer to an action: refused, or accepted, with the code of the settlement if one was due. */
  function ActionAnswer(outcome: R.Outcome, settled: Option<SS.SettlementResult>): Code {
    if outcome.Rejected? then InvalidPlayerState
    else if settled.Some? && settled.value.code != SS.Ok then NotSettled(settled.value.code)
    else Ok
  }

  ghost function MembersOf(rooms: map<int, R.Room>): map<int, seq<int>> {
    map id | id in rooms :: rooms[id].players
  }

  lemma SameMembers(before: map<int, R.Room>, after: map<int, R.Room>)
    requires RM.SameSeats(before, after)
    ensures MembersOf(after) == MembersOf(before)
  {
    assert MembersOf(after).Keys == MembersOf(before).Keys;
    assert forall id :: id in before ==> MembersOf(after)[id] == MembersOf(before)[id];
  }

  lemma OneRoomMore(rooms: map<int, R.Room>, roomId: int, room: R.Room)
    ensures MembersOf(rooms[roomId := room]) == MembersOf(rooms)[roomId := room.players]
  {
  }

  const TRUSTEE_ENTER_MS := 30000

  ghost predicate HasDecks(deckOf: int -> seq<int>) {
    forall id :: |deckOf(id)| == Cards.DECK_SIZE
  }

  /** What the trustee's action for the player would come to. */
  ghost function TrusteeOutcome(rooms: map<int, R.Room>, deckOf: int -> seq<int>, roomId: int, player: int): R.Outcome
    requires HasDecks(deckOf)
  {
    if roomId !in rooms then R.Rejected(R.RoomNotFound)
    else R.ActTrustee(rooms[roomId].game, rooms[roomId].players, deckOf(roomId), player).outcome
  }

  /** The rooms after the trustee has acted for the player, if it is the player's turn. */
  ghost function ActedFor(rooms: map<int, R.Room>, deckOf: int -> seq<int>, roomId: int, player: int): map<int, R.Room>
    requires HasDecks(deckOf)
  {
    if roomId !in rooms || rooms[roomId].game.operator != player then rooms
    else
      var room := rooms[roomId];
      rooms[roomId := R.Stepped(room, R.ActTrustee(room.game, room.players, deckOf(roomId), player))]
  }

  /** The rooms after the timer has seen to a session without settling anything. */
  ghost function Noted(rooms: map<int, R.Room>, index: map<int, int>, deckOf: int -> seq<int>, session: S.Session,
                       nowMs: int): map<int, R.Room>
    requires HasDecks(deckOf)
  {
    var player := session.playerId;
    if session.roomId <= 0 then rooms
    else if session.online then RM.Marked(rooms, index, player, RM.BackAgain)
    else if session.offlineAtMs <= 0 then rooms
    else
      var noted := RM.Marked(rooms, index, player, RM.AwaySince(session.offlineAtMs));
      if nowMs - session.offlineAtMs < TRUSTEE_ENTER_MS then noted
      else ActedFor(RM.Marked(noted, index, player, RM.HandedOver(true)), deckOf, session.roomId, player)
  }

  /** Marks do not touch games. */
  lemma MarkKeepsGames(rooms: map<int, R.Room>, index: map<int, int>, player: int, mark: RM.Mark,
                       deckOf: int -> seq<int>, roomId: int)
    requires HasDecks(deckOf)
    ensures
      var marked := RM.Marked(rooms, index, player, mark);
      TrusteeOutcome(marked, deckOf, roomId, player) == TrusteeOutcome(rooms, deckOf, roomId, player)
  {
  }

  lemma TrusteeIsSeated(room: R.Room, deck: seq<int>, player: int)
    requires |deck| == Cards.DECK_SIZE
    ensures
      var outcome := R.ActTrustee(room.game, room.players, deck, player).outcome;
      outcome.Accepted? && outcome.gameOver ==> outcome.winner in room.players && outcome.baseCoin >= 1
  {
    match R.TrusteeAction(room.game, player)
    case Choose(request) => WinnerIsSeated(room, deck, player, request);
    case NoChoice(_) =>
  }

  /** A player in a room who has been offline for at least so long. */
  predicate AwayFor(session: S.Session, nowMs: int, ms: int) {
    session.roomId > 0 && !session.online && session.offlineAtMs > 0 && nowMs - session.offlineAtMs >= ms
  }

  /** An attempt to settle a room, and whether it succeeded. */
  datatype Attempt = Attempt(winner: int, baseCoin: int, ok: bool)

  ghost function Attempted(w: World, roomId: int, attempt: Option<Attempt>): World {
    match attempt
    case None => w
    case Some(Attempt(winner, baseCoin, ok)) => SettlementDone(w, roomId, winner, baseCoin, ok)
  }

  /** The rooms after an attempt, while those in `settling` are being settled by others: the room is gone, or
      marked as settling if the attempt got so far. */
  ghost function RoomsAttempted(rooms: map<int, R.Room>, settling: set<int>, roomId: int, attempt: Option<Attempt>)
    : map<int, R.Room>
  {
    match attempt
    case None => rooms
    case Some(Attempt(winner, baseCoin, ok)) =>
      if ok then rooms - {roomId}
      else if roomId in rooms && Begins(settling, roomId, winner, baseCoin)
      then rooms[roomId := R.SetState(rooms[roomId], R.Settling)]
      else rooms
  }

  predicate Begins(settling: set<int>, roomId: int, winner: int, baseCoin: int) {
    roomId > 0 && winner > 0 && baseCoin > 0 && roomId !in settling
  }

  /** The attempt that an action has led to. */
  ghost function AttemptAfter(outcome: R.Outcome, settled: Option<SS.SettlementResult>): Option<Attempt> {
    if outcome.Rejected? || settled.None? then None
    else Some(Attempt(outcome.winner, outcome.baseCoin, settled.value.code == SS.Ok))
  }

  /** What comes of a settlement, by who sits where, who is known, and whether storage is made to fail. */
  ghost function SettleAnswer(w: World, settling: set<int>, failpoint: St.Failpoint, roomId: int, winner: int,
                              baseCoin: int): SS.ErrorCode
  {
    if roomId <= 0 || winner <= 0 || baseCoin <= 0 then SS.InvalidPacket
    else if roomId in settling then SS.SettlementFailed
    else if roomId !in w.seats.members then SS.RoomNotFound
    else
      var ids := w.seats.members[roomId];
      if winner in ids && (forall p :: p in ids ==> p in w.players && p > 0) && failpoint == St.NoFailpoint
      then SS.Ok else SS.SettlementFailed
  }

  /** In a server in service only a failing storage keeps a room from being settled. */
  lemma SoundRoomsAreSettled(w: World, failpoint: St.Failpoint, roomId: int, winner: int, baseCoin: int)
    requires IsSound(w) && roomId in w.seats.members && winner in w.seats.members[roomId] && baseCoin > 0
    ensures
      SettleAnswer(w, {}, failpoint, roomId, winner, baseCoin) ==
      if failpoint == St.NoFailpoint then SS.Ok else SS.SettlementFailed
  {
    SoundRoomsAreSeated(w, roomId);
  }

  lemma StaysSound(w: World, event: Event)
    ensures IsSound(w) && CanArise(event) ==> IsSound(Next(w, event))
  {
    if IsSound(w) && CanArise(event) {
      NextKeepsSound(w, event);
    }
  }

  /** Who wins a room that the player loses by staying away. */
  ghost function WinnerByAbsence(w: World, roomId: int, player: int): Option<int> {
    if roomId in w.seats.members then RM.FirstOther(w.seats.members[roomId], player) else None
  }

  lemma SoundRoomsHaveAWinner(w: World, roomId: int, player: int)
    requires IsSound(w)
    ensures WinnerByAbsence(w, roomId, player).Some? <==> roomId in w.seats.members
  {
    if roomId in w.seats.members {
      SoundRoomsAreSeated(w, roomId);
      var players := w.seats.members[roomId];
      assert players[0] in players && players[1] in players;
    }
  }

  /** Whether there was an attempt, and it succeeded. */
  predicate Succeeded(attempt: Option<Attempt>) {
    attempt.Some? && attempt.value.ok
  }

  /** Nothing is left to be lost by absence once a room is settled, and nothing has changed if it is not. */
  lemma AfterAnAttempt(w: World, settling: set<int>, failpoint: St.Failpoint, roomId: int, player: int,
                       attempt: Option<Attempt>)
    requires Succeeded(attempt) ==>
               SettleAnswer(w, settling, failpoint, roomId, attempt.value.winner, attempt.value.baseCoin) == SS.Ok
    ensures !Succeeded(attempt) ==> Attempted(w, roomId, attempt) == w
    ensures Succeeded(attempt) ==> WinnerByAbsence(Attempted(w, roomId, attempt), roomId, player).None?
  {
  }

  lemma AttemptKeepsSound(w: World, roomId: int, attempt: Option<Attempt>)
    ensures IsSound(w) ==> IsSound(Attempted(w, roomId, attempt))
  {
    if attempt.Some? {
      StaysSound(w, Settle(roomId, attempt.value.winner, attempt.value.baseCoin, attempt.value.ok));
    }
  }

  lemma WinnerIsSeated(room: R.Room, deck: seq<int>, player: int, request: R.ActionRequest)
    requires |deck| == Cards.DECK_SIZE
    ensures
      var outcome := R.Act(room.game, room.players, deck, player, request).outcome;
      outcome.Accepted? && outcome.gameOver ==> outcome.winner in room.players && outcome.baseCoin >= 1
  {
  }

  lemma MarkedMembers(rooms: map<int, R.Room>, roomId: int, state: R.RoomState)
    requires roomId in rooms
    ensures MembersOf(rooms[roomId := R.SetState(rooms[roomId], state)]) == MembersOf(rooms)
  {
  }

  lemma SettlementGoesThrough(w: World, roomId: int, winner: int, baseCoin: int)
    requires roomId in w.seats.members && winner in w.seats.members[roomId]
    requires forall p :: p in w.seats.members[roomId] ==> p in w.players
    ensures
      var players := w.seats.members[roomId];
      SettlementDone(w, roomId, winner, baseCoin, true) ==
      Membership.World(w.queues, S.PlacedAll(w.table, players, S.NO_ROOM, |players|),
                       SettlementLedger.Released(w.players, players, winner, baseCoin), Emptied(w.seats, roomId))
  {
  }

  lemma OneRoomLess(rooms: map<int, R.Room>, roomId: int)
    ensures MembersOf(rooms - {roomId}) == MembersOf(rooms) - {roomId}
  {
  }
}
