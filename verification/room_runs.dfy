/** Whole runs of a room: what holds after any sequence of actions, trustee turns, disconnections,
    returns and settlements, starting from a freshly created room. */
module RoomRuns {
  import opened Cards
  import opened Basics
  import opened RuleEngine
  import opened Rooms
  import opened RoomInvariant

  datatype Event =
    | Action(player: int, request: ActionRequest)
    | TrusteeTurn(player: int)
    | Offline(player: int, atMs: int)
    | Online(player: int)
    | Trustee(player: int, on: bool)
    | SettlingMarked
    | FinishedMarked

  /** A room and the history of its game. */
  datatype Life = Life(room: Room, history: History)

  function OrElse(changed: Option<Room>, room: Room): Room {
    match changed
    case Some(r) => r
    case None => room
  }

  function WithRoom(life: Life, room: Room): Life {
    Life(room, life.history.(game := room.game))
  }

  ghost function Acted(life: Life, deck: seq<int>, player: int, request: ActionRequest): Life
    requires |deck| == DECK_SIZE
  {
    var step := Act(life.room.game, life.room.players, deck, player, request);
    Life(Stepped(life.room, step), Record(life.history, request, step))
  }

  ghost function Next(life: Life, deck: seq<int>, event: Event): Life
    requires |deck| == DECK_SIZE
  {
    var room := life.room;
    match event
    case Action(player, request) => Acted(life, deck, player, request)
    case TrusteeTurn(player) =>
      (match TrusteeAction(room.game, player)
       case Choose(request) => Acted(life, deck, player, request)
       case NoChoice(_) => life)
    case Offline(player, atMs) => WithRoom(life, OrElse(WentOffline(room, player, atMs), room))
    case Online(player) => WithRoom(life, OrElse(CameOnline(room, player), room))
    case Trustee(player, on) => WithRoom(life, OrElse(SetTrustee(room, player, on), room))
    case SettlingMarked => WithRoom(life, SetState(room, Settling))
    case FinishedMarked => WithRoom(life, SetState(room, Finished))
  }

  ghost function Run(life: Life, deck: seq<int>, events: seq<Event>): Life
    requires |deck| == DECK_SIZE
  {
    if events == [] then life
    else Next(Run(life, deck, events[..|events| - 1]), deck, events[|events| - 1])
  }

  function NewLife(roomId: int, mode: int, players: seq<int>): Life {
    Life(NewRoom(roomId, mode, players), History(NewGame(players), [], [], [], [], 0))
  }

  ghost predicate ValidLife(life: Life) {
    life.history.game == life.room.game && Valid(life.room.players, life.history)
  }

  lemma ActedKeeps(life: Life, deck: seq<int>, player: int, request: ActionRequest)
    requires ValidLife(life) && IsDeck(deck) && |deck| == DECK_SIZE
    ensures ValidLife(Acted(life, deck, player, request))
  {
    ActKeeps(life.room.players, life.history, deck, player, request);
  }

  /** Marking a room as settling or finished ends its game where it stands. */
  lemma EndKeeps(players: seq<int>, h: History, state: RoomState)
    requires Valid(players, h) && state in {Settling, Finished}
    ensures Valid(players, h.(game := h.game.(state := state)))
  {
    BudgetIsNatural(players, h);
  }

  lemma BudgetIsNatural(players: seq<int>, h: History)
    requires Valid(players, h)
    ensures Budget(players, h.game) >= 0
  {
  }

  lemma NextKeeps(life: Life, deck: seq<int>, event: Event)
    requires ValidLife(life) && IsDeck(deck) && |deck| == DECK_SIZE
    ensures ValidLife(Next(life, deck, event))
    ensures Next(life, deck, event).room.players == life.room.players
  {
    match event
    case Action(player, request) => ActedKeeps(life, deck, player, request);
    case TrusteeTurn(player) =>
      var choice := TrusteeAction(life.room.game, player);
      if choice.Choose? {
        ActedKeeps(life, deck, player, choice.request);
      }
    case SettlingMarked => EndKeeps(life.room.players, life.history, Settling);
    case FinishedMarked => EndKeeps(life.room.players, life.history, Finished);
    case _ => assert Next(life, deck, event).history == life.history;
  }

  lemma NewLifeIsValid(roomId: int, mode: int, players: seq<int>)
    requires Seated(players)
    ensures ValidLife(NewLife(roomId, mode, players))
  {
    assert Highest([]) == 0;
  }

  lemma {:induction false} RunIsValid(life: Life, deck: seq<int>, events: seq<Event>)
    requires ValidLife(life) && IsDeck(deck) && |deck| == DECK_SIZE
    ensures ValidLife(Run(life, deck, events))
    ensures Run(life, deck, events).room.players == life.room.players
  {
    if events != [] {
      var last := |events| - 1;
      RunIsValid(life, deck, events[..last]);
      NextKeeps(Run(life, deck, events[..last]), deck, events[last]);
    }
  }

  /** The room came about from a new one by some sequence of events. */
  ghost predicate Reachable(life: Life, players: seq<int>, deck: seq<int>) {
    && Seated(players) && IsDeck(deck) && |deck| == DECK_SIZE
    && exists roomId, mode, events :: life == Run(NewLife(roomId, mode, players), deck, events)
  }

  /** Every reachable room satisfies the invariant, whatever happened to it and in whatever order. */
  lemma ReachableIsValid(life: Life, players: seq<int>, deck: seq<int>)
    requires Reachable(life, players, deck)
    ensures ValidLife(life) && life.room.players == players
  {
    var roomId, mode, events :| life == Run(NewLife(roomId, mode, players), deck, events);
    NewLifeIsValid(roomId, mode, players);
    RunIsValid(NewLife(roomId, mode, players), deck, events);
  }

  lemma NewIsReachable(roomId: int, mode: int, players: seq<int>, deck: seq<int>)
    requires Seated(players) && IsDeck(deck) && |deck| == DECK_SIZE
    ensures Reachable(NewLife(roomId, mode, players), players, deck)
  {
    assert NewLife(roomId, mode, players) == Run(NewLife(roomId, mode, players), deck, []);
  }

  lemma NextIsReachable(life: Life, players: seq<int>, deck: seq<int>, event: Event)
    requires Reachable(life, players, deck)
    ensures Reachable(Next(life, deck, event), players, deck)
  {
    var roomId, mode, events :| life == Run(NewLife(roomId, mode, players), deck, events);
    assert (events + [event])[..|events|] == events;
    assert Next(life, deck, event) == Run(NewLife(roomId, mode, players), deck, events + [event]);
  }

  // ----- what this means for a reachable room

  /** Card conservation: hands, bottom cards not yet given out, and played cards are the 54 cards,
      and the hands are sorted. */
  lemma CardsAreConserved(life: Life, players: seq<int>, deck: seq<int>)
    requires Reachable(life, players, deck)
    ensures
      var holdings := life.room.game.holdings;
      holdings.dealt ==>
        && HasHands(players, holdings.hands)
        && InHands(players, holdings.hands)
           + (if |life.history.robs| == 3 then multiset{} else multiset(holdings.bottomCards))
           + multiset(life.history.played) == multiset(FullDeck())
        && (forall p :: p in holdings.hands ==> OrderedBy(CardKey, holdings.hands[p]))
  {
    ReachableIsValid(life, players, deck);
  }

  /** The full deck has each of the cards 0..53 once, and nothing else. */
  lemma FullDeckIsComplete(card: int)
    ensures multiset(FullDeck())[card] == if 0 <= card < DECK_SIZE then 1 else 0
  {
    PartOfDeck(FullDeck(), card);
    if 0 <= card < DECK_SIZE {
      assert FullDeck()[card] == card;
      assert card in multiset(FullDeck());
    }
  }

  /** A room accepts at most 168 actions, whoever sends them. */
  lemma RunsAreBounded(life: Life, players: seq<int>, deck: seq<int>)
    requires Reachable(life, players, deck)
    ensures life.history.accepted <= MAX_ACTIONS
  {
    ReachableIsValid(life, players, deck);
    BudgetIsNatural(players, life.history);
  }

  /** The same history with as many accepted actions as the budget allows for. */
  ghost function FullHistory(players: seq<int>, h: History): (full: History)
    requires Valid(players, h)
    ensures Valid(players, full) && full.game == h.game
    ensures full.accepted == MAX_ACTIONS - Budget(players, h.game)
  {
    BudgetIsNatural(players, h);
    h.(accepted := MAX_ACTIONS - Budget(players, h.game))
  }

  /** Every accepted action uses up some of the budget. */
  lemma AcceptedLowersBudget(players: seq<int>, h: History, deck: seq<int>, player: int, request: ActionRequest)
    requires Valid(players, h) && IsDeck(deck) && |deck| == DECK_SIZE
    requires Act(h.game, players, deck, player, request).outcome.Accepted?
    ensures 0 <= Budget(players, Act(h.game, players, deck, player, request).game) < Budget(players, h.game)
  {
    var full := FullHistory(players, h);
    var full' := Record(full, request, Act(h.game, players, deck, player, request));
    ActKeeps(players, full, deck, player, request);
    BudgetIsNatural(players, full');
    assert full'.accepted == full.accepted + 1;
  }

  /** The plays of one trick rise strictly in strength, so there are at most 29 of them. */
  lemma TricksRise(life: Life, players: seq<int>, deck: seq<int>)
    requires Reachable(life, players, deck) && life.room.game.state == Playing
    ensures
      var trick := life.history.trick;
      && |trick| <= 29
      && (forall i, j :: 0 <= i < j < |trick| ==> CanBeat(trick[j], trick[i]))
      && (trick == [] <==> life.room.game.table.lastCards == [])
      && (trick != [] ==> trick[|trick| - 1] == Classify(life.room.game.table.lastCards))
  {
    ReachableIsValid(life, players, deck);
    TrickOnTheTable(players, life.room.game.operator, life.room.game.table, life.history.trick);
  }

  lemma TrickOnTheTable(players: seq<int>, operator: int, table: Table, trick: seq<CardCombo>)
    requires Seated(players) && TableIs(players, operator, table, trick)
    ensures |trick| <= 29 && forall i, j :: 0 <= i < j < |trick| ==> CanBeat(trick[j], trick[i])
    ensures trick == [] <==> table.lastCards == []
    ensures trick != [] ==> trick[|trick| - 1] == Classify(table.lastCards)
  {
    if trick != [] {
      RisingChainIsShort(trick);
    }
  }

  /** The table and the turn of a game that is being played. */
  ghost predicate TurnIsRound(players: seq<int>, operator: int, table: Table)
    requires Seated(players)
  {
    && operator in players
    && (table.lastCards != [] ==>
          && Classify(table.lastCards).valid
          && table.lastPlayer in players
          && 0 <= table.passes <= 1
          && operator == Seat(players, IndexOf(players, table.lastPlayer) + table.passes + 1)
          && operator != table.lastPlayer)
  }

  lemma TableTurnsRound(players: seq<int>, operator: int, table: Table, trick: seq<CardCombo>)
    requires Seated(players) && TableIs(players, operator, table, trick)
    ensures TurnIsRound(players, operator, table)
  {
    if table.lastCards != [] {
      assert IsDeckCombo(trick[|trick| - 1]);
      SeatOf(players, table.lastPlayer);
    }
  }

  /** The operator sits one seat beyond the player of the last cards and those who passed on them; so
      the leader of a trick is never asked to beat or to pass on their own cards. */
  lemma TurnsGoRound(life: Life, players: seq<int>, deck: seq<int>)
    requires Reachable(life, players, deck) && life.room.game.state == Playing
    ensures TurnIsRound(players, life.room.game.operator, life.room.game.table)
  {
    ReachableIsValid(life, players, deck);
    TableTurnsRound(players, life.room.game.operator, life.room.game.table, life.history.trick);
  }

  /** After two passes in a row the lead is back with the player of the last cards, on an empty table. */
  lemma TwoPassesReturnTheLead(life: Life, players: seq<int>, deck: seq<int>, request1: ActionRequest,
                               request2: ActionRequest)
    requires Reachable(life, players, deck) && life.room.game.state == Playing
    requires life.room.game.table.lastCards != [] && life.room.game.table.passes == 0
    requires request1.actionType == Pass && request2.actionType == Pass && request1.cards == [] && request2.cards == []
    ensures
      var game := life.room.game;
      var step1 := Act(game, players, deck, game.operator, request1);
      var step2 := Act(step1.game, players, deck, step1.game.operator, request2);
      && step1.outcome.Accepted? && step2.outcome.Accepted?
      && step2.game.operator == game.table.lastPlayer
      && step2.game.table == Table(NOBODY, [], 0)
  {
    ReachableIsValid(life, players, deck);
    var game := life.room.game;
    LeaderIsNotAsked(players, life.history);
    ActKeeps(players, life.history, deck, game.operator, request1);
    var h' := Record(life.history, request1, Act(game, players, deck, game.operator, request1));
    LeaderIsNotAsked(players, h');
  }

  // ----- the auction

  ghost predicate LandlordLeads(game: Game, played: seq<int>) {
    game.state == Playing && played == [] ==> game.operator == game.auction.landlord && game.table.lastCards == []
  }

  lemma LandlordLeadsAfter(game: Game, players: seq<int>, deck: seq<int>, player: int, request: ActionRequest,
                           h: History)
    requires |deck| == DECK_SIZE && LandlordLeads(game, h.played) && h.game == game
    ensures
      var h' := Record(h, request, Act(game, players, deck, player, request));
      LandlordLeads(h'.game, h'.played)
  {
  }

  lemma LandlordLeadsNext(life: Life, deck: seq<int>, event: Event)
    requires |deck| == DECK_SIZE && life.history.game == life.room.game
    requires LandlordLeads(life.room.game, life.history.played)
    ensures LandlordLeads(Next(life, deck, event).room.game, Next(life, deck, event).history.played)
  {
    match event
    case Action(player, request) =>
      LandlordLeadsAfter(life.room.game, life.room.players, deck, player, request, life.history);
    case TrusteeTurn(player) =>
      var choice := TrusteeAction(life.room.game, player);
      if choice.Choose? {
        LandlordLeadsAfter(life.room.game, life.room.players, deck, player, choice.request, life.history);
      }
    case _ =>
  }

  lemma {:induction false} LandlordLeadsAlways(life: Life, deck: seq<int>, events: seq<Event>)
    requires ValidLife(life) && IsDeck(deck) && |deck| == DECK_SIZE
    requires LandlordLeads(life.room.game, life.history.played)
    ensures LandlordLeads(Run(life, deck, events).room.game, Run(life, deck, events).history.played)
  {
    if events != [] {
      var last := |events| - 1;
      LandlordLeadsAlways(life, deck, events[..last]);
      RunIsValid(life, deck, events[..last]);
      LandlordLeadsNext(Run(life, deck, events[..last]), deck, events[last]);
    }
  }

  /** The result of the auction, as a function of the calls and robs: the landlord is the last robber
      or else the first of the highest callers, and each rob doubles the stake. */
  lemma AuctionResult(life: Life, players: seq<int>, deck: seq<int>)
    requires Reachable(life, players, deck) && life.room.game.state == Playing
    ensures
      var calls, robs, auction := life.history.calls, life.history.robs, life.room.game.auction;
      && CallsDone(calls) && |robs| == 3
      && IsOpener(calls, Opener(calls))
      && auction.landlord == Seat(players, LandlordSeat(calls, robs))
      && auction.baseCoin == Max(1, calls[Opener(calls)]) * Pow2(RobCount(robs))
      && 1 <= auction.baseCoin <= 24
  {
    ReachableIsValid(life, players, deck);
    HighestIsOpeners(life.history.calls);
    StakeIsBounded(life.history.calls, life.history.robs);
  }

  lemma StakeIsBounded(calls: seq<int>, robs: seq<int>)
    requires LegalCalls(calls) && calls != [] && LegalRobs(robs)
    ensures 1 <= BaseCoin(calls, robs) <= 24
  {
    HighestIsOpeners(calls);
    RobsAreFew(robs);
    assert Pow2(3) == 8 && Pow2(2) == 4 && Pow2(1) == 2 && Pow2(0) == 1;
    var n := RobCount(robs);
    assert n == 0 || n == 1 || n == 2 || n == 3;
  }

  lemma {:induction false} RobsAreFew(robs: seq<int>)
    ensures RobCount(robs) <= |robs|
  {
    if robs != [] { RobsAreFew(robs[..|robs| - 1]); }
  }

  /** Play starts with the landlord to move, holding 20 cards against 17 and 17. */
  lemma PlayStartsFairly(life: Life, players: seq<int>, deck: seq<int>)
    requires Reachable(life, players, deck)
    requires life.room.game.state == Playing && life.history.played == []
    ensures
      var game := life.room.game;
      && game.operator == game.auction.landlord
      && game.table.lastCards == []
      && forall p :: p in game.holdings.hands ==> |game.holdings.hands[p]| == if p == game.operator then 20 else 17
  {
    ReachableIsValid(life, players, deck);
    var roomId, mode, events :| life == Run(NewLife(roomId, mode, players), deck, events);
    NewLifeIsValid(roomId, mode, players);
    LandlordLeadsAlways(NewLife(roomId, mode, players), deck, events);
  }

  // ----- rejected actions

  /** Of all rejections, only that for a missing landlord hand comes after a change. */
  lemma RejectedTurn(game: Game, players: seq<int>, request: ActionRequest)
    requires ActInTurn(game, players, game.operator, request).outcome.Rejected?
    requires ActInTurn(game, players, game.operator, request).outcome != Rejected(LandlordHandNotFound)
    ensures ActInTurn(game, players, game.operator, request).game == game
  {
  }

  lemma TurnHasLandlordHand(players: seq<int>, h: History, request: ActionRequest)
    requires Valid(players, h)
    ensures ActInTurn(h.game, players, h.game.operator, request).outcome != Rejected(LandlordHandNotFound)
  {
    if h.game.state == RobbingLandlord {
      LandlordHasHand(players, h, request);
    }
  }

  /** A rejected action changes nothing, except that the first action in a fresh room may still have
      started the calling and dealt. The late exit for a landlord without a hand is never taken. */
  lemma RejectionChangesNothing(life: Life, players: seq<int>, deck: seq<int>, player: int, request: ActionRequest)
    requires Reachable(life, players, deck)
    requires Act(life.room.game, players, deck, player, request).outcome.Rejected?
    ensures
      var room := life.room;
      var step := Act(room.game, players, deck, player, request);
      && step.outcome != Rejected(LandlordHandNotFound)
      && (Stepped(room, step) == room
          || (room.game.state == WaitStart
              && Stepped(room, step) == room.(game := Started(room.game, players, deck))))
  {
    ReachableIsValid(life, players, deck);
    var h := life.history;
    var started := h.(game := Started(h.game, players, deck));
    if h.game.state == WaitStart {
      StartKeeps(players, h, deck);
    }
    if player in players && h.game.operator == player && h.game.state !in {Settling, Finished} {
      TurnHasLandlordHand(players, started, request);
      RejectedTurn(started.game, players, request);
    }
  }

  // ----- after the game

  ghost predicate IsOver(game: Game) {
    game.state in {Settling, Finished}
  }

  /** A step leaves a game over exactly if it was over or the step wins it. */
  ghost predicate EndsByWinning(game: Game, step: Step) {
    IsOver(step.game) <==> IsOver(game) || (step.outcome.Accepted? && step.outcome.gameOver)
  }

  lemma TurnEndsByWinning(game: Game, players: seq<int>, player: int, request: ActionRequest)
    requires !IsOver(game)
    ensures EndsByWinning(game, ActInTurn(game, players, player, request))
  {
  }

  lemma ActionEndsByWinning(game: Game, players: seq<int>, deck: seq<int>, player: int, request: ActionRequest)
    requires |deck| == DECK_SIZE
    ensures EndsByWinning(game, Act(game, players, deck, player, request))
  {
    if player in players && game.operator == player && !IsOver(game) {
      TurnEndsByWinning(Started(game, players, deck), players, player, request);
    }
  }

  lemma TrusteeEndsByWinning(game: Game, players: seq<int>, deck: seq<int>, player: int)
    requires |deck| == DECK_SIZE
    ensures EndsByWinning(game, ActTrustee(game, players, deck, player))
  {
    var choice := TrusteeAction(game, player);
    if choice.Choose? {
      ActionEndsByWinning(game, players, deck, player, choice.request);
    }
  }

  /** Whatever happens to a game that is over, nothing changes but the mark on it. */
  lemma OverStaysOver(life: Life, deck: seq<int>, event: Event)
    requires |deck| == DECK_SIZE && IsOver(life.room.game)
    ensures
      var game' := Next(life, deck, event).room.game;
      IsOver(game') && game' == life.room.game.(state := game'.state)
  {
  }

  lemma {:induction false} OverForGood(life: Life, deck: seq<int>, events: seq<Event>)
    requires |deck| == DECK_SIZE && IsOver(life.room.game)
    ensures
      var game' := Run(life, deck, events).room.game;
      IsOver(game') && game' == life.room.game.(state := game'.state)
  {
    if events != [] {
      var last := |events| - 1;
      OverForGood(life, deck, events[..last]);
      OverStaysOver(Run(life, deck, events[..last]), deck, events[last]);
    }
  }

  /** Once a room has been marked as settling, whether or not the settlement then fails, it refuses every
      action of anybody and of the trustee for good; of the game itself nothing is lost. */
  lemma MarkedRefusesForGood(life: Life, deck: seq<int>, events: seq<Event>, player: int, request: ActionRequest)
    requires |deck| == DECK_SIZE
    ensures
      var room := Run(Next(life, deck, SettlingMarked), deck, events).room;
      && IsOver(room.game) && room.game == life.room.game.(state := room.game.state)
      && Act(room.game, room.players, deck, player, request).outcome.Rejected?
      && Act(room.game, room.players, deck, player, request).game == room.game
      && ActTrustee(room.game, room.players, deck, player).outcome.Rejected?
      && ActTrustee(room.game, room.players, deck, player).game == room.game
  {
    OverForGood(Next(life, deck, SettlingMarked), deck, events);
  }
}
