/** Progress: the automatic player can always act, and left alone it finishes every game. */
module RoomTrustee {
  import opened Cards
  import opened RuleEngine
  import opened Rooms
  import opened RoomInvariant
  import opened RoomRuns

  ghost predicate Active(game: Game) {
    game.state in {CallingScore, RobbingLandlord, Playing}
  }

  /** The cards of a game that is being played are all accounted for. */
  lemma PlayingCards(players: seq<int>, h: History)
    requires Seated(players) && AuctionFollows(players, h) && CardsFollow(players, h) && h.game.state == Playing
    ensures CardsConserved(players, h.game.holdings.hands, h.game.holdings.bottomCards, true, h.played)
  {
  }

  /** Whoever is to move has cards and did not play those on the table. */
  lemma MoverHasCards(players: seq<int>, h: History)
    requires Seated(players) && TableFollows(players, h) && h.game.state == Playing
    ensures h.game.operator in players && h.game.operator in h.game.holdings.hands
    ensures h.game.holdings.hands[h.game.operator] != []
    ensures h.game.table.lastCards != [] ==> h.game.operator != h.game.table.lastPlayer
  {
    LeaderIsNotAsked(players, h);
  }

  /** A single card of a player's hand is a valid play as far as the hand is concerned. */
  lemma CardOfDeck(hand: seq<int>, card: int)
    requires multiset(hand) <= multiset(FullDeck()) && card in hand
    ensures Classify([card]).valid && multiset([card]) <= multiset(hand)
  {
    PartOfDeck(hand, card);
    SingleCard(card);
  }

  ghost predicate TrusteeActs(game: Game, players: seq<int>) {
    && TrusteeAction(game, game.operator).Choose?
    && ActInTurn(game, players, game.operator, TrusteeAction(game, game.operator).request).outcome.Accepted?
  }

  lemma TrusteeLeads(players: seq<int>, game: Game)
    requires game.state == Playing && game.table.lastCards == []
    requires game.operator in game.holdings.hands && game.holdings.hands[game.operator] != []
    requires multiset(game.holdings.hands[game.operator]) <= multiset(FullDeck())
    ensures TrusteeActs(game, players)
  {
    var card := game.holdings.hands[game.operator][0];
    CardOfDeck(game.holdings.hands[game.operator], card);
    CardIsAccepted(game, players, card);
  }

  lemma TrusteeFollows(players: seq<int>, game: Game)
    requires game.state == Playing && game.table.lastCards != []
    requires game.operator in game.holdings.hands && game.operator != game.table.lastPlayer
    requires multiset(game.holdings.hands[game.operator]) <= multiset(FullDeck())
    ensures TrusteeActs(game, players)
  {
    var choice := FirstBeating(game.holdings.hands[game.operator], Classify(game.table.lastCards));
    if choice.Some? {
      CardOfDeck(game.holdings.hands[game.operator], choice.value);
      CardIsAccepted(game, players, choice.value);
    } else {
      PassIsAccepted(game, players);
    }
  }

  lemma CardIsAccepted(game: Game, players: seq<int>, card: int)
    requires game.operator in game.holdings.hands && Classify([card]).valid
    requires multiset([card]) <= multiset(game.holdings.hands[game.operator])
    requires game.table.lastCards != [] ==> CanBeat(Classify([card]), Classify(game.table.lastCards))
    ensures ActPlayCards(game, players, game.operator, Request(PlayCards, [card])).outcome.Accepted?
  {
  }

  lemma PassIsAccepted(game: Game, players: seq<int>)
    requires game.table.lastCards != [] && game.operator != game.table.lastPlayer
    ensures ActPass(game, players, game.operator, Request(Pass, [])).outcome.Accepted?
  {
  }

  lemma TrusteePlays(players: seq<int>, h: History)
    requires Valid(players, h) && h.game.state == Playing
    ensures h.game.operator in players && TrusteeActs(h.game, players)
  {
    PlayingCards(players, h);
    MoverHasCards(players, h);
    HandInDeck(players, h.game.holdings, h.played, h.game.operator);
    if h.game.table.lastCards == [] {
      TrusteeLeads(players, h.game);
    } else {
      TrusteeFollows(players, h.game);
    }
  }

  lemma TrusteeBids(players: seq<int>, h: History)
    requires Valid(players, h) && h.game.state in {CallingScore, RobbingLandlord}
    ensures h.game.operator in players && TrusteeActs(h.game, players)
  {
    if h.game.state == RobbingLandlord {
      LandlordHasHand(players, h, TrusteeAction(h.game, h.game.operator).request);
    }
  }

  /** In every game under way the trustee's action for the operator is accepted. */
  lemma TrusteeIsAccepted(players: seq<int>, h: History, deck: seq<int>)
    requires Valid(players, h) && Active(h.game) && |deck| == DECK_SIZE
    ensures ActTrustee(h.game, players, deck, h.game.operator).outcome.Accepted?
    ensures h.game.operator in players
  {
    if h.game.state == Playing {
      TrusteePlays(players, h);
    } else {
      TrusteeBids(players, h);
    }
  }

  /** An accepted action ends the game exactly when it leaves the player without cards. */
  lemma AcceptedEndsOrGoesOn(players: seq<int>, h: History, deck: seq<int>, player: int, request: ActionRequest)
    requires Valid(players, h) && Active(h.game) && |deck| == DECK_SIZE
    requires Act(h.game, players, deck, player, request).outcome.Accepted?
    ensures
      var step := Act(h.game, players, deck, player, request);
      if step.outcome.gameOver then Won(step) else Active(step.game)
  {
    if h.game.state == Playing && request.actionType == PlayCards {
      PlayEndsOrGoesOn(players, h, request);
    }
  }

  lemma PlayEndsOrGoesOn(players: seq<int>, h: History, request: ActionRequest)
    requires PlayStep(players, h, request)
    ensures
      var step := ActPlayCards(h.game, players, h.game.operator, request);
      if step.outcome.gameOver then Won(step) else Active(step.game)
  {
    PlayFields(players, h, request);
    LandlordIsKnown(players, h);
  }

  /** A finished game: settling, with the winner's hand empty and a stake of 1 to 24. */
  ghost predicate Won(step: Step) {
    && step.outcome.Accepted? && step.outcome.gameOver
    && step.game.state == Settling
    && step.outcome.winner == step.game.operator
    && step.outcome.winner in step.game.holdings.hands
    && step.game.holdings.hands[step.outcome.winner] == []
    && 1 <= step.outcome.baseCoin <= 24
    && step.outcome.baseCoin == step.game.auction.baseCoin
  }

  /** Whoever's action ends a game of a reachable room is its winner, for a stake of 1 to 24. */
  lemma EndedGameHasWinner(life: Life, players: seq<int>, deck: seq<int>, player: int, request: ActionRequest)
    requires Reachable(life, players, deck)
    requires Act(life.room.game, players, deck, player, request).outcome.Accepted?
    requires Act(life.room.game, players, deck, player, request).outcome.gameOver
    ensures
      var step := Act(life.room.game, players, deck, player, request);
      Won(step) && step.outcome.winner == player && player in players
  {
    ReachableIsValid(life, players, deck);
    OnlyPlaysEndGames(life.room.game, players, deck, player, request);
    AcceptedEndsOrGoesOn(players, life.history, deck, player, request);
  }

  lemma OnlyPlaysEndGames(game: Game, players: seq<int>, deck: seq<int>, player: int, request: ActionRequest)
    requires |deck| == DECK_SIZE && Act(game, players, deck, player, request).outcome.Accepted?
    requires Act(game, players, deck, player, request).outcome.gameOver
    ensures game.state == Playing && player in players
    ensures Act(game, players, deck, player, request).outcome.winner == player
  {
  }

  lemma LandlordIsKnown(players: seq<int>, h: History)
    requires Valid(players, h) && h.game.state == Playing
    ensures 1 <= h.game.auction.baseCoin <= 24
  {
    StakeIsBounded(h.calls, h.robs);
  }

  /** n turns of the trustee for whoever is to move. */
  ghost function TrusteeTurns(life: Life, deck: seq<int>, n: nat): Life
    requires |deck| == DECK_SIZE
    decreases n
  {
    if n == 0 then life
    else TrusteeTurns(Next(life, deck, TrusteeTurn(life.room.game.operator)), deck, n - 1)
  }

  /** The trustee's n-th turn is the winning one, and all before it only carried the game on. */
  ghost predicate WinsInTurn(life: Life, deck: seq<int>, n: nat)
    requires |deck| == DECK_SIZE
  {
    && n > 0
    && (forall k: nat :: k < n ==> Active(TrusteeTurns(life, deck, k).room.game))
    && var last := TrusteeTurns(life, deck, n - 1).room;
       var step := ActTrustee(last.game, last.players, deck, last.game.operator);
       Won(step) && TrusteeTurns(life, deck, n).room.game == step.game
  }

  lemma {:induction false} TrusteesWin(life: Life, deck: seq<int>) returns (n: nat)
    requires ValidLife(life) && Active(life.room.game) && IsDeck(deck) && |deck| == DECK_SIZE
    ensures n <= Budget(life.room.players, life.room.game) && WinsInTurn(life, deck, n)
    decreases Budget(life.room.players, life.room.game)
  {
    var room, h := life.room, life.history;
    var operator := room.game.operator;
    TrusteeIsAccepted(room.players, h, deck);
    var request := TrusteeAction(room.game, operator).request;
    AcceptedEndsOrGoesOn(room.players, h, deck, operator, request);
    AcceptedLowersBudget(room.players, h, deck, operator, request);
    var next := Next(life, deck, TrusteeTurn(operator));
    NextKeeps(life, deck, TrusteeTurn(operator));
    assert TrusteeTurns(life, deck, 1) == TrusteeTurns(next, deck, 0) == next;
    assert TrusteeTurns(life, deck, 0) == life;
    if Active(next.room.game) {
      var m := TrusteesWin(next, deck);
      n := m + 1;
      OneTurnEarlier(life, next, deck, m);
    } else {
      n := 1;
    }
  }

  lemma OneTurnEarlier(life: Life, next: Life, deck: seq<int>, m: nat)
    requires |deck| == DECK_SIZE && next == Next(life, deck, TrusteeTurn(life.room.game.operator))
    requires Active(life.room.game) && WinsInTurn(next, deck, m)
    ensures WinsInTurn(life, deck, m + 1)
  {
    forall k: nat | k < m + 1
      ensures Active(TrusteeTurns(life, deck, k).room.game)
    {
      if k > 0 {
        assert TrusteeTurns(life, deck, k) == TrusteeTurns(next, deck, k - 1);
      }
    }
    assert TrusteeTurns(life, deck, m) == TrusteeTurns(next, deck, m - 1);
    assert TrusteeTurns(life, deck, m + 1) == TrusteeTurns(next, deck, m);
  }

  /** From every reachable room with a game under way, for every deal, the trustee playing for
      everybody ends the game within 168 turns with a winner whose hand is empty. */
  lemma TrusteesFinishEveryGame(life: Life, players: seq<int>, deck: seq<int>)
    requires Reachable(life, players, deck) && Active(life.room.game)
    ensures exists n: nat :: n <= MAX_ACTIONS && WinsInTurn(life, deck, n)
  {
    ReachableIsValid(life, players, deck);
    var n := TrusteesWin(life, deck);
    assert n <= MAX_ACTIONS && WinsInTurn(life, deck, n);
  }

  /** For all players and every deal, whatever the first player calls: the call is accepted, and from there
      on trustees can play the game out. */
  lemma EveryDealIsPlayedOut(roomId: int, mode: int, players: seq<int>, deck: seq<int>, score: int)
    requires Seated(players) && IsDeck(deck) && |deck| == DECK_SIZE && 0 <= score <= 3
    ensures
      var first := Action(players[0], ActionRequest(CallScore, score, -1, []));
      var started := Next(NewLife(roomId, mode, players), deck, first);
      && Reachable(started, players, deck) && Active(started.room.game)
      && started.history.accepted == 1
      && exists n: nat :: n <= MAX_ACTIONS && WinsInTurn(started, deck, n)
  {
    var life, first := NewLife(roomId, mode, players), Action(players[0], ActionRequest(CallScore, score, -1, []));
    NewIsReachable(roomId, mode, players, deck);
    NextIsReachable(life, players, deck, first);
    FirstCallStarts(life, players, deck, first.request);
    TrusteesFinishEveryGame(Next(life, deck, first), players, deck);
  }

  lemma FirstCallStarts(life: Life, players: seq<int>, deck: seq<int>, request: ActionRequest)
    requires Seated(players) && |deck| == DECK_SIZE && life == NewLife(life.room.roomId, life.room.mode, players)
    requires request.actionType == CallScore && 0 <= request.callScore <= 3
    ensures
      var started := Next(life, deck, Action(players[0], request));
      Active(started.room.game) && started.history.accepted == 1
  {
  }
}
