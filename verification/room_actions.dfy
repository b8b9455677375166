/** Which actions a room accepts, why it rejects the others, and what the accepted ones do, in every reachable
    room. */
module RoomActions {
  import opened Cards
  import opened RuleEngine
  import opened Rooms
  import opened RoomInvariant
  import opened RoomRuns
  import opened RoomTrustee

  // ----- what is accepted

  /** A combo from the hand, on an empty table or one that it beats. */
  ghost predicate CanBePlayed(cards: seq<int>, hand: seq<int>, onTable: seq<int>) {
    && HasSomeShape(cards)
    && multiset(cards) <= multiset(hand)
    && (onTable == [] || CanBeat(Classify(cards), Classify(onTable)))
  }

  ghost predicate IsAllowed(game: Game, request: ActionRequest) {
    match game.state
    case WaitStart => request.actionType == CallScore && 0 <= request.callScore <= 3
    case CallingScore => request.actionType == CallScore && 0 <= request.callScore <= 3
    case RobbingLandlord => request.actionType == RobLandlord && request.rob in {0, 1}
    case Playing =>
      || (request.actionType == Pass && request.cards == [] && game.table.lastCards != [])
      || (&& request.actionType == PlayCards && game.operator in game.holdings.hands
          && CanBePlayed(request.cards, game.holdings.hands[game.operator], game.table.lastCards))
    case _ => false
  }

  /** What is known of who is to move. */
  lemma OperatorSits(life: Life, players: seq<int>, deck: seq<int>)
    requires Reachable(life, players, deck)
    ensures
      var game := life.room.game;
      && life.room.players == players
      && (game.state !in {Settling, Finished} ==> game.operator in players)
      && (game.state == Playing ==>
            && game.operator in game.holdings.hands
            && (game.table.lastCards != [] ==> game.operator != game.table.lastPlayer))
  {
    ReachableIsValid(life, players, deck);
    if life.room.game.state == Playing {
      MoverHasCards(players, life.history);
    } else if life.room.game.state !in {Settling, Finished} {
      BidderSits(players, life.history);
    }
  }

  lemma BidderSits(players: seq<int>, h: History)
    requires Seated(players) && AuctionFollows(players, h)
    requires h.game.state in {WaitStart, CallingScore, RobbingLandlord}
    ensures h.game.operator in players
  {
  }

  /** The first action in a room, or a later one in the calling, is a call. */
  lemma ActsByCalling(game: Game, players: seq<int>, deck: seq<int>, request: ActionRequest)
    requires game.state in {WaitStart, CallingScore} && game.operator in players && |deck| == DECK_SIZE
    ensures
      Act(game, players, deck, game.operator, request) ==
      ActCallScore(Started(game, players, deck), players, game.operator, request)
  {
    assert Started(game, players, deck).state == CallingScore;
  }

  /** Once play is under way, the action of who is to move is looked at as it is. */
  lemma ActsInTurn(game: Game, players: seq<int>, deck: seq<int>, request: ActionRequest)
    requires game.state in {CallingScore, RobbingLandlord, Playing} && game.operator in players && |deck| == DECK_SIZE
    ensures Act(game, players, deck, game.operator, request) == ActInTurn(game, players, game.operator, request)
  {
  }

  lemma PlayIsAccepted(players: seq<int>, game: Game, request: ActionRequest)
    requires game.operator in game.holdings.hands
    requires game.table.lastCards != [] ==> game.operator != game.table.lastPlayer
    ensures
      ActPlayCards(game, players, game.operator, request).outcome.Accepted? <==>
      CanBePlayed(request.cards, game.holdings.hands[game.operator], game.table.lastCards)
  {
  }

  lemma CallIsAccepted(players: seq<int>, game: Game, request: ActionRequest)
    requires game.state == CallingScore
    ensures ActCallScore(game, players, game.operator, request).outcome.Accepted? <==> IsAllowed(game, request)
  {
  }

  lemma RobIsAccepted(players: seq<int>, game: Game, request: ActionRequest)
    requires game.state == RobbingLandlord
    requires ActRobLandlord(game, players, game.operator, request).outcome != Rejected(LandlordHandNotFound)
    ensures ActRobLandlord(game, players, game.operator, request).outcome.Accepted? <==> IsAllowed(game, request)
  {
  }

  lemma TurnIsAccepted(players: seq<int>, h: History, request: ActionRequest)
    requires Valid(players, h) && h.game.state in {CallingScore, RobbingLandlord, Playing}
    ensures h.game.operator in players
    ensures ActInTurn(h.game, players, h.game.operator, request).outcome.Accepted? <==> IsAllowed(h.game, request)
  {
    if h.game.state == Playing {
      MoverHasCards(players, h);
      PlayIsAccepted(players, h.game, request);
    } else {
      BidderSits(players, h);
      if h.game.state == RobbingLandlord {
        LandlordHasHand(players, h, request);
        RobIsAccepted(players, h.game, request);
      } else {
        CallIsAccepted(players, h.game, request);
      }
    }
  }

  /** In every reachable room an action is accepted exactly if it is the operator's and allowed: a call of 0 to 3, a
      robbing flag of 0 or 1, a pass without cards on a table that is not empty, or a combo from the hand that
      beats the one on the table. */
  lemma ActionIsAccepted(life: Life, players: seq<int>, deck: seq<int>, player: int, request: ActionRequest)
    requires Reachable(life, players, deck)
    ensures
      var game := life.room.game;
      Act(game, players, deck, player, request).outcome.Accepted? <==>
      player == game.operator && IsAllowed(game, request)
  {
    ReachableIsValid(life, players, deck);
    var h := life.history;
    if h.game.state == WaitStart {
      StartKeeps(players, h, deck);
      TurnIsAccepted(players, h.(game := Started(h.game, players, deck)), request);
    } else if h.game.state !in {Settling, Finished} {
      TurnIsAccepted(players, h, request);
    }
  }

  // ----- why the others are rejected

  lemma PlayErrors(players: seq<int>, game: Game, request: ActionRequest)
    requires game.operator in game.holdings.hands
    requires game.table.lastCards != [] ==> game.operator != game.table.lastPlayer
    ensures
      var cards, onTable := request.cards, game.table.lastCards;
      var outcome := ActPlayCards(game, players, game.operator, request).outcome;
      && (outcome == Rejected(NoCardsPlayed) <==> cards == [])
      && (outcome == Rejected(InvalidCombo) <==> cards != [] && !HasSomeShape(cards))
      && (outcome == Rejected(CannotBeatPrevious) <==>
          HasSomeShape(cards) && onTable != [] && !CanBeat(Classify(cards), Classify(onTable)))
      && (outcome == Rejected(CardsNotInHand) <==>
          && HasSomeShape(cards) && (onTable == [] || CanBeat(Classify(cards), Classify(onTable)))
          && !(multiset(cards) <= multiset(game.holdings.hands[game.operator])))
  {
  }

  /** The reason that a rejected play is answered with. */
  lemma PlayIsRejectedFor(life: Life, players: seq<int>, deck: seq<int>, request: ActionRequest)
    requires Reachable(life, players, deck) && life.room.game.state == Playing && request.actionType == PlayCards
    ensures
      var game, cards, onTable := life.room.game, request.cards, life.room.game.table.lastCards;
      var outcome := Act(game, players, deck, game.operator, request).outcome;
      && game.operator in game.holdings.hands
      && (outcome == Rejected(NoCardsPlayed) <==> cards == [])
      && (outcome == Rejected(InvalidCombo) <==> cards != [] && !HasSomeShape(cards))
      && (outcome == Rejected(CannotBeatPrevious) <==>
          HasSomeShape(cards) && onTable != [] && !CanBeat(Classify(cards), Classify(onTable)))
      && (outcome == Rejected(CardsNotInHand) <==>
          && HasSomeShape(cards) && (onTable == [] || CanBeat(Classify(cards), Classify(onTable)))
          && !(multiset(cards) <= multiset(game.holdings.hands[game.operator])))
  {
    OperatorSits(life, players, deck);
    ActsInTurn(life.room.game, players, deck, request);
    PlayErrors(players, life.room.game, request);
  }

  /** Who is not to move is told so, and so is everybody once the game is over. */
  lemma OutOfTurnIsRejectedFor(life: Life, players: seq<int>, deck: seq<int>, player: int, request: ActionRequest)
    requires Reachable(life, players, deck)
    ensures
      var game := life.room.game;
      var outcome := Act(game, players, deck, player, request).outcome;
      && (outcome == Rejected(PlayerNotInRoom) <==> player !in players)
      && (outcome == Rejected(NotPlayerTurn) <==> player in players && player != game.operator)
      && (outcome == Rejected(StateNotAllowed) <==>
          player in players && player == game.operator && game.state in {Settling, Finished})
  {
    if player in players && player == life.room.game.operator && life.room.game.state !in {Settling, Finished} {
      TurnErrors(Started(life.room.game, players, deck), players, player, request);
    }
  }

  lemma TurnErrors(game: Game, players: seq<int>, player: int, request: ActionRequest)
    ensures
      var outcome := ActInTurn(game, players, player, request).outcome;
      outcome.Rejected? ==> outcome.error !in {PlayerNotInRoom, NotPlayerTurn, StateNotAllowed}
  {
  }

  /** In the auction, the type of the action is looked at first, and then its number. */
  lemma BidIsRejectedFor(life: Life, players: seq<int>, deck: seq<int>, request: ActionRequest)
    requires Reachable(life, players, deck) && life.room.game.state in {WaitStart, CallingScore, RobbingLandlord}
    ensures
      var game := life.room.game;
      var outcome := Act(game, players, deck, game.operator, request).outcome;
      if game.state == RobbingLandlord then
        && (outcome == Rejected(NotAllowedInRobLandlord) <==> request.actionType != RobLandlord)
        && (outcome == Rejected(InvalidRobFlag) <==> request.actionType == RobLandlord && request.rob !in {0, 1})
      else
        && (outcome == Rejected(NotAllowedInCallScore) <==> request.actionType != CallScore)
        && (outcome == Rejected(InvalidCallScore) <==>
            request.actionType == CallScore && !(0 <= request.callScore <= 3))
  {
    OperatorSits(life, players, deck);
    var game := life.room.game;
    if game.state == RobbingLandlord {
      ActsInTurn(game, players, deck, request);
      RobErrors(game, players, game.operator, request);
    } else {
      ActsByCalling(game, players, deck, request);
      CallErrors(Started(game, players, deck), players, game.operator, request);
    }
  }

  lemma CallErrors(game: Game, players: seq<int>, player: int, request: ActionRequest)
    ensures
      var outcome := ActCallScore(game, players, player, request).outcome;
      && (outcome == Rejected(NotAllowedInCallScore) <==> request.actionType != CallScore)
      && (outcome == Rejected(InvalidCallScore) <==>
          request.actionType == CallScore && !(0 <= request.callScore <= 3))
  {
  }

  lemma RobErrors(game: Game, players: seq<int>, player: int, request: ActionRequest)
    ensures
      var outcome := ActRobLandlord(game, players, player, request).outcome;
      && (outcome == Rejected(NotAllowedInRobLandlord) <==> request.actionType != RobLandlord)
      && (outcome == Rejected(InvalidRobFlag) <==> request.actionType == RobLandlord && request.rob !in {0, 1})
  {
  }

  /** In the game, a pass is rejected for its cards first, and then for an empty table. */
  lemma PassIsRejectedFor(life: Life, players: seq<int>, deck: seq<int>, request: ActionRequest)
    requires Reachable(life, players, deck) && life.room.game.state == Playing && request.actionType != PlayCards
    ensures
      var game := life.room.game;
      var outcome := Act(game, players, deck, game.operator, request).outcome;
      && (outcome == Rejected(NotAllowedInPlaying) <==> request.actionType != Pass)
      && (outcome == Rejected(PassWithCards) <==> request.actionType == Pass && request.cards != [])
      && (outcome == Rejected(PassOnEmptyTable) <==>
          request.actionType == Pass && request.cards == [] && game.table.lastCards == [])
  {
    OperatorSits(life, players, deck);
    ActsInTurn(life.room.game, players, deck, request);
  }

  // ----- what accepted actions do

  /** The hands of the players, with those cards gone from one of them. */
  ghost predicate OnlyLost(before: map<int, seq<int>>, after: map<int, seq<int>>, player: int, cards: seq<int>) {
    && after.Keys == before.Keys && player in before
    && multiset(after[player]) + multiset(cards) == multiset(before[player])
    && forall p :: p in before && p != player ==> after[p] == before[p]
  }

  /** A play puts its cards on the table and takes them from the hand. It ends the game exactly if it was the last of
      the hand, for the stake of the auction, and otherwise the next seat is to move. */
  lemma PlayTakesEffect(life: Life, players: seq<int>, deck: seq<int>, player: int, request: ActionRequest)
    requires Reachable(life, players, deck) && life.room.game.state == Playing && request.actionType == PlayCards
    requires Act(life.room.game, players, deck, player, request).outcome.Accepted?
    ensures
      var game, step := life.room.game, Act(life.room.game, players, deck, player, request);
      var game' := step.game;
      && game'.table == Table(player, request.cards, 0)
      && OnlyLost(game.holdings.hands, game'.holdings.hands, player, request.cards)
      && game'.auction == game.auction && game'.holdings.bottomCards == game.holdings.bottomCards
      && (step.outcome.gameOver <==> |game.holdings.hands[player]| == |request.cards|)
      && (if step.outcome.gameOver then
            game'.state == Settling && step.outcome.winner == player && step.outcome.baseCoin == game.auction.baseCoin
          else
            game'.state == Playing && game'.operator == Seat(players, IndexOf(players, player) + 1))
  {
    ReachableIsValid(life, players, deck);
    var h := life.history;
    LeaderIsNotAsked(players, h);
    PlayFields(players, h, request);
    TakenOut(h.game.holdings.hands[player], request.cards);
    SeatOf(players, player);
    StakeIsBounded(h.calls, h.robs);
  }

  /** A pass moves no cards. The second one in a row gives the lead back on an empty table, and otherwise the next
      seat is to move. */
  lemma PassTakesEffect(life: Life, players: seq<int>, deck: seq<int>, player: int, request: ActionRequest)
    requires Reachable(life, players, deck) && life.room.game.state == Playing && request.actionType == Pass
    requires Act(life.room.game, players, deck, player, request).outcome.Accepted?
    ensures
      var game, step := life.room.game, Act(life.room.game, players, deck, player, request);
      && !step.outcome.gameOver && step.game.state == Playing
      && step.game.holdings == game.holdings && step.game.auction == game.auction
      && (if game.table.passes == 0 then
            && step.game.operator == Seat(players, IndexOf(players, player) + 1)
            && step.game.table == game.table.(passes := 1)
          else
            step.game.operator == game.table.lastPlayer && step.game.table == Table(NOBODY, [], 0))
  {
    ReachableIsValid(life, players, deck);
    LeaderIsNotAsked(players, life.history);
    SeatOf(players, player);
  }

  /** A call counts if it is higher than those before it. A call of three or the third one ends the calling: the
      caller of the highest score, or the first seat if nobody called any, opens the robbing, and the stake is that
      score but at least one. */
  ghost predicate CalledTo(game: Game, game': Game, players: seq<int>, request: ActionRequest)
    requires Seated(players)
  {
    var player, call, before, after := game.operator, request.callScore, game.auction, game'.auction;
    var ends := call == 3 || before.actionCount == 2;
    && after.highestScore == Max(before.highestScore, call)
    && after.highestCaller == (if call > before.highestScore then player
                               else if ends && before.highestCaller == NOBODY then players[0]
                               else before.highestCaller)
    && after.landlord == before.landlord
    && (if ends then
          game'.state == RobbingLandlord && game'.operator == after.highestCaller
          && after.baseCoin == Max(1, after.highestScore)
        else
          game'.state == CallingScore && game'.operator == Seat(players, IndexOf(players, player) + 1)
          && after.baseCoin == before.baseCoin)
    && game'.holdings == game.holdings && game'.table == game.table
  }

  /** Every accepted call does so, to the game as it was or, with the first call, has just been started. */
  lemma CallTakesEffect(life: Life, players: seq<int>, deck: seq<int>, player: int, request: ActionRequest)
    requires Reachable(life, players, deck) && life.room.game.state in {WaitStart, CallingScore}
    requires Act(life.room.game, players, deck, player, request).outcome.Accepted?
    ensures player == life.room.game.operator
    ensures
      CalledTo(Started(life.room.game, players, deck), Act(life.room.game, players, deck, player, request).game,
               players, request)
  {
    var game := life.room.game;
    ReachableIsValid(life, players, deck);
    OperatorSits(life, players, deck);
    CallIsCounted(players, life.history);
    ActsByCalling(game, players, deck, request);
    CallMoves(Started(game, players, deck), players, request);
  }

  lemma CallIsCounted(players: seq<int>, h: History)
    requires Seated(players) && AuctionFollows(players, h) && h.game.state in {WaitStart, CallingScore}
    ensures 0 <= h.game.auction.actionCount <= 2
  {
  }

  lemma CallMoves(game: Game, players: seq<int>, request: ActionRequest)
    requires Seated(players) && game.operator in players && 0 <= game.auction.actionCount <= 2
    requires ActCallScore(game, players, game.operator, request).outcome.Accepted?
    ensures CalledTo(game, ActCallScore(game, players, game.operator, request).game, players, request)
  {
    SeatOf(players, game.operator);
  }

  /** A robbing flag of 1 doubles the stake and claims the landlord's place, and one of 0 changes neither, except that
      after the third flag the opener takes the place if nobody claimed it. Then the landlord, and nobody else, gets
      the bottom cards. */
  ghost predicate RobbedTo(game: Game, game': Game, players: seq<int>, request: ActionRequest)
    requires Seated(players)
  {
    var player, ends := game.operator, game.auction.actionCount == 2;
    && game'.auction.baseCoin == game.auction.baseCoin * (if request.rob == 1 then 2 else 1)
    && game'.auction.landlord == (if request.rob == 1 then player
                                  else if ends && game.auction.landlord == NOBODY then game.auction.highestCaller
                                  else game.auction.landlord)
    && (if ends then game'.state == Playing && game'.operator == game'.auction.landlord
        else game'.state == RobbingLandlord && game'.operator == Seat(players, IndexOf(players, player) + 1))
    && game'.holdings.hands.Keys == game.holdings.hands.Keys
    && forall p :: p in game.holdings.hands ==>
         if ends && p == game'.auction.landlord then
           multiset(game'.holdings.hands[p]) == multiset(game.holdings.hands[p]) + multiset(game.holdings.bottomCards)
         else game'.holdings.hands[p] == game.holdings.hands[p]
  }

  /** Every accepted robbing flag does so. */
  lemma RobTakesEffect(life: Life, players: seq<int>, deck: seq<int>, player: int, request: ActionRequest)
    requires Reachable(life, players, deck) && life.room.game.state == RobbingLandlord
    requires Act(life.room.game, players, deck, player, request).outcome.Accepted?
    ensures
      && player == life.room.game.operator
      && RobbedTo(life.room.game, Act(life.room.game, players, deck, player, request).game, players, request)
  {
    ReachableIsValid(life, players, deck);
    OperatorSits(life, players, deck);
    RobIsCounted(players, life.history, request);
    ActsInTurn(life.room.game, players, deck, request);
    RobMoves(life.room.game, players, request);
  }

  lemma RobMoves(game: Game, players: seq<int>, request: ActionRequest)
    requires Seated(players) && game.operator in players && 0 <= game.auction.actionCount <= 2
    requires game.auction.baseCoin >= 1 && game.auction.highestCaller != NOBODY
    requires ActRobLandlord(game, players, game.operator, request).outcome.Accepted?
    ensures RobbedTo(game, ActRobLandlord(game, players, game.operator, request).game, players, request)
  {
    SeatOf(players, game.operator);
  }

  lemma RobIsCounted(players: seq<int>, h: History, request: ActionRequest)
    requires Valid(players, h) && h.game.state == RobbingLandlord
    ensures h.game.auction.baseCoin >= 1 && h.game.auction.highestCaller != NOBODY
    ensures 0 <= h.game.auction.actionCount <= 2
  {
    StakeIsBounded(h.calls, h.robs);
  }
}
