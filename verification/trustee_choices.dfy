/** What the trustee does for an absent player, in every reachable room: it never bids, leads with its lowest card,
    follows with the lowest card that is high enough, and passes otherwise. */
module TrusteeChoices {
  import opened Cards
  import opened Basics
  import opened RuleEngine
  import opened Combos
  import opened Rooms
  import opened RoomInvariant
  import opened RoomRuns
  import opened RoomTrustee
  import opened RoomActions

  /** Lower in rank, or of the same rank and no higher in id. */
  predicate NoHigher(a: int, b: int) {
    CardRank(a) < CardRank(b) || (CardRank(a) == CardRank(b) && a <= b)
  }

  predicate AnyCard(card: int) { true }

  ghost predicate AreDeckCards(hand: seq<int>) {
    forall c :: c in hand ==> 0 <= c < DECK_SIZE
  }

  lemma KeysOrderCards(a: int, b: int)
    requires 0 <= a < DECK_SIZE && 0 <= b < DECK_SIZE
    ensures CardKey(a) <= CardKey(b) <==> NoHigher(a, b)
  {
  }

  /** The lowest card of a hand that a condition holds of. */
  ghost predicate IsLowest(hand: seq<int>, card: int, fits: int -> bool) {
    card in hand && fits(card) && forall c :: c in hand && fits(c) ==> NoHigher(card, c)
  }

  lemma FirstIsLowest(hand: seq<int>)
    requires hand != [] && OrderedBy(CardKey, hand) && AreDeckCards(hand)
    ensures IsLowest(hand, hand[0], AnyCard)
  {
    forall c | c in hand
      ensures NoHigher(hand[0], c)
    {
      var i :| 0 <= i < |hand| && hand[i] == c;
      assert hand[0] in hand;
      KeysOrderCards(hand[0], c);
    }
  }

  lemma {:induction false} FirstBeatingComesFirst(hand: seq<int>, previous: CardCombo) returns (i: nat)
    requires FirstBeating(hand, previous).Some?
    ensures i < |hand| && hand[i] == FirstBeating(hand, previous).value
    ensures forall j :: 0 <= j < i ==> !CanBeat(Classify([hand[j]]), previous)
  {
    i := 0;
    if !CanBeat(Classify([hand[0]]), previous) {
      var k := FirstBeatingComesFirst(hand[1..], previous);
      i := k + 1;
    }
  }

  lemma FirstBeatingIsLowest(hand: seq<int>, previous: CardCombo)
    requires OrderedBy(CardKey, hand) && AreDeckCards(hand) && FirstBeating(hand, previous).Some?
    ensures
      var card := FirstBeating(hand, previous).value;
      card in hand && forall c :: c in hand && CanBeat(Classify([c]), previous) ==> NoHigher(card, c)
  {
    var i := FirstBeatingComesFirst(hand, previous);
    forall c | c in hand && CanBeat(Classify([c]), previous)
      ensures NoHigher(hand[i], c)
    {
      var j :| 0 <= j < |hand| && hand[j] == c;
      assert hand[i] in hand;
      KeysOrderCards(hand[i], c);
    }
  }

  /** A card that beats the table on its own: there lies one card, of a lower rank. */
  predicate IsHigherThan(card: int, onTable: seq<int>) {
    |onTable| == 1 && CardRank(card) > CardRank(onTable[0])
  }

  /** A card of the player lies on the table alone, and has left the player's hand. */
  ghost predicate Laid(game: Game, step: Step, card: int) {
    && step.outcome.Accepted?
    && step.game.table == Table(game.operator, [card], 0)
    && OnlyLost(game.holdings.hands, step.game.holdings.hands, game.operator, [card])
  }

  /** The table and the mover's hand, as far as the trustee looks at them. */
  lemma WhatLies(players: seq<int>, h: History)
    requires Valid(players, h) && h.game.state == Playing
    ensures h.game.operator in players && h.game.operator in h.game.holdings.hands
    ensures
      var hand := h.game.holdings.hands[h.game.operator];
      hand != [] && OrderedBy(CardKey, hand) && AreDeckCards(hand)
    ensures h.game.table.lastCards != [] ==>
              HasSomeShape(h.game.table.lastCards) && h.game.operator != h.game.table.lastPlayer
  {
    PlayingCards(players, h);
    MoverHasCards(players, h);
    HandInDeck(players, h.game.holdings, h.played, h.game.operator);
    var hand := h.game.holdings.hands[h.game.operator];
    forall c | c in hand
      ensures 0 <= c < DECK_SIZE
    {
      PartOfDeck(hand, c);
    }
    if h.game.table.lastCards != [] {
      TableHoldsCombo(players, h.game.operator, h.game.table, h.trick);
    }
  }

  lemma TableHoldsCombo(players: seq<int>, operator: int, table: Table, trick: seq<CardCombo>)
    requires Seated(players) && TableIs(players, operator, table, trick) && table.lastCards != []
    ensures HasSomeShape(table.lastCards)
  {
    assert IsDeckCombo(trick[|trick| - 1]);
  }

  lemma CardIsLaid(players: seq<int>, game: Game, card: int)
    requires game.operator in game.holdings.hands && card in game.holdings.hands[game.operator]
    requires ActPlayCards(game, players, game.operator, Request(PlayCards, [card])).outcome.Accepted?
    ensures Laid(game, ActPlayCards(game, players, game.operator, Request(PlayCards, [card])), card)
  {
    var hand := game.holdings.hands[game.operator];
    TakenOut(hand, [card]);
  }

  /** On a table that another player leads, the trustee lays down the lowest card of the hand that beats it on its own,
      and passes exactly if there is none. */
  lemma TrusteeFollowsLow(life: Life, players: seq<int>, deck: seq<int>)
    requires Reachable(life, players, deck) && life.room.game.state == Playing && life.room.game.table.lastCards != []
    ensures
      var game := life.room.game;
      var step := ActTrustee(game, players, deck, game.operator);
      && game.operator in game.holdings.hands
      && var hand, fits := game.holdings.hands[game.operator], c => IsHigherThan(c, game.table.lastCards);
         if exists c :: c in hand && fits(c) then
           exists card :: IsLowest(hand, card, fits) && Laid(game, step, card)
         else
           step == Act(game, players, deck, game.operator, Request(Pass, [])) && step.outcome.Accepted?
  {
    ReachableIsValid(life, players, deck);
    WhatLies(players, life.history);
    TrusteeFollowsValid(players, life.room.game, deck);
  }

  lemma TrusteeFollowsValid(players: seq<int>, game: Game, deck: seq<int>)
    requires game.state == Playing && game.operator in players && |deck| == DECK_SIZE
    requires game.operator in game.holdings.hands
    requires AreDeckCards(game.holdings.hands[game.operator])
    requires OrderedBy(CardKey, game.holdings.hands[game.operator])
    requires game.operator != game.table.lastPlayer && HasSomeShape(game.table.lastCards)
    ensures
      var step := ActTrustee(game, players, deck, game.operator);
      var hand, fits := game.holdings.hands[game.operator], c => IsHigherThan(c, game.table.lastCards);
      if exists c :: c in hand && fits(c) then
        exists card :: IsLowest(hand, card, fits) && Laid(game, step, card)
      else
        step == Act(game, players, deck, game.operator, Request(Pass, [])) && step.outcome.Accepted?
  {
    var hand, onTable := game.holdings.hands[game.operator], game.table.lastCards;
    var previous := Classify(onTable);
    forall c | c in hand
      ensures CanBeat(Classify([c]), previous) <==> IsHigherThan(c, onTable)
    {
      CardBeatsCard(c, onTable);
    }
    var choice := FirstBeating(hand, previous);
    match choice
    case Some(card) =>
      FirstBeatingIsLowest(hand, previous);
      SingleCard(card);
      assert multiset([card]) <= multiset(hand);
      CardIsAccepted(game, players, card);
      CardIsLaid(players, game, card);
      assert IsLowest(hand, card, c => IsHigherThan(c, onTable));
    case None =>
      PassIsAccepted(game, players);
  }

  /** On an empty table, the trustee lays down the lowest card of the hand. */
  lemma TrusteeLeadsLow(life: Life, players: seq<int>, deck: seq<int>)
    requires Reachable(life, players, deck) && life.room.game.state == Playing && life.room.game.table.lastCards == []
    ensures
      var game := life.room.game;
      && game.operator in game.holdings.hands
      && exists card ::
           && IsLowest(game.holdings.hands[game.operator], card, AnyCard)
           && Laid(game, ActTrustee(game, players, deck, game.operator), card)
  {
    ReachableIsValid(life, players, deck);
    WhatLies(players, life.history);
    TrusteeLeadsValid(players, life.room.game, deck);
  }

  lemma TrusteeLeadsValid(players: seq<int>, game: Game, deck: seq<int>)
    requires game.state == Playing && game.operator in players && |deck| == DECK_SIZE
    requires game.operator in game.holdings.hands && game.holdings.hands[game.operator] != []
    requires AreDeckCards(game.holdings.hands[game.operator])
    requires OrderedBy(CardKey, game.holdings.hands[game.operator]) && game.table.lastCards == []
    ensures
      exists card ::
        && IsLowest(game.holdings.hands[game.operator], card, AnyCard)
        && Laid(game, ActTrustee(game, players, deck, game.operator), card)
  {
    var hand := game.holdings.hands[game.operator];
    var card := hand[0];
    FirstIsLowest(hand);
    SingleCard(card);
    assert multiset([card]) <= multiset(hand);
    CardIsAccepted(game, players, card);
    CardIsLaid(players, game, card);
    assert Laid(game, ActTrustee(game, players, deck, game.operator), card);
  }

  /** In the auction, the trustee neither raises the score nor robs: score and stake stay as they are, but that the
      stake is settled with the last call, and the landlord is only found if that was the last flag. */
  lemma TrusteeNeverBids(life: Life, players: seq<int>, deck: seq<int>)
    requires Reachable(life, players, deck) && life.room.game.state in {CallingScore, RobbingLandlord}
    ensures
      var game, step := life.room.game, ActTrustee(life.room.game, players, deck, life.room.game.operator);
      && step.outcome.Accepted? && !step.outcome.gameOver
      && step.game.auction.highestScore == game.auction.highestScore
      && (if game.state == RobbingLandlord then step.game.auction.baseCoin == game.auction.baseCoin
          else step.game.auction.baseCoin == if step.game.state == CallingScore then game.auction.baseCoin
                                             else Max(1, game.auction.highestScore))
      && (step.game.auction.landlord == game.auction.landlord
          || (step.game.state == Playing && game.auction.landlord == NOBODY
              && step.game.auction.landlord == game.auction.highestCaller))
  {
    var game := life.room.game;
    ReachableIsValid(life, players, deck);
    TrusteeIsAccepted(players, life.history, deck);
    var request := TrusteeAction(game, game.operator).request;
    if game.state == CallingScore {
      CallTakesEffect(life, players, deck, game.operator, request);
      ActsByCalling(game, players, deck, request);
    } else {
      RobTakesEffect(life, players, deck, game.operator, request);
      OperatorSits(life, players, deck);
      ActsInTurn(game, players, deck, request);
    }
  }

  /** For anybody else, before the first action and after the game, the trustee does nothing. */
  lemma TrusteeOnlyActsInTurn(game: Game, players: seq<int>, deck: seq<int>, player: int)
    requires |deck| == DECK_SIZE
    requires player != game.operator || game.state in {WaitStart, Settling, Finished}
    ensures
      ActTrustee(game, players, deck, player) ==
      Step(game, Rejected(if player != game.operator then NotTrusteeTurn else NoTrusteeAction))
  {
  }
}
