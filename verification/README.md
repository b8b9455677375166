# Dou Dizhu server: a verified model

This project models the parts of a Dou Dizhu (three-player card game) server that decide what happens,
and proves what a player, an operator or a client author relies on. `dafny verify dfyconfig.toml` checks it.

What changes state in the server is modelled by classes and methods that change fields step by step. Each
method is proved equal to a function of the old state, and what the server promises is then proved of those
functions, for every input and every run.

| file | what it holds |
|---|---|
| `basics.dfy`, `cards.dfy` | integer widths, options; card ids, ranks, counting, sorting |
| `rule_engine.dfy`, `combos.dfy` | the fourteen combos as shapes, the classifier, the order of combos; what they are in card ids, and which beats which |
| `room.dfy` | a room as a value, and every step of it |
| `room_invariant.dfy` | what every step of a room keeps |
| `room_runs.dfy`, `room_trustee.dfy`, `room_versions.dfy` | what holds in every run: cards, tricks, the auction, bounds, progress, snapshot versions |
| `room_actions.dfy`, `trustee_choices.dfy`, `room_snapshots.dfy` | in reachable rooms: which actions are accepted and what they do, what the trustee chooses, what snapshots tell |
| `room_manager.dfy` | the room manager; its live rooms are reachable rooms |
| `storage.dfy`, `players.dfy`, `sessions.dfy`, `matching.dfy` | the other managers and the settlement transaction |
| `settlement.dfy`, `settlement_protocol.dfy` | the ledger, the settlement service, settlements in parallel |
| `membership.dfy`, `service.dfy` | queues, sessions, players and seats together, under every request; what holds of a server in service |
| `server_steps.dfy`, `timer.dfy`, `game_server.dfy` | answers and steps of the server as functions; rounds of the timer; the request handlers and the timer on the managers |
| `connections.dfy`, `waiting.dfy`, `waiting_times.dfy`, `player_states.dfy`, `coins.dfy` | over whole runs: which sessions are reached from their connections, who can be taken out of the queue, who times out, what states and sessions tell, all coins in circulation |
| `packet_codec.dfy` | packets in a byte stream |
| `json_parsing.dfy`, `json_grammar.dfy`, `json_codec.dfy` | the JSON parser, its grammar, numbers, the envelope |
| `rate_limit.dfy`, `rate_order.dfy` | the request limit per address; when it needs the requests to come in order |

Where the code does something one might not expect, the model does the same, and a lemma says exactly when:

* The first action in a fresh room starts the game and deals before it is looked at. If it is then rejected,
  clients see a changed room under an unchanged version. `VersionMissesAChange` shows that this is the only
  such case. But for it, rejected actions leave the state alone, as
  `ddz_server/runbooks/p5_fault_drill_runbook.md` (line 19) expects (`RejectionChangesNothing`).
* Forcing a player's state turns a balance of exactly 0 into 1000, so memory and storage differ for a player
  whom a settlement leaves with nothing (`StorageHoldsTheBalances`), and coins are conserved up to 1000 for
  each such player (`CoinsAreConserved`).
* A connection may be bound by two players in turn, and a player who moves on frees it for both. The other one's
  session then stays online on a connection that is gone, and the timer never takes that player for absent.
  `OnlineIsReachedUnlessTaken` says exactly when a session is reached from its connection, `OnlineButOutOfReach`
  gives the logins.
* The request limit relies on the requests of an address being checked in the order of their times. The clock is
  steady (`ddz_server/common/util/time_util.h`, lines 8-11), but the gateway reads it before it takes the lock
  (`ddz_server/gateway/gateway_server.cpp`, line 885). A request that has been overtaken, by however little, can be one
  too many in its second, unless at most one request is allowed in a second (`OrderIsNeeded`); and it can be refused
  although its last second allows for it (`DecisionNeedsTheOrder`).
* The length of a packet is computed in 32 bits; `CopyFitsUnlessWrapped` says for which bodies too little room is made.
* Logging in or reconnecting while waiting for a match leaves the player queued in state Lobby. Cancelling or losing
  the connection then does not take the player out of the queue, and a match seats them although they are gone.
  `StrayIffReturned` and `ReturnedStayQueued` say exactly when, `GoneButQueued` gives the requests, and
  `LastToAskSeatsAll` says what comes of it.
* A settlement marks its room before it stores anything. If storage then fails, the room stays settling and refuses
  every action for good (`MarkedRefusesForGood`), until somebody's absence has it settled. Coins, seats and the rest
  of the game are as they were, as line 18 of the runbook expects, but a game that was under way is stopped
  (`FailureStopsTheGame`).
* Nobody is ever put into the states Playing or Settlement: whoever plays is in state InRoom (`StatesTellWhere`). The
  answer for a cancellation that fails is never given (`CancelIsAnswered`).
* The strict reader of 32-bit numbers accepts some negative ones as others (`PrintedU32IsRead`).
* Behind an empty JSON object any text may follow, while behind a non-empty one only white space may
  (`Document` in `json_grammar.dfy`). Of the escapes of section 7 of RFC 8259 the parser knows all but `\u`,
  and control characters may stand for themselves.

## Model

| member | source | states |
|---|---|---|
| RuleEngine.Analyze | ddz_server/service/rule/ddz_rule_engine.cpp:62-298 | the classifier is sound and complete: it returns the combo whose shape the card list has, and is valid exactly if the list has one of the fourteen shapes |
| RuleEngine.ShapesAreDisjoint | ddz_server/service/rule/ddz_rule_engine.cpp:62-298 | no card list has two shapes or two main ranks, so the order of the cascade cannot matter |
| RuleEngine.ShapeHasOneRank | ddz_server/service/rule/ddz_rule_engine.cpp:62-298 | one shape of a list fixes the rank it is compared by |
| RuleEngine.ClassifyIgnoresOrder | ddz_server/service/rule/ddz_rule_engine.cpp:62-298 | every permutation of the cards is the same combo |
| RuleEngine.IsConsecutive | ddz_server/service/rule/ddz_rule_engine.cpp:11-21 | true exactly for non-empty lists in which every rank is the first plus its position |
| RuleEngine.CollectRanksByCount | ddz_server/service/rule/ddz_rule_engine.cpp:30-38 | the ranks that occur exactly so often, each once and ascending |
| RuleEngine.TryStraight | ddz_server/service/rule/ddz_rule_engine.cpp:147-159 | finds the straight if and only if there is one |
| RuleEngine.TryRun | ddz_server/service/rule/ddz_rule_engine.cpp:161-197 | finds a pair straight or a plane if and only if there is one |
| RuleEngine.TryWingedPlane | ddz_server/service/rule/ddz_rule_engine.cpp:199-251 | finds a plane with wings if and only if there is one, although wings are only counted |
| RuleEngine.TryFourWithTwo | ddz_server/service/rule/ddz_rule_engine.cpp:253-296 | finds four with two wings if and only if they are there |
| Combos.KindsAreCombos | ddz_server/service/rule/ddz_rule_engine.cpp:49-131 | up to three suited cards are a combo, and four a bomb, exactly if their ids are multiples of thirteen apart; the rank is the id modulo thirteen, counted from 3 |
| Combos.TwoOfAKind | ddz_server/service/rule/ddz_rule_engine.cpp:91-108 | two suited cards are a pair exactly if their ids differ by a multiple of thirteen |
| Combos.FourOfAKind | ddz_server/service/rule/ddz_rule_engine.cpp:118-131 | the ids c, c + 13, c + 26 and c + 39 are the bomb of rank c + 3 |
| Combos.RocketIsTheJokers | ddz_server/service/rule/ddz_rule_engine.cpp:91-108 | a list is the rocket exactly if it is the two jokers |
| Combos.RunsAreCombos | ddz_server/service/rule/ddz_rule_engine.cpp:147-197 | singles, pairs or triples of several ranks in a row are a straight, a pair straight or a plane exactly if they are five, three or two ranks and end at the ace or before |
| Combos.WingedAreCombos | ddz_server/service/rule/ddz_rule_engine.cpp:199-296 | triples with as many single or paired wings, and four cards with two wings, are the combos of the last triple's or the four's rank |
| Combos.BeatsByShape | ddz_server/service/rule/ddz_rule_engine.cpp:300-331 | one combo beats another exactly if it is of a higher tier, or of the same shape, of the same length if the shape has one, and of a higher rank |
| Combos.OnlyCombosBeat | ddz_server/service/rule/ddz_rule_engine.cpp:300-306 | what is no combo beats nothing, and every combo beats it |
| Combos.CardBeatsCard | ddz_server/service/rule/ddz_rule_engine.cpp:300-331 | a single card beats exactly single cards of lower rank |
| RuleEngine.SingleCard | ddz_server/service/rule/ddz_rule_engine.cpp:84-89 | every card of the deck alone is a valid single of its rank |
| Cards.CardRank | ddz_server/service/rule/ddz_rule_engine.cpp:49-60 | which ids are cards, and that only the two jokers have the two highest ranks |
| Cards.SuitsOfRank | ddz_server/service/rule/ddz_rule_engine.cpp:49-60 | exactly four ids, thirteen apart, have each rank from 3 to the deuce |
| Cards.CountOfSuits | ddz_server/service/rule/ddz_rule_engine.cpp:74-82 | counting a suited rank is counting these four cards |
| RuleEngine.CanBeatIsStrictOrder | ddz_server/service/rule/ddz_rule_engine.cpp:300-331 | beating is irreflexive, asymmetric and transitive |
| RuleEngine.DeckCombo | ddz_server/service/rule/ddz_rule_engine.cpp:62-298 | every valid combo of one deck has a strength from 1 to 29, bombs above the rest |
| RuleEngine.BeatingIsStronger | ddz_server/service/rule/ddz_rule_engine.cpp:300-331 | a combo that beats another is strictly stronger |
| RuleEngine.RisingChainIsShort | ddz_server/service/rule/ddz_rule_engine.cpp:300-331 | in a chain of combos each beating its predecessor, each beats all before it, and there are at most 29 |
| RoomManagement.HoldsAll | ddz_server/service/room/room_manager.cpp:137-149 | counting finds out exactly whether the hand holds all the cards, repeated ones included |
| RoomManagement.RemoveCards | ddz_server/service/room/room_manager.cpp:137-160 | takes out all of the cards or none, exactly if the hand holds them all |
| RoomManagement.DealCards | ddz_server/service/room/room_manager.cpp:29-63 | the loop deals as the function that conservation is proved of |
| RoomInvariant.DealtHands | ddz_server/service/room/room_manager.cpp:29-63 | for every deck, dealing gives 17 cards each and three at the bottom, all 54 once, hands sorted |
| RoomInvariant.CardsAreDealtInTurn | ddz_server/service/room/room_manager.cpp:48-63 | the first 51 cards go round the seats one by one, the last three stay at the bottom |
| RoomInvariant.NextSeat | ddz_server/service/room/room_manager.cpp:14-27 | the next operator is the next seat round the table |
| RoomManagement.MakeSnapshot | ddz_server/service/room/room_manager.cpp:65-107 | one pass collects the online bits, the trustees and the nearest deadline of all players |
| Rooms.SnapshotTellsPresence | ddz_server/service/room/room_manager.cpp:65-107 | a snapshot's bitmap has a 1 exactly for seats online, its trustees are exactly the trusted seats in order, and its deadline is the least of those who are away, or 0 if nobody is |
| RoomManagement.ApplyCallScore | ddz_server/service/room/room_manager.cpp:315-348 | calling is the step that the auction results are proved of |
| RoomManagement.ApplyRobLandlord | ddz_server/service/room/room_manager.cpp:350-396 | robbing is the step that the auction results are proved of |
| RoomManagement.ApplyPass | ddz_server/service/room/room_manager.cpp:405-438 | passing is the step that the turn results are proved of |
| RoomManagement.ApplyPlayCards | ddz_server/service/room/room_manager.cpp:440-503 | playing cards, with the imperative classifier and removal, is the step that the trick and card results are proved of |
| RoomManagement.RoomManager.ApplyPlayerAction | ddz_server/service/room/room_manager.cpp:276-504 | exactly the step `Act` of the room, with its answer; other rooms stay; the room remains a reachable one |
| RoomManagement.RoomManager.ApplyTrusteeAction | ddz_server/service/room/room_manager.cpp:619-681 | exactly the step of the trustee's own choice |
| RoomManagement.FindChallenge | ddz_server/service/room/room_manager.cpp:650-672 | finds the first card that beats the table, if any does |
| RoomManagement.RoomManager.CreateRoom | ddz_server/service/room/room_manager.cpp:164-186 | the new room has an id no room had before, and the index points to it for its players |
| RoomManagement.RoomManager.DestroyRoom | ddz_server/service/room/room_manager.cpp:188-199 | the room and the index entries of its players are gone, nothing else |
| RoomManagement.RoomManager.MarkPlayerOffline | ddz_server/service/room/room_manager.cpp:546-568 | the step of a lost connection on the player's room, if the player has one |
| RoomManagement.RoomManager.MarkPlayerOnline | ddz_server/service/room/room_manager.cpp:570-594 | the step of a return on the player's room |
| RoomManagement.RoomManager.MarkPlayerTrustee | ddz_server/service/room/room_manager.cpp:596-617 | the step of handing over to the trustee or taking back |
| RoomManagement.RoomManager.MarkSettling | ddz_server/service/room/room_manager.cpp:697-706 | the room is settling under a new version |
| RoomManagement.RoomManager.MarkFinished | ddz_server/service/room/room_manager.cpp:708-717 | the room is finished under a new version |
| RoomManagement.RoomManager.PickWinnerForOfflineLose | ddz_server/service/room/room_manager.cpp:683-695 | the first player of the room other than the absent one |
| RoomManagement.OnlyLosersBefore | ddz_server/service/room/room_manager.cpp:683-695 | it is the first such player |
| RoomActions.ActionIsAccepted | ddz_server/service/room/room_manager.cpp:276-504 | in every reachable room an action is accepted exactly if it is the operator's and is a call of 0 to 3, a flag of 0 or 1, a pass without cards on a table that is not empty, or a combo of the hand that beats the table |
| RoomActions.PlayIsRejectedFor | ddz_server/service/room/room_manager.cpp:440-487 | the reason named for a rejected play: no cards, no combo, not beating, or not in the hand, in this order |
| RoomActions.PassIsRejectedFor | ddz_server/service/room/room_manager.cpp:398-424 | the reason named for a rejected pass, or for another type of action in the game |
| RoomActions.BidIsRejectedFor | ddz_server/service/room/room_manager.cpp:315-366 | the reason named for a rejected call or flag |
| RoomActions.OutOfTurnIsRejectedFor | ddz_server/service/room/room_manager.cpp:290-307 | the reason named to strangers, to who is not to move, and after the game |
| RoomActions.PlayTakesEffect | ddz_server/service/room/room_manager.cpp:470-503 | a play moves exactly its cards from the hand to the table; it wins exactly if it was all of the hand, and else the next seat is to move |
| RoomActions.PassTakesEffect | ddz_server/service/room/room_manager.cpp:405-438 | a pass moves no cards, and the second one in a row gives the lead back |
| RoomActions.CallTakesEffect | ddz_server/service/room/room_manager.cpp:315-348 | who leads the auction after a call, when it ends, and for which stake |
| RoomActions.RobTakesEffect | ddz_server/service/room/room_manager.cpp:350-396 | a flag of 1 doubles the stake and claims the place; after the third one exactly the landlord gets the bottom cards |
| TrusteeChoices.TrusteeFollowsLow | ddz_server/service/room/room_manager.cpp:650-672 | on another's table the trustee lays the lowest card of the hand that is higher than a single card there, and passes exactly if there is none |
| TrusteeChoices.TrusteeLeadsLow | ddz_server/service/room/room_manager.cpp:636-649 | on an empty table the trustee lays the lowest card of the hand |
| TrusteeChoices.TrusteeNeverBids | ddz_server/service/room/room_manager.cpp:628-635 | the trustee neither raises the score nor robs |
| TrusteeChoices.TrusteeOnlyActsInTurn | ddz_server/service/room/room_manager.cpp:619-681 | for anybody else, before the start and after the game, the trustee does nothing |
| RoomSnapshots.SnapshotCountsActions | ddz_server/service/room/room_manager.cpp:65-135 | a snapshot's action number is the number of accepted actions |
| RoomSnapshots.SnapshotNamesWhoCanAct | ddz_server/service/room/room_manager.cpp:65-107 | until the game is over the operator it names is the one player of whom some action would be accepted |
| RoomSnapshots.SnapshotTellsTheStake | ddz_server/service/room/room_manager.cpp:65-107 | its landlord and stake are those of the auction, and who ends the game is paid that stake |
| RoomSnapshots.NewRoomIsShownAs | ddz_server/service/room/room_manager.cpp:164-186 | a new room waits for the first player, with everybody there |
| RoomSnapshots.ReturnIsSeen | ddz_server/service/room/room_manager.cpp:570-594 | who returns is seen online and no longer away, and takes over from the trustee; nobody else is seen differently |
| RoomSnapshots.LeavingIsSeen | ddz_server/service/room/room_manager.cpp:546-568 | who goes is seen away since then, or since an earlier loss |
| RoomSnapshots.HandoverIsSeen | ddz_server/service/room/room_manager.cpp:596-617 | handing over to the trustee changes nothing else |
| RoomInvariant.ActKeeps | ddz_server/service/room/room_manager.cpp:276-504 | every action, accepted or not, by anybody, keeps the whole invariant of a room |
| RoomRuns.ReachableIsValid | ddz_server/service/room/room_manager.cpp:164-186 | every room that any sequence of events leads to satisfies the invariant |
| RoomRuns.CardsAreConserved | ddz_server/service/room/room_manager.cpp:29-63 | in every reachable dealt room hands, bottom cards not given out and cards played are the 54 cards, and hands are sorted |
| RoomRuns.FullDeckIsComplete | ddz_server/service/room/room_manager.cpp:40-47 | the deck of that claim is each of 0..53 once |
| RoomRuns.RunsAreBounded | ddz_server/service/room/room_manager.cpp:276-504 | a room accepts at most 168 actions, whoever sends them |
| RoomRuns.AcceptedLowersBudget | ddz_server/service/room/room_manager.cpp:276-504 | every accepted action lowers a measure of cards left and passes possible |
| RoomRuns.TricksRise | ddz_server/service/room/room_manager.cpp:451-487 | the plays of a trick rise strictly, so there are at most 29, and the last lies on the table |
| RoomRuns.TurnsGoRound | ddz_server/service/room/room_manager.cpp:405-438 | the operator sits passes + 1 seats after the last player, so the leader is never asked to beat or pass on their own cards |
| RoomRuns.TwoPassesReturnTheLead | ddz_server/service/room/room_manager.cpp:405-438 | two passes in a row are accepted and give the lead back on an empty table |
| RoomRuns.AuctionResult | ddz_server/service/room/room_manager.cpp:315-396 | the landlord is the last robber or else the first of the highest callers; the stake is max(1, highest call) times 2 for each rob, and at most 24 |
| RoomRuns.PlayStartsFairly | ddz_server/service/room/room_manager.cpp:382-396 | play starts with the landlord to move, holding 20 cards against 17 and 17 |
| RoomRuns.MarkedRefusesForGood | ddz_server/service/room/room_manager.cpp:301-312 | a room once marked as settling refuses every action and the trustee for good, whatever happens to it; nothing else of its game changes |
| RoomRuns.TrusteeEndsByWinning | ddz_server/service/room/room_manager.cpp:488-496 | the trustee leaves a game over exactly if it was over or the trustee wins it |
| RoomRuns.RejectionChangesNothing | ddz_server/service/room/room_manager.cpp:290-312 | a rejected action leaves the room alone, except that it may have started it |
| RoomInvariant.LandlordHasHand | ddz_server/service/room/room_manager.cpp:375-381 | the late exit for a landlord without a hand is never taken |
| RoomTrustee.TrusteeIsAccepted | ddz_server/service/room/room_manager.cpp:619-681 | in every valid game under way the trustee's action for the operator is accepted |
| RoomTrustee.AcceptedEndsOrGoesOn | ddz_server/service/room/room_manager.cpp:488-503 | an accepted action ends the game with an empty winner's hand and a stake of 1 to 24, or the game goes on |
| RoomTrustee.TrusteesFinishEveryGame | ddz_server/service/room/room_manager.cpp:619-681 | from every reachable room with a game under way, for every deal, trustees alone end the game within 168 turns with a winner |
| RoomTrustee.EveryDealIsPlayedOut | ddz_server/service/room/room_manager.cpp:309-348 | for all players and every deal, whatever is called first, the game starts and can be played out |
| RoomTrustee.EndedGameHasWinner | ddz_server/service/room/room_manager.cpp:488-496 | whoever's action ends a game has a seat, an empty hand and a stake to collect |
| RoomVersions.StepRaisesVersion | ddz_server/service/room/room_manager.cpp:127-135 | a step raises the version or leaves the room as it was, with one exception |
| RoomVersions.VersionMissesAChange | ddz_server/service/room/room_manager.cpp:309-312 | the version misses a visible change exactly when a first action is rejected |
| RoomVersions.RejectedStartKeepsVersion | ddz_server/service/room/room_manager.cpp:309-312 | that exception really changes what clients see |
| RoomVersions.EqualVersionsMeanEqualSnapshots | ddz_server/service/reconnect/reconnect_service.cpp:127-133 | once a game has started, equal versions mean equal rooms over the whole run, which is what reconnecting relies on |
| Storage.PlayerDao.UpsertCoin | ddz_server/service/storage/dao/player_dao.cpp:27-42 | stores exactly for positive ids |
| Storage.PlayerDao.GetCoin | ddz_server/service/storage/dao/player_dao.cpp:44-62 | the stored amount, if there is one |
| Storage.PlayerDao.Erase | ddz_server/service/storage/dao/player_dao.cpp:64-72 | removes exactly that player's amount |
| Storage.GameRecordDao.Insert | ddz_server/service/storage/dao/game_record_dao.cpp:76-102 | adds the record under an id not used before |
| Storage.GameRecordDao.DeleteById | ddz_server/service/storage/dao/game_record_dao.cpp:140-148 | removes exactly that record |
| Storage.CoinLogDao.Insert | ddz_server/service/storage/dao/coin_log_dao.cpp:41-68 | adds the log under an id not used before |
| Storage.CoinLogDao.DeleteById | ddz_server/service/storage/dao/coin_log_dao.cpp:111-119 | removes exactly that log |
| Storage.StorageService.Rollback | ddz_server/service/storage/storage_service.cpp:146-172 | takes the inserted rows out and replays the undo log backwards |
| Storage.StorageService.PersistSettlementTransaction | ddz_server/service/storage/storage_service.cpp:142-229 | all or nothing at every failpoint and failing change, repeated players included; it succeeds exactly for well-formed requests without a failpoint, and then the record and each log tell the game and the change |
| Storage.StorageService.StoreChanges | ddz_server/service/storage/storage_service.cpp:189-223 | stores as many changes as it can, and returns what it takes to undo them |
| Storage.StorageService.SetTxFailpoint | ddz_server/service/storage/storage_service.cpp:232-235 | where a transaction is made to fail |
| Storage.UndoneLast | ddz_server/service/storage/storage_service.cpp:146-172 | noting the old amount before a change is enough to undo it, whether or not it was made |
| Storage.CoinsHoldLastAmounts | ddz_server/service/storage/storage_service.cpp:190-224 | after a transaction every player holds the last amount noted for them, others what they had |
| Storage.LogsTellTheChanges | ddz_server/service/storage/storage_service.cpp:196-212 | the log of each change names its player and room, the change, the balances before and after it, and the time |
| Storage.LogsAreAdded | ddz_server/service/storage/storage_service.cpp:190-224 | a transaction adds exactly one log per change |
| Players.PlayerManager.UpsertPlayer | ddz_server/service/player/player_manager.cpp:5-21 | a new player starts with 1000 coins, a known one keeps theirs unless an amount is given |
| Players.PlayerManager.SetState | ddz_server/service/player/player_manager.cpp:50-61 | changes the state exactly if the transition is allowed |
| Players.TransitionsGoRound | ddz_server/service/player/player_manager.cpp:112-132 | a change of state is allowed exactly if it is none, goes offline, takes one step round the course of a game, goes back to the lobby before one, or returns from being offline to the lobby or a game |
| Players.PlayerManager.ForceState | ddz_server/service/player/player_manager.cpp:63-74 | sets the state whatever it was, and tops up a balance of nothing |
| Players.PlayerManager.AddCoin | ddz_server/service/player/player_manager.cpp:76-87 | pays exactly known players |
| Players.PlayerManager.BatchAddCoin | ddz_server/service/player/player_manager.cpp:89-110 | pays all or, if somebody is unknown, nobody; reports every balance right after its payment |
| Sessions.SessionManager.BindLogin | ddz_server/service/session/session_manager.cpp:5-25 | binds the connection, keeps the room, and names the connection it takes over from |
| Sessions.SessionManager.RebindForReconnect | ddz_server/service/session/session_manager.cpp:27-49 | moves a session to a new connection, and names the old one exactly if it is still in use |
| Sessions.SessionManager.MarkOfflineByConnection | ddz_server/service/session/session_manager.cpp:107-124 | forgets the connection and marks its session as offline |
| Sessions.SessionManager.SetRoomId | ddz_server/service/session/session_manager.cpp:126-134 | moves exactly one session |
| Matching.MatchManager.Join | ddz_server/service/match/match_manager.cpp:7-19 | queues a player exactly if they do not wait already and the mode exists |
| Matching.MatchManager.Cancel | ddz_server/service/match/match_manager.cpp:21-39 | removes the player's entries and index entry |
| Matching.MatchManager.TryPopMatchedPlayers | ddz_server/service/match/match_manager.cpp:46-63 | pops the longest waiting players exactly if there are enough for a room |
| Matching.MatchManager.PopTimeoutPlayers | ddz_server/service/match/match_manager.cpp:65-91 | erasing while iterating takes out exactly the expired entries of both queues, in order |
| Matching.JoinedAgrees | ddz_server/service/match/match_manager.cpp:7-19 | joining keeps queues and index in agreement |
| Matching.CancelledAgrees | ddz_server/service/match/match_manager.cpp:21-39 | so does cancelling, which forgets exactly that player |
| Matching.PoppedAgrees | ddz_server/service/match/match_manager.cpp:46-63 | so does a match, which forgets exactly the players matched |
| Matching.MatchedAreDistinct | ddz_server/service/match/match_manager.cpp:46-63 | the players of a match are different and as many as the mode says |
| Matching.JoinedStandsLast | ddz_server/service/match/match_manager.cpp:7-19 | who joins stands behind all others |
| Matching.MatchedStoodFirst | ddz_server/service/match/match_manager.cpp:46-63 | those matched stood in front of all others, who stay in their order |
| Matching.TimedOutAgrees | ddz_server/service/match/match_manager.cpp:65-91 | a timeout keeps queues and index in agreement |
| SettlementLedger.DeltasSumToZero | ddz_server/service/settlement/settlement_service.cpp:42-66 | what a settlement moves sums to nothing |
| SettlementLedger.CoinsAreConserved | ddz_server/service/settlement/settlement_service.cpp:42-104 | the coins of the room change by exactly 1000 for each player left with nothing; nobody else is touched |
| SettlementLedger.ReleasedIsSettled | ddz_server/service/settlement/settlement_service.cpp:78-104 | paying everybody and putting everybody into the lobby one by one leaves the players of the room paid and all others as they were |
| SettlementLedger.AmountsPaid | ddz_server/service/settlement/settlement_service.cpp:78-100 | the amount reported to each player is the old balance plus the change |
| CoinsInCirculation.CoinsAddUp | ddz_server/service/player/player_manager.cpp:63-74 | in every run nobody known is ever without coins, and all coins are a thousand for each player who ever arrived and for each time a settlement left somebody with nothing |
| SettlementLedger.StorageHoldsTheBalances | ddz_server/service/settlement/settlement_service.cpp:56-76 | storage holds each player's old balance plus their change, which is the balance in memory but for topped-up players |
| SettlementServices.SettlementService.TryBeginSettlement | ddz_server/service/settlement/settlement_service.cpp:115-118 | the right to settle a room is given only if nobody has it |
| SettlementServices.SettlementService.EndSettlement | ddz_server/service/settlement/settlement_service.cpp:120-123 | gives it back |
| SettlementServices.SettlementService.SettleByServerResult | ddz_server/service/settlement/settlement_service.cpp:12-113 | goes through exactly when it can; then everybody is paid and released, the room is gone, the record names the game, and each player's log tells the balance there was in memory, the change that is reported and what they make; otherwise nothing is settled |
| SettlementServices.SettlementIsBooked | ddz_server/service/settlement/settlement_service.cpp:42-76 | the record and the logs of a settlement agree with what is reported to the players |
| SettlementProtocol.AtMostOneSettlement | ddz_server/service/settlement/settlement_service.cpp:22-123 | under every interleaving at most one settlement of a room answers OK, pays and leaves a record, and these go together |
| SettlementProtocol.RightIsExclusive | ddz_server/service/settlement/settlement_service.cpp:115-123 | the right to settle a room is held by exactly one settlement under way, and never lost |
| SettlementProtocol.PaymentNeverFails | ddz_server/service/settlement/settlement_service.cpp:78-92 | after a stored transaction the payment cannot fail, so no record is left behind by an error |
| Membership.SeatsNeverDisagree | ddz_server/service/match/match_service.cpp:51-61 | after every sequence of requests rooms, sessions and index say the same about who sits where, and nobody sits in two rooms |
| Connections.OnlineIsReachedUnlessTaken | ddz_server/service/session/session_manager.cpp:5-49 | an online session is reached from its connection exactly if the last step that bound or freed the connection was that player's |
| Connections.TouchesDecide | ddz_server/service/session/session_manager.cpp:5-124 | in every run a connection leads to whoever bound it last, and to nobody once it has been freed |
| Connections.OnlineButOutOfReach | ddz_server/service/session/session_manager.cpp:5-25 | two logins over one connection, the first moving on and the connection closing leave the second online out of reach |
| WaitingPlayers.StrayIffReturned | ddz_server/service/login/login_service.cpp:41-46 | in every run, a waiting player is out of state Matching exactly if they have logged in or reconnected since the request that queued them |
| WaitingPlayers.ReturnedStayQueued | ddz_server/server/game_server.cpp:734-747 | in every run, a waiting player is still queued after a cancellation, or after the connection is lost, exactly if they have logged in or reconnected since |
| WaitingPlayers.CloseMissesStrays | ddz_server/server/game_server.cpp:734-747 | a lost connection leaves its player queued exactly if they waited out of state Matching |
| WaitingPlayers.CancelMissesStrays | ddz_server/service/match/match_service.cpp:70-90 | and so does a cancellation |
| WaitingPlayers.GoneButQueued | ddz_server/service/reconnect/reconnect_service.cpp:114-143 | a login, a match request, a reconnection and a lost connection leave a player offline and queued, and cancelling in between changes nothing |
| WaitingPlayers.LastToAskSeatsAll | ddz_server/service/match/match_service.cpp:45-61 | the last player whom a match needs takes everybody who waits for it into the room, with sessions otherwise as they were, online or not |
| WaitingTimes.WaitsSinceAsked | ddz_server/service/match/match_manager.cpp:7-63 | in every run, whoever waits does so for the mode and since the time of the request that queued them |
| WaitingTimes.TimeoutsTakeOutWhoWaitedLong | ddz_server/service/match/match_manager.cpp:65-91 | in every run, a timeout takes out a waiting player exactly if it is on and that request is so long ago |
| PlayerStates.StatesTellWhere | ddz_server/service/player/player_manager.cpp:50-74 | in every run, a known player is in state InRoom exactly if they sit in a room and are not offline, Matching only while waiting, Offline only with an offline session, and never Playing or Settlement |
| PlayerStates.MatchIsAnswered | ddz_server/service/match/match_service.cpp:7-68 | which answer a match request gets, by where the player is |
| PlayerStates.OtherModesAreRefused | ddz_server/service/match/match_service.cpp:7-38 | who is not logged in is told so, and every mode but that of three is refused |
| PlayerStates.CancelIsAnswered | ddz_server/service/match/match_service.cpp:70-90 | a cancellation succeeds exactly for who waits and is not astray; the answer for a failed one is never given |
| PlayerStates.SessionsTellPresence | ddz_server/service/session/session_manager.cpp:5-124 | in every run, a session is online exactly if its player logged in or reconnected last, and else tells when the connection was lost |
| PlayerStates.AwayIsSinceTheLoss | ddz_server/server/game_server.cpp:615-626 | so the timer counts absence from the loss of the connection, and for players in rooms only |
| InService.RunsAreSound | ddz_server/service/match/match_service.cpp:51-61 | in every run of requests that can arise, ids are positive and every live room has three players |
| InService.LiveRoomsCanBeSettled | ddz_server/service/settlement/settlement_service.cpp:31-66 | in every such run each live room seats three different known players, and is settled for one of them exactly if storage takes the transaction |
| Membership.QueuedSitNowhere | ddz_server/service/match/match_manager.cpp:7-91 | whoever waits has one entry, in the queue the index names, and no seat |
| Membership.SessionsNameLiveRooms | ddz_server/service/reconnect/reconnect_service.cpp:114-128 | a session never names a room that is gone or one without the player |
| Membership.NewRoomsAreFilledFresh | ddz_server/service/match/match_service.cpp:51-61 | a room that is opened is filled with different players who sat nowhere |
| Membership.NextKeeps | ddz_server/server/game_server.cpp:288-415 | every request keeps the agreement of queues, sessions, players and seats |
| GameServers.GameServer.constructor | ddz_server/server/game_server.cpp:288-289 | the server starts in the world that all runs start from, and running |
| GameServers.GameServer.LiveRoomsAreReachable | ddz_server/service/room/room_manager.cpp:164-186 | every live room of a running server is a reachable room, so all that is proved of those holds of it |
| GameServers.GameServer.HandleLogin | ddz_server/service/login/login_service.cpp:28-60 | a login with a verified ticket is the step `LoggedIn` of the world; it reports the balance, the room and its snapshot; a running server goes on running |
| GameServers.GameServer.Rejoin | ddz_server/server/game_server.cpp:288-322 | a player who returns gets the snapshot of the room as it was, and is then marked as being back |
| GameServers.GameServer.HandleMatch | ddz_server/service/match/match_service.cpp:7-68 | a match request is the step `MatchRequested`, with its answer and the id of a new room |
| GameServers.GameServer.HandleCancelMatch | ddz_server/service/match/match_service.cpp:70-90 | a cancellation is the step `CancelRequested`, with its answer |
| GameServers.GameServer.HandleMatchTimeout | ddz_server/service/match/match_service.cpp:92-103 | a timeout is the step `MatchTimedOut` |
| GameServers.GameServer.HandleReconnect | ddz_server/service/reconnect/reconnect_service.cpp:114-143 | a reconnection is the step `Reconnected`; it is OK exactly if the client's version is the room's, and names the connection to be closed |
| GameServers.GameServer.OnConnectionClosed | ddz_server/server/game_server.cpp:734-747 | a lost connection is the step `ConnectionClosed` |
| GameServers.GameServer.SettleRoom | ddz_server/service/settlement/settlement_service.cpp:12-113 | a settlement is the step `SettlementDone`, with its code; the room is gone, or marked as settling if it got so far |
| GameServers.GameServer.HandlePlayerAction | ddz_server/server/game_server.cpp:417-565 | an action is the step of the room with its answer; one that ends the game settles the room at once for the winner, and answers with the code of that; in a running server the settlement succeeds exactly if storage is not made to fail |
| GameServers.GameServer.TimerTick | ddz_server/server/game_server.cpp:615-665 | what the timer does about one session is the step `Ticked` of world and rooms, with the attempts to settle that it makes and what comes of them |
| GameServers.GameServer.TimerRound | ddz_server/server/game_server.cpp:603-670 | a round over all sessions is as many such steps in a row; a running server goes on running |
| TimerSteps.AttemptsSucceed | ddz_server/server/game_server.cpp:625-665 | in a running server the timer's settlements succeed exactly if storage is not made to fail, and absence is attempted exactly for live rooms the trustee has not had settled |
| TimerSteps.TickIsSeen | ddz_server/server/game_server.cpp:609-650 | after the timer has seen to a session, a room that stays shows whether its player is there; after half a minute the trustee has taken over, and has acted if it was the player's turn |
| TimerSteps.TickSettles | ddz_server/server/game_server.cpp:615-665 | seeing to a session takes away exactly its room, and exactly if the trustee wins or the player has been away for two minutes, and storage does not fail |
| TimerSteps.RoundSettles | ddz_server/server/game_server.cpp:603-670 | after a round the rooms that somebody has been away from for two minutes are gone, and only such as somebody has been away from for half a minute; none if storage fails |
| TimerSteps.NobodyIsAwayForLong | ddz_server/server/game_server.cpp:603-670 | after a round over all sessions no live room seats a player who had been away for two minutes |
| TimerSteps.FailureStopsTheGame | ddz_server/service/settlement/settlement_service.cpp:27-72 | the timer stops a game under way in a room that stays exactly if a settlement was due and storage failed |
| PacketCodec.ReadsWhatWasWritten | ddz_server/network/packet_codec.cpp:8-42 | reading big-endian bytes undoes writing them, at every width |
| PacketCodec.WritesWhatWasRead | ddz_server/network/packet_codec.cpp:8-42 | and the other way round |
| PacketCodec.WriteU32BE | ddz_server/network/packet_codec.cpp:8-13 | writes the four bytes of the number and leaves the rest of the buffer |
| PacketCodec.WriteU64BE | ddz_server/network/packet_codec.cpp:15-24 | the same for eight bytes |
| PacketCodec.Encode | ddz_server/network/packet_codec.cpp:46-68 | writes the packet's bytes exactly if it is not longer than allowed |
| PacketCodec.CopyFitsUnlessWrapped | ddz_server/network/packet_codec.cpp:46-68 | room is made for less than the packet exactly if its length wraps round in 32 bits to an allowed one |
| PacketCodec.LongBodyDoesNotFit | ddz_server/network/packet_codec.cpp:46-61 | a body of 2^32 bytes is such a case |
| PacketCodec.Decode | ddz_server/network/packet_codec.cpp:70-100 | cuts off all complete packets and keeps the rest, or gives up at an impossible length |
| PacketCodec.TcpConnection.ReadAvailablePackets | ddz_server/network/tcp_connection.cpp:167-185 | appending and decoding is parsing what was kept and what arrived; on a malformed stream the packets before the bad header are handed out and all bytes are kept |
| PacketCodec.WhereThingsAre | ddz_server/network/packet_codec.cpp:54-66 | a packet is its length in four bytes, message id and sequence number in four each, the player id in two's complement in eight, and its body |
| PacketCodec.FirstByteIsHighest | ddz_server/network/packet_codec.cpp:8-42 | of the bytes of a number the first counts highest |
| PacketCodec.MalformedIsABadHeader | ddz_server/network/packet_codec.cpp:74-82 | a stream is malformed exactly if behind some packets that fit there is a header with a length below its own or above the allowed one |
| PacketCodec.ChunksDoNotMatter | ddz_server/network/tcp_connection.cpp:167-185 | every split of a stream gives the packets and the leftover of the whole, and is malformed exactly if it is; the leftover is shorter than a header or than the longest packet |
| PacketCodec.ParseExtends | ddz_server/network/packet_codec.cpp:70-100 | bytes that arrive later change nothing about packets already complete |
| PacketCodec.PacketsAreReadBack | ddz_server/network/packet_codec.cpp:46-100 | decoding concatenated encodings gives the packets back, with nothing left |
| PacketCodec.StreamIsConserved | ddz_server/network/packet_codec.cpp:46-100 | the packets of a stream written again, and the leftover, are the stream |
| JsonParsing.JsonObjectParser.Parse | ddz_server/gateway/json_codec.cpp:20-67 | the parser that moves a position computes the function that the grammar results are proved of |
| JsonParsing.JsonObjectParser.ParseString | ddz_server/gateway/json_codec.cpp:97-134 | the same for strings and their escapes |
| JsonParsing.JsonObjectParser.ParseRawToken | ddz_server/gateway/json_codec.cpp:136-151 | the same for other tokens |
| JsonParsing.JsonObjectParser.SkipWs | ddz_server/gateway/json_codec.cpp:91-95 | stops at the first character that is no white space |
| JsonParsing.LettersStandFor | ddz_server/gateway/json_codec.cpp:113-127 | which letters may follow a backslash, and the character codes they stand for |
| JsonParsing.WhiteSpaceIs | ddz_server/gateway/json_codec.cpp:91-151 | which characters are white space, and which end a token |
| JsonGrammar.ParserIsExact | ddz_server/gateway/json_codec.cpp:20-151 | the parser accepts exactly the texts of a grammar, in every layout and with every escape, and reads each as what it means |
| JsonGrammar.DocumentIsRead | ddz_server/gateway/json_codec.cpp:20-151 | every text of the grammar is read as its meaning; of repeated keys the last one stands |
| JsonGrammar.DocumentWasWritten | ddz_server/gateway/json_codec.cpp:20-151 | every text that is read is a text of the grammar |
| JsonCodec.EscapeJson | ddz_server/gateway/json_codec.cpp:186-202 | the loop escapes every character in place |
| JsonCodec.EscapeIsUndone | ddz_server/gateway/json_codec.cpp:186-202 | an escaped text in quotes is read as the text, whatever it holds and whatever follows |
| StrictNumbers.PrintedI64IsRead | ddz_server/gateway/json_codec.cpp:158-170 | a printed number is read back exactly if it fits into 64 bits |
| StrictNumbers.PrintedU32IsRead | ddz_server/gateway/json_codec.cpp:172-184 | every 32-bit number is read back; of the others exactly those less than 2^32 above -2^64 are accepted |
| StrictNumbers.DigitsAreUsual | ddz_server/gateway/json_codec.cpp:262-281 | numbers are printed in decimal, without leading zeros |
| JsonCodec.EnvelopeIsPrintedAs | ddz_server/gateway/json_codec.cpp:262-281 | the text of an envelope, written out with its seven keys |
| JsonCodec.EnvelopeIsReadFrom | ddz_server/gateway/json_codec.cpp:206-260 | which field an envelope's part is read from, by its key |
| JsonCodec.BuildEnvelopeJson | ddz_server/gateway/json_codec.cpp:262-281 | prints the envelope's fields in order, leaving out empty trace fields |
| JsonCodec.ParseEnvelopeJson | ddz_server/gateway/json_codec.cpp:206-260 | reads an envelope exactly if the text is an object with its fields |
| JsonCodec.EnvelopeIsReadBack | ddz_server/gateway/json_codec.cpp:206-281 | every envelope is read back from what it is printed as |
| JsonCodec.EnvelopeReadingIsExact | ddz_server/gateway/json_codec.cpp:206-260 | a text is read as an envelope exactly if it is a text of the grammar whose fields are that envelope |
| RateLimit.RateLimiter.CheckAndConsumeHttpQps | ddz_server/gateway/gateway_server.cpp:249-265 | accepts exactly if fewer than the maximum of the address's requests were accepted in the last second |
| RateLimit.WindowIsRecentHistory | ddz_server/gateway/gateway_server.cpp:249-265 | whatever the order of the times, the window of an address is the end of its accepted times, and what is missing has expired by the time of the latest request |
| RateLimit.AcceptedByTheLastSecond | ddz_server/gateway/gateway_server.cpp:257-265 | in every run in order, a request is accepted exactly by the count of the last second |
| RateLimit.WindowsStayShort | ddz_server/gateway/gateway_server.cpp:257-264 | whatever the order of the times, no window holds more than the maximum |
| RateLimit.RateIsBounded | ddz_server/gateway/gateway_server.cpp:249-265 | no second of any run in order holds more accepted requests of an address than the maximum |
| RateOrder.OrderIsNeeded | ddz_server/gateway/gateway_server.cpp:249-265 | a request checked after another one keeps the bound, whatever came before them in order, exactly if it has not been overtaken or the maximum is at most one |
| RateOrder.OvertakenIsTooMany | ddz_server/gateway/gateway_server.cpp:249-265 | for every maximum from two on and every lateness, a run in order up to the last request whose second holds too many |
| RateOrder.AcceptedAreApart | ddz_server/gateway/gateway_server.cpp:249-265 | with a maximum of one, accepted times are a second apart in any order |
| RateOrder.DecisionNeedsTheOrder | ddz_server/gateway/gateway_server.cpp:257-265 | the last second decides about the next request, whatever came before it in order, exactly if it has not been overtaken or nothing is allowed |
| RateOrder.OvertakenIsRefused | ddz_server/gateway/gateway_server.cpp:257-265 | overtaken by as many requests as are allowed, a request is refused although its last second is empty |

## Left out

- Sockets, threads, HTTP, WebSockets, bans of addresses, notifications, logging, metrics and configuration: they carry out or report what is decided elsewhere.
- MySQL and Redis: storage is the in-memory tables, and no online marks are kept outside.
- Tokens and tickets: a login or reconnection starts with the player id that was verified.
- Nicknames, message texts, key-value request bodies and how trustee lists are rendered: no decision depends on them.
- Parsing of requests for actions: `HandlePlayerAction` starts with the action that was asked for.
- The shuffle: every room deals from an arbitrary deck of the 54 cards that depends on its id.
- Rooms of four: requests cannot ask for them and dealing does nothing in them; the queues for them are modelled.
- Overflow of 64-bit coins, ids, versions and times: they are mathematical integers.
- The remaining seconds of a snapshot, which are always 0, and lookups that only return a copy of what is stored.
- The shorter form of `ApplyPlayerAction` that fills in its request, and `GetByRoomId` of the log table.
- The client in the browser.
- Two threads inside one manager call: each call holds the manager's lock and is one step. In `game_server.dfy` a whole request is one step; `settlement_protocol.dfy` interleaves the calls of settlements.
- The flat room record is grouped into game, presence and versions; the copy-and-store of a room stands for the update in place.
- RoomManagement.RoomManager.ApplyTrusteeAction: choosing and applying the action hold the lock one after the other; they are one step here.
- RoomManagement.RoomManager.constructor: requires that every deck it is given is one of the 54 cards, which is what shuffling 0..53 makes.
- GameServers.GameServer.HandleMatch: the branch for a forbidden change from the lobby to matching is not there, because that change is always allowed.
- GameServers.GameServer.TimerRound: is given the copies of the sessions in any order; that the match timeouts come first in each round is `HandleMatchTimeout` before it.
- GameServers.GameServer.OnConnectionClosed: the session and the room note the same time; the source reads the clock for each of them.
- RoomManagement.MakeSnapshot: keeps the trustees as a list of ids, which the source renders as text.
- Players.PlayerManager.UpsertPlayer: does not model nicknames, on which no decision depends.
- Players.PlayerManager.ForceState: does not model nicknames either.
- SettlementServices.SettlementService.SettleByServerResult: the branch for a payment that fails after the transaction is not there, because `SettlementProtocol.PaymentNeverFails`.
- PacketCodec.Encode: requires that the body fits into the room made for it; `CopyFitsUnlessWrapped` says exactly when, and what happens otherwise is undefined.
- PacketCodec.ChunksDoNotMatter: does not say what becomes of packets handed out together with a failure, after which the connection is closed.
- RateLimit.RateIsBounded: requires that the requests of the address are checked in the order of their times; `RateOrder.OrderIsNeeded` shows that it must.
- RateLimit.AcceptedByTheLastSecond: requires the same order, as `RateOrder.DecisionNeedsTheOrder` shows.
- RoomRuns.ReachableIsValid: for rooms of three different players with positive ids, as tokens are only issued for those.
