# Poker game service: a verified model

The game service runs No-Limit Hold'em hands for a room: it posts blinds and antes, validates
and applies bets under optimistic concurrency, advances streets, cuts side pots, settles,
keeps an append-only ledger of every chip movement beside the live rows, lets a dealer correct
mistakes, and rotates the buttons into the next hand. This project models that behaviour in
Dafny and proves what the service relies on, over every run.

`dafny verify dfyconfig.toml` checks everything.

## How it is organised

- **One hand.** `HandTypes` and `Rows` hold the data: values (`Hand` = round + players in seat
  order) and the mutable row objects that the commands assign. `Validator`, `TurnEngine`,
  `ActionPipeline`, `BlindPosting` and `StreetProgression` model the engine; their methods are
  the source's loops and in-place updates, each proved equal to a function of the old state.
  `HandMachine` joins them into a step relation with its invariant, `HandTheorems` states what
  holds of all runs, and `TableMenu` compares the advertised actions with the validator.
  `Openings`, `Verdicts` and `Streets` tell, without the engine's own functions, how a hand
  starts, which request is accepted with what effect, and what an advance does.
- **Side pots and settlement.** `SidePots`, `SidePotTheory`, `SidePotMerging`,
  `SidePotTheorems`, `SidePotSlices` (the pots told from the commitments), `Settlement`,
  `SettlementTheorems`, `SettlementVerdicts` (exact acceptance, errors and effect).
- **The ledger as a second copy of the truth.** `Ledger` and `HandHistory` rebuild, replay and
  summarise; `LedgerFlags` and `TimelineLines` say what the results mean for the entries.
  `Book` pairs the live hand with its ledger and every command on both; `Commands` is the same
  commands in place, on stored rows; `EventSourcing` and `LedgerTheorems` prove that the two
  copies agree, `BookOfPlay` that a hand as played is what the commands store,
  `ReversalTheorems` when a reversal parts the copies, `Reopening` what further settlements
  pay, `Undo` what corrections give back, `Consistency` what the consistency check then
  reports, and `Timelines` what real timelines look like.
- **Concurrency.** `CasProtocol`: any number of clients that look up their key, read the
  round, read the players, compute, and commit only on an unchanged version. `Replies` says
  what each submission and each commit is answered, `Retries` what a repeated request is, and
  `ConcurrentPlay` carries the theorems on runs of a hand over to interleavings.
- **Hand to hand.** `Positions`, `GameLoop`, `HandCount`, `LevelHistory`.
- **An example.** `WorkedHand`: one ordinary deal on which the surprises below happen.

## What the code does that one might not expect

- The engine only asks players who owe chips (`ClosesIff`). So the first CHECK on a street
  without a bet closes the action (`FirstCheckCloses`), and the big blind gets no option when
  the others just call (`BigBlindHasNoOption`).
- A hand can open on a player who went all-in posting, exactly when that player's stack is at
  most ante plus blind (`OpenerAbleIff`); nobody can then act (`StuckExactlyWhenPostedOut`),
  and exactly then the menu is wrong (`MenuIsWrongIff`).
- Repeating a pot index can overdraw a pot, exactly when somebody who put chips in stopped
  short of a live commitment (`OverdrawnExactlyWhenShort`, `BlindsCanBeOverdrawn`).
- Reversing an entry keeps ledger and live state together exactly when its amount can be taken
  back in full from its player's commitment (`ReversalKeepsAgreementIff`): never for the
  completion of a hand with a pot (`ReversingCompletionDiverges`), and for an award only when
  it is at most the winner's own commitment (`ReversingAwardAgreesIff`). On a called hand both
  go wrong (`ReversedCompletionDiverges`, `ReversedAwardDiverges`).
- Reopening takes no payout back: whatever could settle the hand before settles it again and
  pays on top (`ReopenedAcceptsTheSame`, `ReopenedHandPaysTwice`), any number of times
  (`EveryReopeningPays`); 300 dealt chips become 330 (`ReopenedHandCreatesChips`).
- Reversing a bet gives back chips only: the bet level, the minimum raise, a fold and an
  all-in stand (`BetThenReversal`). A reopened hand is at showdown with nobody on turn, so
  everybody able may act in any order (`ReopenedHandIsOpenToAll`).
- A retried request conflicts unless it was recorded exactly as sent (`RetryReplaysIff`); a
  CALL sent with amount 0 always does (`CallZeroConflicts`, `RetriedCallConflicts`).
- The consistency check reports a seated player as long as no ledger row names that player
  (`CheckIsSilentIff`), which is every hand of three or more without an ante before anyone has
  acted (`NoAnteHandIsReported`).
- No command writes a STREET_DEALT entry (`CommandsDealNoStreet`), so every real timeline is
  one street (`TimelineOfRun`); the timeline itself is proved for ledgers with any number of
  them.

## Model

| member | source | states |
|---|---|---|
| `TurnEngine.FindStart` | services/game-service/app/domain/engine/turn_engine.py:38-47 | The start search (first ordered seat above the given one, wrapping to 0) splits the ordered seats into exactly the clockwise visiting order. |
| `TurnEngine.ScanFrom` | services/game-service/app/domain/engine/turn_engine.py:49-68 | The modular index loop with its two early returns computes the scan over the rotated list. |
| `TurnEngine.RunNextToAct` | services/game-service/app/domain/engine/turn_engine.py:27-68 | The whole function, fewer-than-two guard included, refines `NextToAct`. |
| `TurnEngine.VisitingOrder` | services/game-service/app/domain/engine/turn_engine.py:34-47 | Sorting the able players and starting after a seat visits exactly the able players, each pair in clockwise order seen from that seat. |
| `TurnEngine.ScanMeaning` | services/game-service/app/domain/engine/turn_engine.py:49-68 | On any order: the first player owing chips is returned unless the aggressor seat comes no later; otherwise the action closes. |
| `TurnEngine.EarlyStopIsExhaustive` | services/game-service/app/domain/engine/turn_engine.py:27-68 | If nobody able owes from the aggressor on, the early-stopping answer is that of a full clockwise scan: closed only with fewer than two able or nobody owing, else the clockwise-first able player who owes. |
| `TurnEngine.ArcStaysSettled` | services/game-service/app/domain/engine/turn_engine.py:49-68 | After the answer, nobody owes on the arc from the aggressor to the chosen player: the condition above is re-established. |
| `ActionPipeline.RunTransition` | services/game-service/app/domain/engine/action_pipeline.py:47-143 | The list-building transition method computes the planned player and round mutations, or the validator error. |
| `ActionPipeline.WriteTransition` | services/game-service/app/domain/engine/action_pipeline.py:170-205 | Writing the mutations into the stored row objects gives the applied transition and touches only the named player row and the round. |
| `ActionPipeline.RunApplyAction` | services/game-service/app/domain/engine/action_pipeline.py:207-238 | Applying an action in place equals the value model; a refused action (stale version or validator error) leaves every row unchanged. |
| `BlindPosting.PostingIsCapped` | services/game-service/app/domain/engine/blind_posting.py:37-65 | A player posts min(stack, ante + own blind), the rest stays, and is marked all-in exactly when nothing is left. |
| `BlindPosting.PostBlindsAndAntes` | services/game-service/app/domain/engine/blind_posting.py:27-74 | The posting loop: every player posted in order, pot total = sum of postings, highest bet = largest posting. |
| `HandMachine.StartIsOk` | services/game-service/app/application/commands/game_command_service.py:139-212 | Every well-formed deal starts in a state that meets the hand invariant, pre-flop, without an aggressor. |
| `Openings.FirstStateOfAHand` | services/game-service/app/application/commands/game_command_service.py:139-212 | Every seat is dealt in with ante and own blind posted as far as its chips go; pot = sum, highest bet = largest posting, minimum raise = big blind, no aggressor, version 1; the opener is reached before every other dealt seat from the big blind seat, or is the lowest seat when that seat is not dealt in. |
| `Openings.OpeningRows` | services/game-service/app/application/commands/game_command_service.py:217-236 | The ledger opens with one row for each seat that posted and nothing else: a blind row for the two blind seats, an ante row otherwise, with the amount posted, nobody twice. |
| `StreetProgression.FirstActorIsClockwise` | services/game-service/app/domain/engine/street_progression.py:41-50 | The first to act on a new street is the player reached first clockwise from the dealer seat. |
| `StreetProgression.RunAdvanceStreet` | services/game-service/app/application/commands/game_command_service.py:433-489 | The in-place street advance (error checks, three outcomes, row-clearing loop, version bump) equals the value model; errors change nothing. |
| `Streets.AdvanceOutcome` | services/game-service/app/application/commands/game_command_service.py:433-489 | For every hand, told from its players: refused iff not active or at showdown; at most one in the hand: street kept, action closed; on the river or with at most one able: showdown, closed; otherwise the next of flop, turn, river, street bets 0, highest bet 0, minimum raise = big blind, no aggressor, and the able player reached before every other able one from the dealer seat to act. |
| `Streets.EveryStreetOnce` | services/game-service/app/domain/engine/street_progression.py:8-39 | With two players able to act, four advances from before the flop are flop, turn, river and showdown, each once. |
| `Streets.LastPlayerIsNamed` | services/game-service/app/domain/engine/street_progression.py:59-68 | When one player is left in the hand, the advance names that player as the winner. |
| `HandMachine.AdvanceKeepsInv` | services/game-service/app/application/commands/game_command_service.py:466-489 | A street advance keeps the hand invariant, every stack and who is able to act. |
| `HandMachine.JudgeFacts` | services/game-service/app/domain/engine/validator.py:86-148 | An accepted action moves at most the stack; all-in exactly when it moves the whole stack; CALL reaches the highest bet, BET/RAISE reach at least highest + minimum raise, CHECK only when level. |
| `Verdicts.AcceptedExactlyWhenPermitted` | services/game-service/app/domain/engine/validator.py:86-148 | The exact acceptance condition of each action, a bet or raise of the whole stack below the minimum included; the chips each moves, and that moving the whole stack is recorded as all-in. |
| `Verdicts.RefusalSays` | services/game-service/app/domain/engine/validator.py:86-148 | Which error each refused action gets, for bets and raises in both directions: wrong kind, no chips, more than the stack, below the minimum. |
| `Verdicts.WhoIsRefused` | services/game-service/app/domain/engine/validator.py:64-84 | Before any action is judged: the first reason why this player may not act now. |
| `Verdicts.RequestAcceptedIff` | services/game-service/app/domain/engine/action_pipeline.py:207-238 | A request is accepted iff it names the stored version or none, the round is open and active, its player is able and on turn, and the action is permitted; a wrong version is always the first error. |
| `HandMachine.BettorAfter` | services/game-service/app/domain/engine/action_pipeline.py:84-134 | The bettor's row and the new bet level after an accepted action: chips conserved, flags right, the bettor no longer owes, minimum raise never falls. |
| `Verdicts.BetOutcome` | services/game-service/app/domain/engine/action_pipeline.py:84-205 | In every reachable state an accepted bet moves its chips from stack to pot, lifts the highest bet to the bettor's street total, sets the minimum raise to the size of the lift if larger, makes a wagering bettor the aggressor, marks folds and all-ins, and changes no other player and no other field but the turn and the version. |
| `Streets.MinimumRaiseIsLargestLift` | services/game-service/app/domain/engine/action_pipeline.py:86-91 | Over any run of bets from the opening of a street in any run of a hand, the minimum raise is the larger of the big blind and the largest single lift of the highest bet on that street. |
| `HandMachine.BetKeepsInv` | services/game-service/app/domain/engine/action_pipeline.py:47-205 | An accepted bet from any invariant state keeps the invariant and leaves action closed with no actor, or an actor who is able and owes. |
| `HandMachine.ReachableStatesAreSound` | services/game-service/app/domain/engine/action_pipeline.py:170-205 | In every state reachable from the start of a hand: pot = sum of commitments, stack + commitment constant per player, stacks >= 0, highest bet = max street commitment, all-in iff stack 0, active iff not folded, closed iff no actor, nobody owing between aggressor and actor. |
| `HandTheorems.EarlyStopNeverMatters` | services/game-service/app/domain/engine/turn_engine.py:27-68 | In every reachable state an accepted bet gets the exhaustive scan's answer: it closes the action only when fewer than two can act or every able player has matched, otherwise passes it to the clockwise-first able player who owes. |
| `HandTheorems.ClosesIff` | services/game-service/app/domain/engine/turn_engine.py:35-68 | In every reachable state an accepted bet closes the action iff fewer than two can act or every able player has matched, whether or not they have acted. |
| `WorkedHand.BigBlindHasNoOption` | services/game-service/app/domain/engine/turn_engine.py:49-68 | A three-handed deal in which the two others call: the action closes pre-flop with the big blind able to act and never asked. |
| `HandTheorems.BettingTerminates` | services/game-service/app/domain/engine/validator.py:91-146 | Any run accepts at most (stacks after posting) + (able players after posting) + 4 bets. |
| `HandTheorems.CheckOnlyOpens` | services/game-service/app/domain/engine/turn_engine.py:61-66 | A bet accepted right after another accepted bet is never a CHECK. |
| `HandTheorems.FirstCheckCloses` | services/game-service/app/domain/engine/turn_engine.py:49-68 | In every reachable state without a bet on the street, an accepted CHECK closes the action at once. |
| `HandTheorems.RaiseArithmetic` | services/game-service/app/domain/engine/validator.py:107-141 | From any reachable state, over any run of bets: minimum raise never falls and stays >= big blind, highest bet never falls, k full bets/raises lift it by >= k big blinds, and k big blinds fit in some starting stack. |
| `TableMenu.BuildMenu` | services/game-service/app/application/queries/game_query_service.py:258-298 | The conditional appends build exactly the specified list of actions with amount ranges. |
| `TableMenu.MenuMatchesValidator` | services/game-service/app/application/queries/game_query_service.py:261-298 | In every reachable state with a designated actor: every accepted request has an advertised action and amount with the same validated result, and every advertised amount is accepted iff that actor is able to act. |
| `TableMenu.MenuIsExact` | services/game-service/app/application/queries/game_query_service.py:258-298 | In every reachable state the menu is empty iff the action is closed; otherwise each applicable action is offered once, a call and an all-in at the chips they move, a bet and a raise at exactly the permitted amounts not below the minimum. |
| `TableMenu.UnableOnlyAtStart` | services/game-service/app/domain/engine/street_progression.py:53-91 | In a reachable state the designated actor can act, unless the state is still the first one. |
| `TableMenu.OpenerAbleIff` | services/game-service/app/application/commands/game_command_service.py:141-149 | The opener cannot act iff their stack is at most the ante plus their blind. |
| `TableMenu.StuckExactlyWhenPostedOut` | services/game-service/app/application/commands/game_command_service.py:207-210 | At the start every request of everyone is refused iff the opener posted the whole stack. |
| `TableMenu.MenuIsWrongIff` | services/game-service/app/application/queries/game_query_service.py:261-298 | In a reachable state with an actor the menu advertises something that is refused iff no step was accepted yet and the opener posted the whole stack. |
| `TableMenu.OpenerMayBeAllIn` | services/game-service/app/application/commands/game_command_service.py:141-149 | Counterexample: a deal whose opener is all-in from the ante; the menu offers FOLD and every request of anyone is refused. |
| `SidePots.RunUniqueOrdered` | services/game-service/app/domain/engine/side_pots.py:115-122 | The seen-set loop computes the first-occurrence order. |
| `SidePots.RunTiers` | services/game-service/app/domain/engine/side_pots.py:29-53 | The level loop, with its two inner collections, builds the tiers. |
| `SidePots.RunMergeDeadPots` | services/game-service/app/domain/engine/side_pots.py:67-113 | The carry loop and the final absorption refine the merge specification. |
| `SidePots.RunCalculateSidePots` | services/game-service/app/domain/engine/side_pots.py:20-65 | The whole computation refines `CalculateSidePots` on every input. |
| `SidePotMerging.UniqueMeaning` | services/game-service/app/domain/engine/side_pots.py:115-122 | No repeats and exactly the members of the input. |
| `SidePotMerging.MergeConserves` | services/game-service/app/domain/engine/side_pots.py:67-113 | Merging positive tiers keeps their total and leaves only positive pots. |
| `SidePotMerging.DeadTiersAreASuffix` | services/game-service/app/domain/engine/side_pots.py:29-53 | With nested eligible sets, a tier has no eligible winner exactly from the first such tier on. |
| `SidePotMerging.DeadChipsJoinTheLastLivePot` | services/game-service/app/domain/engine/side_pots.py:67-113 | On nested tiers the merge leaves every live tier but the last unchanged, adds all dead chips to the last live pot and adds no contributor; with no live tier everything is one unwinnable pot. |
| `SidePotTheorems.TiersAreNested` | services/game-service/app/domain/engine/side_pots.py:29-53 | The tiers of a sorted list of distinct players: positive amounts, distinct contributors, contributors and eligible sets shrinking from tier to tier. |
| `SidePotTheorems.PotsHoldAllChips` | services/game-service/app/domain/engine/side_pots.py:20-65 | For all non-negative commitments every pot is positive and the pots sum to all committed chips. |
| `SidePotTheorems.PotStructure` | services/game-service/app/domain/engine/side_pots.py:20-113 | For all distinct players the returned pots are exactly the nested tiers with the dead suffix folded into the last live one. |
| `SidePotSlices.PotsAreSlices` | services/game-service/app/domain/engine/side_pots.py:20-113 | Told from the commitments alone: chips are cut at 0 and exactly where somebody stopped short of a live commitment; there is one pot per cut, in order, holding the chips between that cut and the next (the last one the rest), with exactly the players committed beyond the cut as contributors and the live ones among them eligible. |
| `SidePotTheorems.EligibleChips` | services/game-service/app/domain/engine/side_pots.py:29-53 | The pots a player may win total sum of min(c, c_j), the whole pot for the largest live commitment, and 0 for a player not live or without chips in. |
| `SidePotTheorems.SeveralPotsIff` | services/game-service/app/domain/engine/side_pots.py:43-65 | There are several pots iff somebody who put chips in stopped short of a live commitment. |
| `SidePotTheorems.OnePotFor` | services/game-service/app/domain/engine/side_pots.py:43-65 | There is exactly one pot and w may win it iff w is live with chips in and nobody who contributed is short of the largest live commitment. |
| `Settlement.RunValidatePayouts` | services/game-service/app/domain/engine/payout_validation.py:8-51 | The side pots are computed by the loops above, then each payout and each of its winners is checked in turn; the answer is the first failing check, or none when there are no pots. |
| `Settlement.RunRefusal` | services/game-service/app/application/commands/game_command_service.py:268-303 | The checks of a settlement in their order, with both checking loops, give the specified refusal. |
| `SettlementVerdicts.SettlementAcceptedIff` | services/game-service/app/application/commands/game_command_service.py:268-303 | For every balanced hand and well-formed request: accepted iff the round is active, all winners together take at most the pot, each payout's winners sum to its amount, each names an existing pot, draws at most what it holds and pays only players eligible for it. |
| `SettlementVerdicts.RefusalNamesTheFirstFailure` | services/game-service/app/application/commands/game_command_service.py:268-303 | Which error a refused request gets, for every hand and request: inactive, empty, total above the pot, amounts that do not add up, then the first payout that cannot be paid and why. |
| `Settlement.PayoutsRaise` | services/game-service/app/application/commands/game_command_service.py:329-344 | Settlement raises each stack by exactly what the request awards to that player and changes nothing else. |
| `SettlementVerdicts.SettlementOutcome` | services/game-service/app/application/commands/game_command_service.py:329-371 | An accepted settlement completes, shows down and stamps the round, one version on, keeps everything else and raises each stack by the sum of the shares that name its player. |
| `Commands.LiveHand.ResolveHand` | services/game-service/app/application/commands/game_command_service.py:260-371 | In place: the checks, the nested loops that write a payout row, a credit and a ledger row per winner, the round fields with the completion time and the completion row equal the value model; a refusal leaves rows, ledger and payout rows as they were. |
| `Commands.PayoutRowsTotal` | services/game-service/app/application/commands/game_command_service.py:327-340 | The payout rows of a settlement carry exactly the chips it pays. |
| `Commands.PayoutRowsByPot` | services/game-service/app/application/commands/game_command_service.py:327-340 | Pot by pot and player by player the payout rows carry what the request awards. |
| `SettlementTheorems.TableStakes` | services/game-service/app/domain/engine/payout_validation.py:30-50 | In an accepted settlement naming each pot at most once, a player who committed c receives at most sum of min(c, c_j), or the whole pot for the largest live commitment, or nothing. |
| `SettlementTheorems.WinningsAreCapped` | services/game-service/app/domain/engine/payout_validation.py:30-50 | Under the same condition nobody receives more than the pots they are eligible for hold. |
| `SettlementTheorems.EachPotPaidWithin` | services/game-service/app/domain/engine/payout_validation.py:30-43 | Under the same condition each pot pays out at most its amount. |
| `SettlementTheorems.PaidInFull` | services/game-service/app/application/commands/game_command_service.py:274-303 | Under the same condition the whole pot is paid out iff every pot is paid in full. |
| `SettlementTheorems.OnlyEligiblePlayersArePaid` | services/game-service/app/domain/engine/payout_validation.py:30-50 | In any accepted settlement each payout names an existing pot and each of its winners is eligible for that pot and is in the hand. |
| `SettlementTheorems.OverdrawnExactlyWithSeveralPots` | services/game-service/app/domain/engine/payout_validation.py:30-43 | Because repeated indices are not added up: accepted settlements can never overdraw a pot iff there is at most one pot. |
| `WorkedHand.BlindsCanBeOverdrawn` | services/game-service/app/domain/engine/payout_validation.py:30-43 | A dealt hand, balanced and active, with two pots, one of which an accepted settlement overdraws. |
| `SettlementTheorems.OverdrawnExactlyWhenShort` | services/game-service/app/domain/engine/payout_validation.py:30-43 | In terms of the commitments: a pot can be overdrawn iff somebody who put chips in stopped short of a live commitment. |
| `SettlementTheorems.DeclareWinnerAccepted` | services/game-service/app/application/commands/game_command_service.py:517-539 | Accepted iff the round is active, nobody with chips in is short of the largest live commitment, and the named winner is live with chips in. |
| `SettlementVerdicts.DeclareWinnerOutcome` | services/game-service/app/application/commands/game_command_service.py:517-539 | Declaring a winner pays that player the whole pot and nobody else; the request is malformed iff the pot holds no chip. |
| `Ledger.HandState.Apply` | services/game-service/app/domain/ledger/hand_ledger.py:52-113 | The mutating entry application equals the value model on all ten entry types. |
| `Ledger.RebuildHandState` | services/game-service/app/domain/ledger/hand_ledger.py:116-119 | The rebuild loop yields the fold of all entries. |
| `Ledger.RebuildIsSums` | services/game-service/app/domain/ledger/hand_ledger.py:52-119 | For every ledger, pot and each player's committed, won and adjusted counters are the sums of what the entries contribute. |
| `LedgerFlags.CompletedAndReopened` | services/game-service/app/domain/ledger/hand_ledger.py:52-101 | Every entry is counted; completed iff some completion row has no reopening row after it, reopened iff there is a reopening row. |
| `LedgerFlags.ReversedIdsAre` | services/game-service/app/domain/ledger/hand_ledger.py:80-83 | The reversed ids are exactly the originals of the reversal rows. |
| `LedgerFlags.MarkedAsReversed` | services/game-service/app/domain/ledger/hand_ledger.py:55-88 | A player is marked as reversed iff a reversal names them and no later blind, ante or bet does. |
| `LedgerFlags.CorrectionsAreListed` | services/game-service/app/domain/ledger/hand_ledger.py:97-113 | The list of corrections tells exactly the payout corrections of the ledger, each once, in order, with both players and both amounts. |
| `LedgerFlags.OrderOnlyGrows` | services/game-service/app/domain/ledger/hand_ledger.py:47-50 | Players stand in the order in which the entries first name them. |
| `Ledger.ReversalCancels` | services/game-service/app/domain/ledger/hand_ledger.py:80-88 | A blind, ante or bet and its reversal, wherever they sit, leave the totals of the ledger with both removed. |
| `HandHistory.ReplayHand` | services/game-service/app/domain/ledger/hand_replay.py:25-42 | Step i holds the rebuild of the first i entries; the final state is the rebuild of all. |
| `HandHistory.VerifyConsistency` | services/game-service/app/domain/ledger/hand_replay.py:44-74 | The report lists exactly the discrepancies, each once: the pot, then the live players in the order of their dictionary, then the replayed ones in the order in which the ledger first names them; it is empty iff pots are equal, both sides name the same players and all commitments are equal. |
| `HandHistory.BuildHandTimeline` | services/game-service/app/domain/ledger/hand_history.py:57-122 | For every ledger: actions are the wagers with the rebuilt pot after each, split into streets exactly where streets were dealt; each street starts where the previous ended; end pots, payouts, corrections and flags match the rebuild. |
| `TimelineLines.ActionLines` | services/game-service/app/domain/ledger/hand_history.py:79-89 | The action lines show exactly the blinds, antes and bets of the ledger, each once, in order, with the pot that all entries up to it come to. |
| `TimelineLines.PayoutLines` | services/game-service/app/domain/ledger/hand_history.py:91-98 | The payout lines show exactly the awards that name a player, each once, in order. |
| `TimelineLines.CorrectionLines` | services/game-service/app/domain/ledger/hand_history.py:104-118 | The correction lines show exactly the rows of the four correction kinds, each once, in order. |
| `Commands.LiveHand.PlaceBet` | services/game-service/app/application/action_helpers.py:13-81 | In place: an accepted bet changes the rows and appends its bet row (effective action and amount, key) and its ledger row; a refused one changes nothing. |
| `Commands.LiveHand.ReverseAction` | services/game-service/app/application/commands/correction_command_service.py:43-91 | In place: refuses a missing entry, a correction and an already reversed entry, each with its own error and only then; otherwise appends the reversal and gives the chips back with the zero clamps. |
| `Commands.LiveHand.AdjustStack` | services/game-service/app/application/commands/correction_command_service.py:93-119 | In place: appends the entry and adds the amount to the named player's stack, if in the hand. |
| `Commands.LiveHand.ReopenHand` | services/game-service/app/application/commands/correction_command_service.py:121-146 | In place: refused unless completed; otherwise active and open again with no completion time, with its entry; nothing is paid back. |
| `Commands.LiveHand.CorrectPayout` | services/game-service/app/application/commands/correction_command_service.py:148-187 | In place: appends the entry, takes the old amount from one stack and gives the new amount to the other. |
| `Undo.ReversedOnlyOnce` | services/game-service/app/application/commands/correction_command_service.py:55-86 | Once an entry is reversed, no run of commands makes it reversible again. |
| `Undo.BetThenReversal` | services/game-service/app/application/commands/correction_command_service.py:76-86 | From any sound book, a bet and the reversal of its row: the reversal is accepted, every stack, street and hand commitment and the pot are as before, and everything else stays as the bet left it (bet level, minimum raise, turn, fold, all-in). |
| `Undo.AdjustmentAndBack` | services/game-service/app/application/commands/correction_command_service.py:102-116 | An adjustment and its opposite leave the hand as it was. |
| `Undo.CorrectionAndBack` | services/game-service/app/application/commands/correction_command_service.py:159-182 | A payout correction and the one with its two sides swapped leave the hand as it was. |
| `Undo.ReopenedHandIsOpenToAll` | services/game-service/app/application/commands/correction_command_service.py:129-135 | A settled and reopened hand stands at showdown with nobody on turn: no street can be dealt, it cannot be reopened again, and a request is accepted iff its player is able and the bets on the table permit the action. |
| `EventSourcing.AgreementMoves` | services/game-service/app/domain/ledger/hand_ledger.py:52-119 | From an agreeing book, appending rows keeps ledger and live state in agreement iff the live hand moves by what the rows say. |
| `EventSourcing.BetMoves` | services/game-service/app/application/action_helpers.py:13-81 | An accepted bet moves stacks, commitments and pot by exactly what its ledger row says. |
| `EventSourcing.SettleMoves` | services/game-service/app/application/commands/game_command_service.py:329-371 | A settlement moves the live hand by exactly what its payout and completion rows say. |
| `EventSourcing.CorrectMoves` | services/game-service/app/application/commands/correction_command_service.py:148-187 | A payout correction moves the stacks by exactly what its row says, also when both players are the same. |
| `LedgerTheorems.OpenedIsSound` | services/game-service/app/application/commands/game_command_service.py:217-236 | The rows written at the start of a hand agree with the posted stacks, commitments and pot. |
| `LedgerTheorems.OnlyStandingWagersCount` | services/game-service/app/domain/ledger/hand_ledger.py:80-88 | A player's replayed commitment is the sum of the wagers that were not reversed. |
| `LedgerTheorems.WagersAlwaysFit` | services/game-service/app/application/commands/correction_command_service.py:76-84 | A wager not yet reversed is at most its player's commitment and the pot: the zero clamps never take effect. |
| `LedgerTheorems.ReversalKeepsAgreementIff` | services/game-service/app/application/commands/correction_command_service.py:55-86 | Reversing any entry keeps ledger and live state in agreement iff its amount is 0, or belongs to a player and fits in the pot and in that player's commitment. |
| `ReversalTheorems.ReversingCompletionDiverges` | services/game-service/app/application/commands/correction_command_service.py:55-86 | After settling any sound book with a pot, the last row is the completion, its reversal is accepted, leaves the live hand alone and lowers the replayed pot by the whole pot, so the two diverge. |
| `ReversalTheorems.ReversingAwardAgreesIff` | services/game-service/app/application/commands/correction_command_service.py:55-86 | After a settlement, the reversal of any of its award rows is accepted, and ledger and live state still agree iff the award is at most the winner's own commitment. |
| `Reopening.ReopenedHandPaysTwice` | services/game-service/app/application/commands/correction_command_service.py:132-143 | Settle, reopen, settle again with any request the hand accepted before: it is accepted again and both payments stay on the stacks, so chips are conserved iff the two settlements together pay exactly one pot. |
| `Reopening.ReopenedAcceptsTheSame` | services/game-service/app/application/commands/correction_command_service.py:132-143 | After settling and reopening, a settlement is accepted iff it was accepted before. |
| `Reopening.EveryReopeningPays` | services/game-service/app/application/commands/correction_command_service.py:132-143 | Settled and reopened any number of times, each time with a request the hand accepts: every one is paid, the stakes stay, and the stacks gain the sum of all payments. |
| `WorkedHand.ReopenedHandCreatesChips` | services/game-service/app/application/commands/correction_command_service.py:132-143 | A called hand, 300 chips dealt: the same winner is paid twice and the stacks hold 330. |
| `WorkedHand.ReversedCompletionDiverges` | services/game-service/app/application/commands/correction_command_service.py:55-86 | On that hand the reversed completion is accepted, leaves the live hand alone and takes 30 from the replayed pot. |
| `WorkedHand.ReversedAwardDiverges` | services/game-service/app/application/commands/correction_command_service.py:55-86 | On that hand the reversal of an award of 30 to a player who put 10 in is accepted and parts ledger and live state. |
| `BookOfPlay.PlayIsRecorded` | services/game-service/app/application/commands/bet_command_service.py:64-92 | For every run of bets and street advances, committing them step by step stores the hand as played (no check constraint ever rolls one back), in agreement with the replay of its ledger. |
| `Timelines.CommandsDealNoStreet` | services/game-service/app/application/commands/game_command_service.py:466-489 | After any run of commands, street advances included, the ledger holds no street row. |
| `Timelines.TimelineOfRun` | services/game-service/app/domain/ledger/hand_history.py:57-122 | So the timeline of every run is the one street PRE_FLOP with all its wagers, from 0 to the rebuilt pot. |
| `LedgerTheorems.LedgerAndLiveAgree` | services/game-service/app/application/commands/correction_command_service.py:43-187 | After any run of bets, advances, settlements, reopenings, adjustments, payout corrections and reversals of wagers: live stack = starting stack - replayed committed + won + adjusted, live commitment and pot = replayed ones, pot = sum of commitments. |
| `Consistency.ReplayedAreMentioned` | services/game-service/app/domain/ledger/hand_ledger.py:47-119 | The replayed state holds exactly the players that some row names: any row but a street, completion or reopening, and for a payout correction the old winner too. |
| `Consistency.CheckReportsOnlyPresence` | services/game-service/app/domain/ledger/hand_replay.py:44-74 | In every such run the consistency report is exactly the seated players whom no row names and the strangers whom one does. |
| `Consistency.CheckIsSilentIff` | services/game-service/app/domain/ledger/hand_replay.py:44-74 | In every such run the report is empty iff the players named by ledger rows are exactly the seated ones. |
| `Consistency.SilentSeatIsReported` | services/game-service/app/application/commands/game_command_service.py:217-236 | When a hand has just started, a seat is reported iff there is no ante and the seat is neither blind. |
| `WorkedHand.AnnIsReported` | services/game-service/app/domain/ledger/hand_replay.py:44-74 | A dealt hand whose button is reported before anybody has acted. |
| `Consistency.NoAnteHandIsReported` | services/game-service/app/application/commands/game_command_service.py:217-236 | So every hand of three or more players without an ante is reported before anyone has acted. |
| `CasProtocol.CasUpdateRound` | services/game-service/app/infrastructure/repositories/round_state_repository.py:12-48 | Updates the listed columns, the completion time among them, from the changed round iff the stored version is the expected one, else leaves the row alone. |
| `CasProtocol.Serializable` | services/game-service/app/application/commands/bet_command_service.py:64-92 | For every interleaving of any number of clients, advances and settlements: the stored round and players are the committed changes run one at a time in commit order, none refused there, and the version counts them. |
| `CasProtocol.NoTornCommit` | services/game-service/app/application/commands/bet_command_service.py:64-81 | A commit that succeeds had read exactly the stored round and players. |
| `CasProtocol.EachKeyCommitsOnce` | services/game-service/app/application/commands/bet_command_service.py:31-90 | In every interleaving two committed bets never carry the same non-null idempotency key. |
| `CasProtocol.RepeatChangesNothing` | services/game-service/app/application/commands/bet_command_service.py:31-62 | Once a key is recorded, a repeat is answered at once and a late commit with it is refused, and neither changes the store. |
| `Replies.ReplyToUsedKey` | services/game-service/app/application/commands/bet_command_service.py:31-62 | In every interleaving, a waiting client that submits a request whose non-empty key some recorded bet carries is answered with that bet iff its player, action and amount are the request's, else with a conflict; nothing else changes. |
| `Replies.OtherPlayersKeyConflicts` | services/game-service/app/application/commands/bet_command_service.py:40-55 | A key that another player has used always conflicts. |
| `Replies.ReplyToNewKey` | services/game-service/app/application/commands/bet_command_service.py:26-41 | Without a key, with an empty one or one no recorded bet carries the request goes ahead; an unknown action is refused before the key is looked at. |
| `Replies.CommitsIffUndisturbed` | services/game-service/app/application/commands/bet_command_service.py:64-92 | A client reads the round, anything else happens, and it has read the players too: its commit goes through iff nothing at all was committed since it read the round, the store accepts the request and its key is unused; then the request is logged, the store is that bet applied, and the effective bet is recorded and returned; otherwise it is refused and nothing changes. |
| `Retries.RetryReplaysIff` | services/game-service/app/application/commands/bet_command_service.py:31-62 | At any later point of any interleaving, looking a committed request up again answers with the recorded bet iff action and amount were recorded as sent, judged on the hand the bet was executed on, otherwise with a conflict. |
| `Retries.CallZeroConflicts` | services/game-service/app/application/commands/bet_command_service.py:40-55 | In every interleaving a committed CALL sent with amount 0 conflicts with its own retry. |
| `WorkedHand.RetriedCallConflicts` | services/game-service/app/application/commands/bet_command_service.py:83-90 | A dealt hand, a client and a key: the CALL with amount 0 commits once and the second sending is answered with a conflict. |
| `ConcurrentPlay.EveryInterleavingIsPlay` | services/game-service/app/application/commands/bet_command_service.py:64-92 | In every interleaving over a dealt hand: at most one settlement commits, as the last change; the steps before it, one at a time, reach a hand that meets the hand invariant; the store is that hand or that hand settled; at most stacks + able players + 4 bets are recorded. |
| `Positions.ButtonsAreOk` | services/game-service/app/domain/engine/positions.py:3-28 | Dealer, small and big blind are on active seats, the big blind apart from both, dealer = small blind iff two seats. |
| `Positions.AssignedInTurn` | services/game-service/app/domain/engine/positions.py:3-13 | For ascending seats: the chosen seat deals, or the lowest when it is not active; the small blind is reached before every other seat from the dealer (heads-up it is the dealer), the big blind before every other seat from the small blind. |
| `Positions.RotatedInTurn` | services/game-service/app/domain/engine/positions.py:15-29 | The button moves to the seat reached before every other from the old dealer, or to the lowest seat when the old dealer is gone; the blinds follow in turn as above. |
| `Positions.EverySeatDealsOnce` | services/game-service/app/domain/engine/positions.py:15-28 | With a fixed seat list and an active dealer, n rotations make each of the n seats dealer exactly once and return to the start. |
| `GameLoop.RunSync` | services/game-service/app/infrastructure/room_config.py:160-187 | The overwriting loop gives each snapshot row the chips and activity of its round player and leaves the others; the returned seats are those of the rows then in play, in order. |
| `GameLoop.DealtInExactly` | services/game-service/app/domain/integration/room_adapter.py:32-39 | A hand is dealt to exactly the snapshot rows that are active, not eliminated and hold chips, with their chips. |
| `GameLoop.SettlementPassesTheButton` | services/game-service/app/application/commands/game_command_service.py:373-398 | After an accepted settlement anywhere in a game: rows of players in the hand hold their paid stacks and are active iff that is positive, eliminated iff zero, other rows stay; with two players left the button passes to the next seat still in play and the blinds follow, else the game is finished. |
| `GameLoop.SettledStacks` | services/game-service/app/application/commands/game_command_service.py:329-371 | After an accepted settlement the stacks are the dealt chips minus the pot plus what was paid, and 0 < paid <= pot. |
| `GameLoop.ChipsAreAccountedFor` | services/game-service/app/application/commands/game_command_service.py:329-398 | Across any number of hands the snapshot total plus what settlements left unpaid is constant, so it never rises and is unchanged iff every settlement paid its whole pot. |
| `GameLoop.ChipsKeptIffEveryPotPaid` | services/game-service/app/application/commands/game_command_service.py:274-303 | When every settlement of the run names each pot at most once, the total is unchanged iff every pot of every settled hand was paid in full. |
| `GameLoop.EveryHandIsWellPlaced` | services/game-service/app/application/commands/game_command_service.py:384-398 | In every run from a started game: play continues iff at least two active players hold chips, and each dealt hand has at least two players with dealer, small and big blind in that order clockwise, each blind the first dealt seat after the one before it (heads-up the dealer posts the small blind). |
| `HandCount.RecordCountsNothing` | services/game-service/app/application/commands/table_runtime_command_service.py:131-145 | Recording a completed hand explicitly never changes the tally. |
| `LevelHistory.RoundsAreHistory` | services/game-service/app/application/commands/game_command_service.py:312-383 | Told from the events: a round was ever completed iff it was settled after being opened, and is completed iff such a settlement has no later reopening. |
| `LevelHistory.WhatOneEventCounts` | services/game-service/app/application/hand_completion.py:31-47 | After any run of events: the first settlement of a round and nothing else counts a hand; when the level is over and not the highest it raises the level by one and resets the hands at the level, otherwise adds to them; advancing the blinds raises the level by one while a next one exists; no other event touches level or counts. |
| `HandCount.HandsPlayedCountsRounds` | services/game-service/app/application/hand_completion.py:18-55 | For every order of openings, settlements, reopenings, re-settlements, records and blind advances: hands played = rounds that ever completed, and the blind level never falls nor passes the highest configured one. |

## Left out

- Authentication, users, rooms, the gateway, HTTP routes, request schemas and logging: no hand logic. The bounds that schemas put on requests (payout amounts, pot indices, blinds) appear as `WellFormed` and as guards of the steps.
- SQLAlchemy sessions, savepoints, the outbox, RabbitMQ and WebSocket fan-out: a command is all-or-nothing, and a commit that breaks a check constraint is rolled back (`Book.Commits`).
- Identifiers: generated entry ids are fresh numbers, and unique constraints (player and seat per round, key per round) are preconditions or refusals.
- Action text: upper-casing is not modelled; `Unknown` stands for any text that names no action.
- Clocks: whether a blind level's time is over and the time of a settlement are inputs; other timestamps are dropped. The value model of a round keeps only whether it has a completion time.
- Authorisation to start a round and the lookup of the current blind level: the blinds and ante of a deal are inputs. Snapshot rows are taken in the seat order in which they are read.
- Read-write races of `advance_street` and `resolve_hand` with each other: they are single steps of the concurrency model, since they do not use the compare-and-set. Corrections are outside that model, because they do not bump the version.
- `BetCommandService` as one object: it is split into the client steps of `CasProtocol`, the in-place `RunApplyAction`, `PlaceBet` and `CasUpdateRound`.
- `apply_hand_completion` is modelled on values, as it returns a new result; the writes of that result into the game row are part of `HandCount.Next`.
- Table sessions (pause, resume, sit-out), ending a game by command, settlement explanations in prose, and hand ranking, for which the repository has no evaluator: winners are inputs.
