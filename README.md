# Water-sort puzzle engine, modelled in Dafny

This project models the puzzle engine of a water-sort game and proves
properties of the model. A puzzle is a row of bottles. Each bottle is a
stack of coloured liquid units whose top is the end of the sequence. A move
pours the same-coloured units on top of one bottle onto another.

The engine has three parts, each modelled in its own files.

- **Move engine** (`LiquidMover` and the `GameAPI` facade): `mover.dfy`,
  `gameapi.dfy`.
  - It validates a pour request and computes the legal amount: the least
    of the request, the source's top run and the destination's free space.
  - It pours on a copy of the state and lists the legal moves.
  - It decides completion and scores a state by its colour groups.
- **Generator** (`WaterSortPuzzleGenerator`, `PuzzleGeneratorAPI`,
  `PuzzleUtils.validatePuzzleConstraints`): `generator.dfy`.
  - It validates a configuration and builds the colour sequence.
  - It shuffles the sequence with Fisher–Yates in an array, then deals it
    into bottles followed by two empty ones.
  - It retries until a state passes the mixing check and the structure check.
- **Solver** (`game-solver.ts`): `priority_queue.dfy`, `solver_rules.dfy`,
  `solver.dfy`.
  - The frontier is a priority queue kept sorted by a stable sort.
  - The solver has its own move generator and `applyMove`.
  - The heuristic has three terms: misplaced units, mixed bottles and
    colour dispersion.
  - The search is best-first with a visited set.

`puzzles.dfy` holds what the three share:
- the state types;
- the top run of a bottle;
- the pour;
- the flattening of a puzzle into its units and the colour multiset;
- the order in which a JavaScript `Map` meets its keys.

`wrappers.dfy` holds `Option` and `Result`.

Each operation of the source that loops or updates state is a method. It is
proved equal to a specification function (`ensures r == F(...)`), and the
function's own contract or the lemmas beside it state what the source
promises. The priority queue is a class whose `items` field the methods
reassign.

`Math.random` is an oracle. Attempt `k` of the generator draws
`rand(k)(i)`, and position `i` is exchanged with index `rand(k)(i) % (i + 1)`,
which can be any index in `[0, i]`. Every property of the generator is
proved for every oracle.

Thrown errors become `Failure` values of a `Result`. Error messages become
constructors of an error datatype, one per message.

The game's solved test `isSolved` (every bottle empty, or full and of one
colour) and the search's goal test `isGoalState` (every bottle of one
colour, no height check) differ. The model follows the code: the search
stops at `isGoalState`.
`SolverRules.SolvedIsGoal` proves that `isSolved` implies `isGoalState`.
`SolverRules.GoalWithPositiveHeuristic` shows a goal state whose heuristic
is positive.

## Model

| member | source | states |
|---|---|---|
| Puzzles.TopRun | RN/src/pages/game-board/lib/game-logic.ts:105-115 | the top run's length: all of the top `r` units have the top colour, the unit below them does not, and it is 0 only for an empty bottle |
| Puzzles.TopRunUnique | RN/src/pages/game-board/lib/game-logic.ts:108-115 | any count that has both run properties is the top run, so a counting loop that stops at the first other colour computes it |
| Puzzles.Dedup | src/pages/game-board/lib/game-generator.ts:124-129 | a Map's keys in insertion order: exactly the elements of the input, each once, starting with the first |
| Puzzles.Pour | RN/src/pages/game-board/lib/game-logic.ts:134-145 | the source loses its top `k` units, the destination gains them in the same order on top, every other bottle is unchanged, and the colour multiset is kept |
| Puzzles.PourWithinHeight | RN/src/pages/game-board/lib/game-logic.ts:118-128 | a pour that fits in the destination keeps every bottle within the height |
| Mover.ValidateMove | RN/src/pages/game-board/lib/game-logic.ts:57-93 | valid exactly when both indices are in range, they differ, the source is non-empty and the amount is positive. Otherwise the reason is the first failing check in that order: InvalidIndex, SameBottle, EmptySource, NonPositiveAmount, each stated as an if-and-only-if |
| Mover.LegalAmount | RN/src/pages/game-board/lib/game-logic.ts:98-129 | positive exactly when the request is positive, the source is non-empty, the destination has room and is empty or has the source's top colour; a positive amount is at most, and equal to one of, the request, the top run and the free space |
| Mover.CalculateActualMoveAmount | RN/src/pages/game-board/lib/game-logic.ts:98-129 | the run-counting loop computes LegalAmount |
| Mover.ExecuteMove | RN/src/pages/game-board/lib/game-logic.ts:134-145 | splice and push on the copy give Pour of the requested amount |
| Mover.MoveOutcome | RN/src/pages/game-board/lib/game-logic.ts:25-52 | succeeds exactly when validation passes and the legal amount is positive. On success: `1 <= actualAmount <= amount`, the pour of that amount, the same bottle count and colours, and height kept. Failures carry the validation reason or NoLiquidMovable |
| Mover.MoveLiquid | RN/src/pages/game-board/lib/game-logic.ts:25-52 | validate, compute the legal amount, refuse 0, pour on a copy: the result is MoveOutcome |
| Mover.AutoMoveOutcome | RN/src/pages/game-board/lib/game-logic.ts:150-181 | bad indices and an empty source are refused; otherwise it is moveLiquid with the legal amount of a full-height request. A success pours min(top run, free space), which no request can exceed |
| Mover.AutoMoveLiquid | RN/src/pages/game-board/lib/game-logic.ts:150-181 | the method's result is AutoMoveOutcome |
| Mover.MovesFromExact | RN/src/pages/game-board/lib/game-logic.ts:193-205 | one move per other destination whose full-height legal amount is positive, carrying that amount; destinations strictly ascending; nothing else listed |
| Mover.PossibleMoves | RN/src/pages/game-board/lib/game-logic.ts:186-191 | no moves for a bad index or an empty source |
| Mover.PossibleMovesExact | RN/src/pages/game-board/lib/game-logic.ts:186-208 | for a source in range, the listed moves are exactly its legal full-height pours with their amounts, destinations ascending |
| Mover.FindPossibleMoves | RN/src/pages/game-board/lib/game-logic.ts:186-208 | the loop over destinations computes PossibleMoves |
| Mover.AllMovesBelow | RN/src/pages/game-board/lib/game-logic.ts:213-222 | every legal full-height pour of the sources below `n` is listed once, with its legal amount, ordered by source and then destination |
| Mover.FindAllPossibleMoves | RN/src/pages/game-board/lib/game-logic.ts:213-222 | the concatenation loop computes AllPossibleMoves |
| Mover.LegalAmountSucceeds | RN/src/pages/game-board/lib/game-logic.ts:196-203 | asking explicitly for a positive full-height legal amount succeeds and pours all of it |
| Mover.ListedMoveSucceeds | RN/src/pages/game-board/lib/game-logic.ts:186-208 | every move findPossibleMoves lists is accepted by moveLiquid and pours exactly its amount |
| Mover.AllListedMoveSucceeds | RN/src/pages/game-board/lib/game-logic.ts:213-222 | every move findAllPossibleMoves lists is accepted by moveLiquid and pours exactly its amount |
| Mover.AutoMoveIsListed | RN/src/pages/game-board/lib/game-logic.ts:150-208 | autoMoveLiquid succeeds exactly when findPossibleMoves lists a move between the two bottles, and it then performs that move |
| Mover.IsGameCompleted | RN/src/pages/game-board/lib/game-logic.ts:227-239 | true exactly when every bottle is empty, or full height and of one colour |
| Mover.ColorGroups | RN/src/pages/game-board/lib/game-logic.ts:282-301 | no groups for an empty bottle; otherwise non-empty groups, starting with the bottom colour and ending with the top colour |
| Mover.ColorGroupsMaximal | RN/src/pages/game-board/lib/game-logic.ts:289-297 | neighbouring groups have different colours |
| Mover.ColorGroupsExpand | RN/src/pages/game-board/lib/game-logic.ts:282-301 | expanding the groups gives the bottle back |
| Mover.GroupLengthsSum | RN/src/pages/game-board/lib/game-logic.ts:282-301 | the group lengths add up to the bottle's length |
| Mover.SingleGroup | RN/src/pages/game-board/lib/game-logic.ts:271 | a bottle is a single group exactly when it is non-empty and of one colour |
| Mover.SquareSumBound | RN/src/pages/game-board/lib/game-logic.ts:268 | the sum of squared group lengths is at most the squared bottle length |
| Mover.BottleScoreBound | RN/src/pages/game-board/lib/game-logic.ts:257-277 | a bottle within height scores at most h*h + 20, and exactly the complete bottles reach that score |
| Mover.GetColorGroups | RN/src/pages/game-board/lib/game-logic.ts:282-301 | the loop over `currentColor` and `currentLength` computes ColorGroups |
| Mover.CalculateGameScore | RN/src/pages/game-board/lib/game-logic.ts:257-277 | the accumulator loop computes GameScore: 1 per empty bottle, squared group lengths, and 20 for a full single-group bottle |
| Mover.EvaluateMove | RN/src/pages/game-board/lib/game-logic.ts:244-252 | -1 for a refused move, otherwise the score after the move minus the score before |
| Mover.CappedPourExample | RN/src/pages/game-board/lib/game-logic.ts:128 | a run of 3 asked to pour 5 onto a bottle with room for 3 pours 3 |
| Facade.GameApi.constructor | RN/src/pages/game-board/lib/game-logic.ts:311-313 | the facade's mover has the given height, 4 by default |
| Facade.GameApi.MoveLiquid | RN/src/pages/game-board/lib/game-logic.ts:318-320 | forwards to moveLiquid: a success pours between 1 and the requested units and keeps the colours |
| Facade.GameApi.AutoMoveLiquid | RN/src/pages/game-board/lib/game-logic.ts:325-327 | forwards to autoMoveLiquid; a success is one of the listed moves |
| Facade.GameApi.GetPossibleMoves | RN/src/pages/game-board/lib/game-logic.ts:332-337 | one source's moves when `from` is given, all moves otherwise, each accepted by moveLiquid in full |
| Facade.GameApi.IsCompleted | RN/src/pages/game-board/lib/game-logic.ts:342-344 | true exactly when every bottle is empty, or full and of one colour |
| Facade.GameApi.EvaluateMove | RN/src/pages/game-board/lib/game-logic.ts:349-351 | -1 for a refused move, otherwise the change of score |
| Generator.NewGenerator | src/pages/game-board/lib/game-generator.ts:23-40 | fewer than 2 colours is refused first, then a height below 4; an accepted configuration keeps its colours and height, a given non-zero bottle count or mixing step count is kept, and a missing or zero one takes its default (numColors + 2, 200) |
| Generator.Palette | src/pages/game-board/lib/game-generator.ts:60-65 | numColors * bottleHeight units, each colour 1..numColors bottleHeight times, no other colour |
| Generator.BuildColorSequence | src/pages/game-board/lib/game-generator.ts:60-65 | the nested loops build Palette |
| Generator.UnitsIsProduct | src/pages/game-board/lib/game-generator.ts:60-65 | the unit count is numColors * bottleHeight |
| Generator.Drawn | src/pages/game-board/lib/game-generator.ts:99 | the drawn index lies in [0, i] |
| Generator.ShuffledFixesAbove | src/pages/game-board/lib/game-generator.ts:98-101 | the positions above the current one are final |
| Generator.ShuffledPermutes | src/pages/game-board/lib/game-generator.ts:97-102 | whatever the draws, the shuffle is a permutation |
| Generator.FisherYates | src/pages/game-board/lib/game-generator.ts:97-102 | same length and same multiset as the input, for every oracle |
| Generator.ShuffleArray | src/pages/game-board/lib/game-generator.ts:97-102 | the in-place swap loop leaves the array holding FisherYates of its old contents |
| Generator.ChunksContents | src/pages/game-board/lib/game-generator.ts:77-86 | filled bottle `b` holds units b*h up to (b+1)*h of the sequence, cut at its end, so at most `h` units |
| Generator.ChunksFlat | src/pages/game-board/lib/game-generator.ts:77-86 | the filled bottles concatenated are the first min(len, n*h) units of the sequence |
| Generator.Deal | src/pages/game-board/lib/game-generator.ts:71-93 | max(numBottles - 2, 0) + 2 bottles, the last two empty, each within height, whose units are a prefix of the shuffled sequence |
| Generator.DealBottles | src/pages/game-board/lib/game-generator.ts:71-86 | the loops with the running `colorIndex` deal the chunks |
| Generator.ShuffledColors | src/pages/game-board/lib/game-generator.ts:60-68 | an attempt's shuffled sequence is a permutation of Palette |
| Generator.MixColors | src/pages/game-board/lib/game-generator.ts:60-68 | building and shuffling in an array gives ShuffledColors |
| Generator.AddEmptyBottles | src/pages/game-board/lib/game-generator.ts:89-91 | two empty bottles are appended |
| Generator.CreateDirectlyMixedState | src/pages/game-board/lib/game-generator.ts:58-94 | build, shuffle, deal and add the empties: the attempt's state |
| Generator.IsCompletelyMixed | src/pages/game-board/lib/game-generator.ts:109-119 | true exactly when no bottle has two neighbouring units of one colour (and none starts with colour 0) |
| Generator.CountBottle | src/pages/game-board/lib/game-generator.ts:125-129 | the Map takes in one bottle: keys are the colours seen, values their counts, key order first occurrence |
| Generator.CountColors | src/pages/game-board/lib/game-generator.ts:124-129 | keys are exactly the puzzle's colours, each mapped to its number of units, in first-occurrence order |
| Generator.CountEmptyBottles | src/pages/game-board/lib/game-generator.ts:104-106 | at most the bottle count; 0 exactly when no bottle is empty; the bottle count exactly when all are |
| Generator.CountEmptyBottlesConcat | src/pages/game-board/lib/game-generator.ts:104-106 | counting empty bottles distributes over concatenation |
| Generator.HasValidStructure | src/pages/game-board/lib/game-generator.ts:122-152 | true exactly when there are numColors distinct colours, each with bottleHeight units, and at least 2 empty bottles |
| Generator.ValidatePuzzleConstraints | src/pages/game-board/lib/game-generator.ts:247-268 | false for a state with no units; otherwise true exactly when all colours have the same count |
| Generator.FirstWhereIsFirst | src/pages/game-board/lib/game-generator.ts:44-53 | the retry search finds the least accepted attempt, and finds none only when none is accepted |
| Generator.FirstOutcomeCases | src/pages/game-board/lib/game-generator.ts:44-53 | the retry loop's result is the state of an accepted attempt, or failure exactly when no attempt is accepted |
| Generator.GenerateOutcomeAccepted | src/pages/game-board/lib/game-generator.ts:42-56 | a generated state passes isCompletelyMixed and hasValidStructure and has max(numBottles - 2, 0) + 2 bottles; failure exactly when all 10 attempts are rejected |
| Generator.TryAttempt | src/pages/game-board/lib/game-generator.ts:47-49 | one attempt's state and whether both checks accept it |
| Generator.Generate | src/pages/game-board/lib/game-generator.ts:42-56 | the bounded retry loop returns the first accepted attempt's state, or AttemptsExhausted |
| Generator.GenerateCustomPuzzle | src/pages/game-board/lib/game-generator.ts:184-187 | configuration errors are reported; otherwise generate's outcome, whose success passes both checks and has max(numBottles - 2, 0) + 2 bottles |
| Generator.GenerateEasyPuzzle | src/pages/game-board/lib/game-generator.ts:157-164 | a success is an acceptable 5-bottle state of 3 colours and height 4 |
| Generator.GenerateMediumPuzzle | src/pages/game-board/lib/game-generator.ts:166-173 | a success is an acceptable 7-bottle state of 5 colours and height 4 |
| Generator.GenerateHardPuzzle | src/pages/game-board/lib/game-generator.ts:175-182 | a success is an acceptable 10-bottle state of 8 colours and height 4 |
| Generator.AcceptedIsUnsolved | src/pages/game-board/lib/game-generator.ts:49 | a state that passes both checks is never already solved |
| Generator.RoomyDealPlacesAll | src/pages/game-board/lib/game-generator.ts:75-86 | with at least numColors + 2 bottles every shuffled unit is dealt |
| Generator.PaletteColors | src/pages/game-board/lib/game-generator.ts:131-142 | a state holding exactly the palette's units has numColors colours of bottleHeight units each |
| Generator.StructureOf | src/pages/game-board/lib/game-generator.ts:122-152 | a state of the palette's units ending in two empty bottles passes hasValidStructure |
| Generator.RoomyAttemptHasValidStructure | src/pages/game-board/lib/game-generator.ts:122-152 | with at least numColors + 2 bottles every attempt passes hasValidStructure, so only the mixing check rejects |
| Generator.DefaultDealFillsBottles | src/pages/game-board/lib/game-generator.ts:75-86 | with exactly numColors + 2 bottles each of the first numColors bottles is full |
| PriorityQueues.InsertPos | RN/src/pages/game-board/lib/game-solver.ts:28-29 | the slot a stable sort gives the pushed entry: after every entry of no larger priority, before every larger one |
| PriorityQueues.InsertMembers | RN/src/pages/game-board/lib/game-solver.ts:27-30 | after enqueue the queue holds the old entries and the new one, and nothing else |
| PriorityQueues.InsertSorted | RN/src/pages/game-board/lib/game-solver.ts:29 | the queue stays sorted by priority |
| PriorityQueues.InsertPermutes | RN/src/pages/game-board/lib/game-solver.ts:28-29 | the result is a permutation of the pushed array, one entry longer |
| PriorityQueues.InsertStable | RN/src/pages/game-board/lib/game-solver.ts:29 | for every priority the entries of that priority keep their order, and the new entry comes last among its equals |
| PriorityQueues.FrontIsMinimal | RN/src/pages/game-board/lib/game-solver.ts:32-34 | the front entry of a sorted queue has the least priority |
| PriorityQueues.FindSlot | RN/src/pages/game-board/lib/game-solver.ts:29 | the backward scan finds the stable sort's slot |
| PriorityQueues.PriorityQueue.constructor | RN/src/pages/game-board/lib/game-solver.ts:25 | an empty, sorted queue |
| PriorityQueues.PriorityQueue.Enqueue | RN/src/pages/game-board/lib/game-solver.ts:27-30 | push then stable sort: the queue becomes Insert of the new entry and stays sorted |
| PriorityQueues.PriorityQueue.Dequeue | RN/src/pages/game-board/lib/game-solver.ts:32-34 | None on an empty queue; otherwise the front item, and the queue loses its front |
| SolverRules.IsSolved | RN/src/pages/game-board/lib/game-solver.ts:8-22 | true exactly when every bottle is empty, or as tall as the height and of one colour (the same test as isGameCompleted) |
| SolverRules.SolvedIsGoal | RN/src/pages/game-board/lib/game-solver.ts:8-52 | isSolved implies isGoalState |
| SolverRules.IsGoalState | RN/src/pages/game-board/lib/game-solver.ts:41-52 | true exactly when every bottle holds one colour, whatever its height |
| SolverRules.TargetsBelowExact | RN/src/pages/game-board/lib/game-solver.ts:79-89 | a source's listed moves are exactly its solver moves, in ascending destination order |
| SolverRules.SourcesBelowSound | RN/src/pages/game-board/lib/game-solver.ts:62-90 | every listed move is a solver move, ordered by source and then destination |
| SolverRules.SourcesBelowComplete | RN/src/pages/game-board/lib/game-solver.ts:62-90 | every solver move of a source below `n` is listed |
| SolverRules.ValidMovesExact | RN/src/pages/game-board/lib/game-solver.ts:58-92 | a move is listed exactly when it is a solver move: non-empty source, other destination that is empty or below 4 units with the same top colour, amount the whole top run; ordered by source, then destination |
| SolverRules.ValidMovesSound | RN/src/pages/game-board/lib/game-solver.ts:58-92 | every listed move is a solver move |
| SolverRules.CountTopRun | RN/src/pages/game-board/lib/game-solver.ts:67-77 | the counting loop computes the top run |
| SolverRules.ListTargets | RN/src/pages/game-board/lib/game-solver.ts:79-89 | the destination loop lists the source's moves |
| SolverRules.GetValidMoves | RN/src/pages/game-board/lib/game-solver.ts:58-92 | the nested loops compute ValidMoves |
| SolverRules.SpliceCount | RN/src/pages/game-board/lib/game-solver.ts:96 | `splice(-a, a)` removes `a` units when 0 <= a <= length, none when a <= 0, all when a >= length |
| SolverRules.Applied | RN/src/pages/game-board/lib/game-solver.ts:94-99 | the spliced units go on top of the destination, the bottle count and colours are kept, and from == to gives the state back |
| SolverRules.ApplyMove | RN/src/pages/game-board/lib/game-solver.ts:94-99 | splice and push on a copy compute Applied |
| SolverRules.SolverMoveApplies | RN/src/pages/game-board/lib/game-solver.ts:87-97 | a listed move pours exactly its amount, between 1 and the source's height |
| SolverRules.SolverMoveCanOverfill | RN/src/pages/game-board/lib/game-solver.ts:85-87 | a listed move can fill a bottle beyond 4 units: a run of 2 onto a bottle of 3 |
| SolverRules.CountOther | RN/src/pages/game-board/lib/game-solver.ts:108-112 | at most the bottle's length, 0 exactly when every unit has the colour |
| SolverRules.Misplaced | RN/src/pages/game-board/lib/game-solver.ts:103-112 | a bottle has no misplaced units exactly when it is of one colour |
| SolverRules.MisplacedColors | RN/src/pages/game-board/lib/game-solver.ts:101-115 | non-negative, 0 exactly when isGoalState holds |
| SolverRules.IncompleteBottles | RN/src/pages/game-board/lib/game-solver.ts:117-129 | non-negative and at most the bottle count, 0 exactly when isGoalState holds |
| SolverRules.CountMisplacedColors | RN/src/pages/game-board/lib/game-solver.ts:101-115 | the nested loops compute MisplacedColors |
| SolverRules.CountIncompleteBottles | RN/src/pages/game-board/lib/game-solver.ts:117-129 | the loop computes IncompleteBottles |
| SolverRules.DispersionOfZero | RN/src/pages/game-board/lib/game-solver.ts:143-146 | over the puzzle's colours the dispersion sum is non-negative and 0 exactly when each colour sits in one bottle |
| SolverRules.ColorDispersionZero | RN/src/pages/game-board/lib/game-solver.ts:131-148 | the dispersion is non-negative and 0 exactly when every colour sits in a single bottle |
| SolverRules.RecordUnit | RN/src/pages/game-board/lib/game-solver.ts:136-139 | one unit enters the colour-to-bottles Map |
| SolverRules.AddBottlePositions | RN/src/pages/game-board/lib/game-solver.ts:135-140 | after bottle `i` the Map's keys are the colours seen, and each colour's set holds the bottles below `i + 1` that contain it |
| SolverRules.DispersionFromPositions | RN/src/pages/game-board/lib/game-solver.ts:144-146 | after the last bottle each colour's set is the set of bottles that hold it |
| SolverRules.CalculateColorDispersion | RN/src/pages/game-board/lib/game-solver.ts:131-148 | the Map-building loops and the sum compute ColorDispersion |
| SolverRules.Heuristic | RN/src/pages/game-board/lib/game-solver.ts:150-154 | the three counters added up |
| SolverRules.HeuristicZero | RN/src/pages/game-board/lib/game-solver.ts:150-154 | the heuristic is non-negative and 0 exactly when every bottle is of one colour and every colour sits in one bottle, so 0 implies isGoalState |
| SolverRules.GoalWithPositiveHeuristic | RN/src/pages/game-board/lib/game-solver.ts:150-154 | the converse fails: [[1], [1]] is a goal state with a positive heuristic |
| Solver.Replay | RN/src/pages/game-board/lib/game-solver.ts:186-195 | the state a path of solver moves reaches; the empty path stays at the initial state |
| Solver.ReplaySnoc | RN/src/pages/game-board/lib/game-solver.ts:186-195 | a path extended by a solver move reaches that move's result |
| Solver.ChildReaches | RN/src/pages/game-board/lib/game-solver.ts:186-195 | the successor of a node reached along its path is reached along that path plus the move, with gCost equal to the path length and priority gCost + heuristic |
| Solver.PushChild | RN/src/pages/game-board/lib/game-solver.ts:186-195 | one successor is enqueued, keeping every queued node reachable with consistent costs |
| Solver.PushAll | RN/src/pages/game-board/lib/game-solver.ts:186-196 | all successors are enqueued in move order, each one's state now queued |
| Solver.AllSuccessorsQueued | RN/src/pages/game-board/lib/game-solver.ts:186 | once every listed move's successor is queued, so is every solver move's |
| Solver.PushSuccessors | RN/src/pages/game-board/lib/game-solver.ts:186-196 | expanding a node queues the successor of every solver move and keeps the queue's invariants |
| Solver.ClosedReach | RN/src/pages/game-board/lib/game-solver.ts:172-199 | when the queue is empty and the visited set is closed under solver moves, every reachable state was visited |
| Solver.SolvePuzzle | RN/src/pages/game-board/lib/game-solver.ts:156-200 | a returned path consists of solver moves and replays to a goal state; `null` (NoSolution) only when no path reaches a goal; a goal initial state gives the empty path; no state is expanded twice |

## Left out

- Solver.SolvePuzzle: the source's loop always ends. applyMove keeps the bottle count and the colour multiset, so finitely many states are reachable, and the visited check expands each of them at most once. The model does not prove that bound. Instead it takes a `budget` of dequeues and returns OutOfBudget when they are spent. The other results are as in the source.
- Generator.Generate: the source's retry loop is `while (true)` and never counts its attempts. The model stops after MAX_GENERATION_ATTEMPTS (10) attempts with AttemptsExhausted, which is the error the unreachable code after the loop would throw.
- hashState: `JSON.stringify` is injective on puzzles, so the visited set holds the states themselves.
- deepCopyState and the copies inside applyMove: sequences are values, so a copy is the state itself, and no operation can change its input.
- Math.random is replaced by the oracle described above. The model proves properties for every oracle, not the distribution of the draws.
- The solver's move generator assumes a capacity of 4 and does not cap the amount by free space. The model keeps this (SolverRules.SolverMoveCanOverfill).
- isSolved's default height comes from `RN/src/pages/game-board/lib/constants.ts`, which is not part of this model, so the height is a parameter.
- mixingSteps is stored with its default as in the source but is used by no operation.
- Array.prototype.sort is modelled by its result. The queue already sorted plus one pushed entry becomes the stable sort's order, because the ECMAScript specification requires the sort to be stable since 2019. The comparison algorithm itself is not modelled.
- Numbers are unbounded integers. JavaScript doubles are exact for every count a puzzle can reach.
- Indices and amounts are whole numbers: callers are assumed to pass integers. A fractional amount such as 0.5 passes moveLiquid's positivity check, while splice truncates it to 0. The model does not cover this case.
- Console output is left out: the logging in isSolved and hasValidStructure, GameUtils, PuzzleUtils.printPuzzle, analyzePuzzle and testLiquidMovement. None of it affects a result.
- Error messages are represented by error constructors, not by their text.
