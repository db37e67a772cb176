# Frostmaul core, modelled in Dafny

Frostmaul is a tower-defence game. Enemies walk down a board of 9 columns by 16
rows, from an entry cell at the top to an exit cell at the bottom. The player
builds towers on empty cells. A tower blocks walking, so placing one reshapes
the path. A placement that would cut every route from the entry to the exit is
refused. Between waves the player picks one of a few weighted, randomly drawn
cards. A card unlocks towers, grants per-kind and global modifiers, curses the
enemies, or grants lives, gold per kill, grid rows and relics for the rest of the run.

This project models that core:

- **Board and grid store** (`cells.dfy`, `grid_manager.dfy`). The cell table is
  an `array2` in a `GridManager` class, with the single mutation entry point
  and its change notification, bounds checks, and the cell/world mapping.
- **Walking graph** (`routes.dfy`). This is the specification both searches are
  proved against: routes from the exit, the shortest-hop field, and the local
  facts a breadth-first search establishes. Those local facts are proved
  equivalent to shortest-hop.
- **Flow field** (`steering.dfy`, `flow_field.dfy`). The breadth-first
  integration field is a class over two `array2` tables, and so is the
  direction field and the path walk from the entry. The path walk is proved to
  be a shortest route to the exit.
- **Placement validator** (`path_validator.dfy`). This is the second
  breadth-first search, with the candidate cell treated as a wall. Its answer is
  proved to be reachability of the entry on the walled grid.
- **Economy and placement** (`player_resources.dfy`, `tower_placer.dfy`). These
  cover the purse, the two-tap select/confirm machine, the validator, asset and
  gold gates of a placement, and selling for half the price.
- **Waves** (`wave_spawner.dfy`, `wave_manager.dfy`). The spawner coroutine is a
  resumable step method. The phase machine is Build → Wave → Reward → Build or
  GameOver.
- **Cards** (`card_data.dfy`, `card_pool.dfy`, `run_state.dfy`,
  `card_effects.dfy`). These cover the weighted sample without replacement, the
  run state with its per-kind modifier table, and the thirteen card effects.

`basics.dfy` holds the optional value, the repeat-free predicate and one
set-size fact that the other modules share.

Modelling conventions:

- Notifications (C# events) are returned as values, in the order they are
  raised: grid cell changes, gold changes, phase and wave notices, spawned
  enemies, the flow-field update and the applied card.
- `Random.Range` becomes a caller-supplied entropy function.
- Frame time becomes whole ticks.
- Unity objects that the code compares by reference are datatype values compared
  by equality.
- `(int)` casts of floats are written out as truncation toward zero
  (`CardAssets.TruncateToInt`).
- Float multipliers are exact reals.

## Model

| member | source | states |
|---|---|---|
| Cells.NeighbourIsAdjacent | Assets/Scripts/Grid/FlowFieldCalculator.cs:12-18 | each of the four cardinal offsets leads to a 4-adjacent cell, in both directions |
| Cells.AdjacentIsNeighbour | Assets/Scripts/Grid/FlowFieldCalculator.cs:12-18 | every 4-adjacent cell is one of the four offsets, so a scan over the offset table sees the whole neighbourhood |
| Cells.BoardSize | Assets/Scripts/Grid/FlowFieldCalculator.cs:66 | the board has exactly cols * rows cells, the bound GetPath uses for its step budget |
| Cells.DefaultLayoutIsValid | Assets/Scripts/Utils/Constants.cs:4-17 | the game's 9 x 16 board with entry (4,0) and exit (4,15) is a valid layout: both cells are on the board and distinct, and no finite distance can reach the int.MaxValue sentinel |
| GridStore.BlockedChanges | Assets/Scripts/Grid/GridManager.cs:36-39 | the notifications of initialisation are exactly the on-board designer cells, each reported as Blocked |
| GridStore.SeededStep | Assets/Scripts/Grid/GridManager.cs:36-39 | blocking one more designer cell keeps every board cell at its initial state for the longer list |
| GridStore.GridManager.constructor | Assets/Scripts/Grid/GridManager.cs:14-17 | after Awake every board cell is Blocked if it is the entry, the exit or a designer cell, and Empty otherwise |
| GridStore.GridManager.InitializeGrid | Assets/Scripts/Grid/GridManager.cs:20-40 | a fresh table in which entry, exit and on-board designer cells are Blocked and every other cell is Empty; events are entry, exit, then the designer cells in list order |
| GridStore.GridManager.BlockDesignerCells | Assets/Scripts/Grid/GridManager.cs:36-39 | the designer loop blocks exactly the listed on-board cells and reports each one; off-board cells are skipped silently |
| GridStore.GridManager.AllocateEmpty | Assets/Scripts/Grid/GridManager.cs:25-31 | a fresh cols x rows table with every cell Empty |
| GridStore.GridManager.GetCellState | Assets/Scripts/Grid/GridManager.cs:43-47 | the stored state of a board cell, and Blocked for every off-board cell |
| GridStore.GridManager.IsBuildable | Assets/Scripts/Grid/GridManager.cs:49-52 | true exactly for on-board Empty cells |
| GridStore.GridManager.IsInBounds | Assets/Scripts/Grid/GridManager.cs:54-58 | true exactly when 0 <= x < cols and 0 <= y < rows |
| GridStore.GridManager.SetCellState | Assets/Scripts/Grid/GridManager.cs:60-64 | an off-board cell changes nothing and reports nothing; an on-board cell gets the new state, nothing else changes, and (cell, state) is reported |
| GridStore.GridManager.SetCellStateInternal | Assets/Scripts/Grid/GridManager.cs:83-88 | exactly one on-board cell changes, and the change is reported |
| GridStore.GridManager.CellToWorld | Assets/Scripts/Grid/GridManager.cs:67-72 | the world point lies half a cell into the cell's square, with world y falling as the row grows |
| GridStore.GridManager.WorldToCell | Assets/Scripts/Grid/GridManager.cs:74-80 | the board cell whose square contains the point, or (-1,-1) exactly when the floored coordinates fall off the board |
| GridStore.GridManager.WorldToCellOfCentre | Assets/Scripts/Grid/GridManager.cs:67-80 | round trip: the centre of every board cell maps back to that cell |
| Routes.Update | Assets/Scripts/Grid/GridManager.cs:83-88 | the grid value after one write: only that board cell changes |
| Routes.DescentGivesRoute | Assets/Scripts/Grid/FlowFieldCalculator.cs:114-129 | on a breadth-first field, every finite cell has a route from the exit of exactly its distance |
| Routes.RouteBoundsDistance | Assets/Scripts/Grid/FlowFieldCalculator.cs:114-129 | on a breadth-first field, no route is shorter than the distance of the cell it ends at, and that distance is finite |
| Routes.LocalIsShortest | Assets/Scripts/Grid/FlowFieldCalculator.cs:102-130 | the local facts the search establishes imply that the field is the shortest-hop field |
| Routes.ShortestIsLocal | Assets/Scripts/Grid/FlowFieldCalculator.cs:102-130 | conversely, the shortest-hop field has those local facts |
| Routes.ShortestDescentAt | Assets/Scripts/Grid/FlowFieldCalculator.cs:114-129 | on the shortest field, every finite cell other than the exit is passable and has a neighbour exactly one hop nearer |
| Routes.ShortestDescending | Assets/Scripts/Grid/FlowFieldCalculator.cs:114-129 | the shortest field descends: every finite non-exit cell is passable, with a neighbour one hop nearer |
| Routes.ShortestClosed | Assets/Scripts/Grid/FlowFieldCalculator.cs:119-128 | on the shortest field, the passable neighbours of a finite cell are finite and at most one hop further |
| Routes.ShortestIsUnique | Assets/Scripts/Grid/FlowFieldCalculator.cs:102-130 | the integration field is a function of the grid: two shortest fields agree on every board cell |
| Routes.ShortestDecidesReachability | Assets/Scripts/Grid/FlowFieldCalculator.cs:53-57 | a finite distance means a route joins the cell to the exit, and the sentinel means none does |
| Routes.ShortestExitAndTowers | Assets/Scripts/Grid/FlowFieldCalculator.cs:108-109 | on the shortest field the exit is at 0 and a tower never carries a finite distance unless it is the exit |
| Routes.MoreTowersFewerRoutes | Assets/Scripts/Grid/FlowFieldCalculator.cs:124 | adding towers never creates a route |
| Routes.BlockingKeepsShortest | Assets/Scripts/Grid/FlowFieldCalculator.cs:87-91 | turning a non-tower cell into Blocked keeps the shortest field, which is why that change needs no recomputation |
| Routes.ClosedSetHoldsRoutes | Assets/Scripts/Grid/PathValidator.cs:34-50 | a set that holds the exit and is closed under passable steps contains the end of every route, so an exhausted search has seen every reachable cell |
| Routes.FrontierPush | Assets/Scripts/Grid/FlowFieldCalculator.cs:126-127 | enqueuing a newly discovered board cell keeps the queue, the expanded set and the discovered set consistent |
| Routes.FrontierPop | Assets/Scripts/Grid/FlowFieldCalculator.cs:116 | the dequeued cell was discovered and not yet expanded, and moving it into the expanded set keeps the queue, expanded and discovered sets consistent |
| Routes.RouteAtLeastManhattan | Assets/Scripts/Grid/FlowFieldCalculator.cs:114-129 | every route to a cell is at least as long as its Manhattan distance from the exit |
| Steering.Heading | Assets/Scripts/Grid/FlowFieldCalculator.cs:167-169 | the heading towards an adjacent cell is a non-zero unit vector, and stepping along it reaches that cell |
| FlowField.HeadingIsWorldDelta | Assets/Scripts/Grid/FlowFieldCalculator.cs:167-169 | the heading is the difference of the two world centres divided by the cell size, which is its normalisation |
| Steering.Scan | Assets/Scripts/Grid/FlowFieldCalculator.cs:147-159 | the scan keeps its starting cell or ends at an on-board adjacent cell strictly nearer than the start |
| Steering.ScanMinimal | Assets/Scripts/Grid/FlowFieldCalculator.cs:150-159 | the scan ends no farther than any on-board neighbour it passed, and it keeps the start exactly when no neighbour is strictly nearer |
| Steering.ScanKeepsEarliest | Assets/Scripts/Grid/FlowFieldCalculator.cs:147-159 | ties keep the earlier neighbour: a scan that moves ends at a board neighbour strictly nearer than every board neighbour before it in the order (+x, -x, +y, -y) |
| Steering.ScanMovesNearer | Assets/Scripts/Grid/FlowFieldCalculator.cs:150-159 | a scan that leaves its starting cell ends strictly nearer than that cell |
| Steering.BestNeighbourDescends | Assets/Scripts/Grid/FlowFieldCalculator.cs:147-159 | on a breadth-first field, the best neighbour of a finite non-exit cell is adjacent, on the board and exactly one hop nearer |
| Steering.BestIsNotFarther | Assets/Scripts/Grid/FlowFieldCalculator.cs:154 | a neighbour strictly nearer than a passable cell is nearer by at most one hop |
| Steering.DirectionDescends | Assets/Scripts/Grid/FlowFieldCalculator.cs:132-173 | on a breadth-first field, every finite cell other than the exit gets a non-zero heading that steps one hop down the field |
| Steering.DirectionStops | Assets/Scripts/Grid/FlowFieldCalculator.cs:140-145 | the exit, unreachable cells and towers get the zero heading |
| Steering.FieldsCoherent | Assets/Scripts/Grid/FlowFieldCalculator.cs:95-100 | a breadth-first field and the direction rule applied to every cell are coherent, the invariant the calculator keeps |
| Steering.FollowsExtend | Assets/Scripts/Grid/FlowFieldCalculator.cs:70-78 | a walk that has not stopped takes one more step along its last cell's heading |
| Steering.Reverse | Assets/Scripts/Grid/FlowFieldCalculator.cs:59-82 | the reversed walk has the same cells in the opposite order |
| Steering.CoherentStep | Assets/Scripts/Grid/FlowFieldCalculator.cs:73-78 | on coherent fields, a non-zero heading is a step onto an adjacent board cell one hop nearer |
| Steering.FollowDescends | Assets/Scripts/Grid/FlowFieldCalculator.cs:68-79 | following the headings from a finite cell walks down the field one hop at a time, through adjacent board cells |
| Steering.WalkStops | Assets/Scripts/Grid/FlowFieldCalculator.cs:68-79 | a stopped walk fits the step budget; from an unreachable start it is the start alone, and otherwise it ends at the exit after exactly the start's hop count |
| Steering.WalkCellPassable | Assets/Scripts/Grid/FlowFieldCalculator.cs:68-79 | every cell of such a walk except its last is passable |
| Steering.WalkIsRoute | Assets/Scripts/Grid/FlowFieldCalculator.cs:59-82 | read backwards, the walk is a route from the exit to the entry |
| Steering.WalkIsShortestRoute | Assets/Scripts/Grid/FlowFieldCalculator.cs:59-82 | on the shortest field, that route is a shortest one |
| Steering.StoppedWalkIsShortest | Assets/Scripts/Grid/FlowFieldCalculator.cs:59-82 | on coherent shortest fields, a stopped walk from a reachable start, read backwards, is a route to it no longer than any other |
| FlowField.SetDist | Assets/Scripts/Grid/FlowFieldCalculator.cs:126 | the distance table after one write: only that board entry changes |
| FlowField.SetDir | Assets/Scripts/Grid/FlowFieldCalculator.cs:143 | the direction table after one write: only that board entry changes |
| FlowField.BfsStart | Assets/Scripts/Grid/FlowFieldCalculator.cs:104-112 | after the reset and the exit seed, the search invariant holds with the exit alone queued |
| FlowField.BfsDequeue | Assets/Scripts/Grid/FlowFieldCalculator.cs:116-117 | dequeuing the head starts its relaxation at head distance + 1 |
| FlowField.RaiseKeepsDescents | Assets/Scripts/Grid/FlowFieldCalculator.cs:126 | discovering a neighbour keeps every discovered cell passable and one hop above some neighbour |
| FlowField.DiscoverKeepsCounts | Assets/Scripts/Grid/FlowFieldCalculator.cs:126 | the finite entries stay exactly the discovered cells, each below their number |
| FlowField.DiscoverKeepsDiscovered | Assets/Scripts/Grid/FlowFieldCalculator.cs:126-127 | discovering and enqueuing a passable neighbour keeps the shared search facts, with the queue still sorted by distance |
| FlowField.ClosedOverGrows | Assets/Scripts/Grid/FlowFieldCalculator.cs:126 | a new discovery never breaks the closure of expanded cells |
| FlowField.RelaxFound | Assets/Scripts/Grid/FlowFieldCalculator.cs:121-127 | relaxing an undiscovered passable neighbour advances the inner invariant |
| FlowField.RelaxSkipped | Assets/Scripts/Grid/FlowFieldCalculator.cs:122-124 | the three skip tests (off the board, already discovered, tower) advance the inner invariant unchanged |
| FlowField.RelaxDone | Assets/Scripts/Grid/FlowFieldCalculator.cs:119-128 | after the four neighbours the outer invariant holds again |
| FlowField.BfsEnd | Assets/Scripts/Grid/FlowFieldCalculator.cs:114 | an empty queue leaves the shortest-hop field, with every finite entry below cols * rows |
| FlowField.RuleExtends | Assets/Scripts/Grid/FlowFieldCalculator.cs:136-171 | storing the rule's heading extends the swept prefix by one cell |
| FlowField.RuleNextColumn | Assets/Scripts/Grid/FlowFieldCalculator.cs:134-136 | finishing a column's rows starts the next column |
| FlowField.RuleComplete | Assets/Scripts/Grid/FlowFieldCalculator.cs:132-173 | after the last column, every board cell carries the rule's heading |
| FlowField.FlowFieldCalculator.constructor | Assets/Scripts/Grid/FlowFieldCalculator.cs:24-38 | Awake allocates both tables and Start computes them: they describe the grid as it is |
| FlowField.FlowFieldCalculator.StoreDistance | Assets/Scripts/Grid/FlowFieldCalculator.cs:126 | exactly one distance entry changes, and the grid does not |
| FlowField.FlowFieldCalculator.GetDirection | Assets/Scripts/Grid/FlowFieldCalculator.cs:47-51 | zero off the board; a non-zero heading steps onto an adjacent board cell one hop nearer; every finite non-exit cell has one |
| FlowField.FlowFieldCalculator.IsReachable | Assets/Scripts/Grid/FlowFieldCalculator.cs:53-57 | true exactly for board cells whose entry is not int.MaxValue |
| FlowField.FlowFieldCalculator.QueriesMatchGrid | Assets/Scripts/Grid/FlowFieldCalculator.cs:47-57 | on current tables, IsReachable is reachability on the grid; off the exit, the heading is non-zero exactly on reachable cells |
| FlowField.FlowFieldCalculator.GetPath | Assets/Scripts/Grid/FlowFieldCalculator.cs:59-82 | the walk starts at the entry, follows the headings and fits the step budget; from an unreachable entry it is the entry alone, otherwise it ends at the exit after the entry's hop count; on current tables it is a shortest route |
| FlowField.FlowFieldCalculator.Walk | Assets/Scripts/Grid/FlowFieldCalculator.cs:68-79 | the loop leaves a walk that starts at the entry, takes each stored heading in turn, and stops only at the exit or at a zero heading |
| FlowField.FlowFieldCalculator.HandleCellStateChanged | Assets/Scripts/Grid/FlowFieldCalculator.cs:87-91 | a Tower or Empty change recomputes both tables so they describe the grid and announces the update; a Blocked change leaves them untouched and announces nothing |
| FlowField.FlowFieldCalculator.Compute | Assets/Scripts/Grid/FlowFieldCalculator.cs:95-100 | afterwards both tables describe the current grid (shortest hop counts and the direction rule), and the flow-field update is announced |
| FlowField.FlowFieldCalculator.ComputeIntegrationField | Assets/Scripts/Grid/FlowFieldCalculator.cs:102-130 | the table becomes the shortest-hop field of the grid from the exit, with the sentinel on unreachable cells |
| FlowField.FlowFieldCalculator.IsUndiscovered | Assets/Scripts/Grid/FlowFieldCalculator.cs:122-124 | the three skip tests pass exactly for passable cells still carrying the sentinel |
| FlowField.FlowFieldCalculator.ResetDistances | Assets/Scripts/Grid/FlowFieldCalculator.cs:104-106 | every entry becomes int.MaxValue |
| FlowField.FlowFieldCalculator.ComputeDirectionField | Assets/Scripts/Grid/FlowFieldCalculator.cs:132-173 | every board cell gets the rule's heading; the distances and the grid are unchanged |
| FlowField.FlowFieldCalculator.ComputeColumn | Assets/Scripts/Grid/FlowFieldCalculator.cs:136-171 | one column's rows get the rule's heading |
| FlowField.FlowFieldCalculator.FillCell | Assets/Scripts/Grid/FlowFieldCalculator.cs:138-170 | exactly one direction entry changes, to the rule's heading for that cell |
| FlowField.FlowFieldCalculator.CellDirection | Assets/Scripts/Grid/FlowFieldCalculator.cs:140-170 | the heading computed equals the direction rule: zero on towers, unreachable cells and local minima, otherwise towards the best neighbour |
| FlowField.FlowFieldCalculator.NearestNeighbour | Assets/Scripts/Grid/FlowFieldCalculator.cs:147-159 | the loop's result equals the scan specification: the cell itself, or an on-board adjacent cell strictly nearer |
| FlowField.FlowFieldCalculator.StoreDirection | Assets/Scripts/Grid/FlowFieldCalculator.cs:143 | exactly one direction entry changes; the distances and the grid do not |
| Validation.SetMark | Assets/Scripts/Grid/PathValidator.cs:47-48 | marking sets exactly one board cell |
| Validation.Walled | Assets/Scripts/Grid/PathValidator.cs:42-45 | on the searched grid, a cell is passable exactly when it was passable and is not the candidate |
| Validation.SearchStart | Assets/Scripts/Grid/PathValidator.cs:25-32 | after clearing and seeding the exit, the search invariant holds |
| Validation.SearchDequeue | Assets/Scripts/Grid/PathValidator.cs:34-37 | dequeuing a cell other than the entry starts its expansion |
| Validation.SearchFindsEntry | Assets/Scripts/Grid/PathValidator.cs:37 | a dequeued entry is reachable, so returning true is right |
| Validation.SearchFound | Assets/Scripts/Grid/PathValidator.cs:47-48 | marking and enqueuing a passable unmarked neighbour keeps the inner invariant |
| Validation.SearchSkipped | Assets/Scripts/Grid/PathValidator.cs:42-45 | skipping an off-board, marked, tower or candidate neighbour keeps the inner invariant |
| Validation.SearchExpanded | Assets/Scripts/Grid/PathValidator.cs:39-49 | after four neighbours the outer invariant holds again |
| Validation.SearchExhausted | Assets/Scripts/Grid/PathValidator.cs:52 | an exhausted search means the entry is unreachable, so returning false is right |
| Validation.CandidateEntryRejected | Assets/Scripts/Grid/PathValidator.cs:42-45 | a candidate on the entry is always rejected |
| Validation.RouteAvoidsExit | Assets/Scripts/Grid/PathValidator.cs:31-32 | every route can be cut to one that never returns to the exit |
| Validation.CandidateExitIgnored | Assets/Scripts/Grid/PathValidator.cs:31-32 | a candidate on the exit is accepted exactly when the entry is already reachable |
| Validation.RejectionIsMonotone | Assets/Scripts/Grid/PathValidator.cs:23-53 | a rejected candidate stays rejected after more towers are built |
| Validation.ValidatorAgreesWithField | Assets/Scripts/Grid/PathValidator.cs:23-53 | the validator accepts exactly when the flow field recomputed after the placement gives the entry a finite distance |
| Validation.PathValidator.constructor | Assets/Scripts/Grid/PathValidator.cs:18-21 | a fresh mark table with the grid's dimensions |
| Validation.PathValidator.IsPlacementValid | Assets/Scripts/Grid/PathValidator.cs:23-53 | the answer is true exactly when a route joins the entry to the exit with the candidate turned into a tower; only the scratch marks change |
| Validation.PathValidator.IsOpen | Assets/Scripts/Grid/PathValidator.cs:42-45 | the skip tests pass exactly for passable, non-candidate, unmarked cells |
| Validation.PathValidator.Mark | Assets/Scripts/Grid/PathValidator.cs:47 | exactly one mark is set |
| Validation.PathValidator.ClearVisited | Assets/Scripts/Grid/PathValidator.cs:25 | every mark is cleared and the grid is unchanged |
| Economy.Spend | Assets/Scripts/Core/PlayerResources.cs:41-47 | a spend succeeds exactly when the balance covers the amount; success deducts exactly the amount and leaves a non-negative balance; failure changes nothing |
| Economy.PlayerResources.constructor | Assets/Scripts/Core/PlayerResources.cs:16-19 | gold starts at the starting gold and the kill count at zero |
| Economy.PlayerResources.TrySpend | Assets/Scripts/Core/PlayerResources.cs:41-47 | the purse follows Spend, and the new balance is reported only on success |
| Economy.PlayerResources.HandleEnemyKilled | Assets/Scripts/Core/PlayerResources.cs:31-38 | the reward is added, the kill count rises by one, both are reported, and solvency is kept |
| Economy.PlayerResources.AddGold | Assets/Scripts/Grid/TowerPlacer.cs:142 | the amount is added, the new balance is reported, and solvency is kept |
| Placement.Decide | Assets/Scripts/Grid/TowerPlacer.cs:55-77 | an invalid cell clears; a place attempt happens exactly on a re-tap of the selected cell; otherwise an on-board Empty cell is selected, an on-board Tower cell is reported as a tower tap, and a Blocked or off-board cell clears, each in both directions |
| Placement.SecondTapPlaces | Assets/Scripts/Grid/TowerPlacer.cs:61-68 | a tap on a buildable cell selects it, and a second tap on it asks for placement |
| Placement.Refund | Assets/Scripts/Grid/TowerPlacer.cs:138 | the refund is half the price, rounded down |
| Placement.Record | Assets/Scripts/Grid/TowerPlacer.cs:97-99 | the cell is recorded exactly when the instantiated object carries tower data |
| Placement.CommitKeepsRecords | Assets/Scripts/Grid/TowerPlacer.cs:96-99 | after a commit every recorded tower stands on a tower cell |
| Placement.SaleKeepsRecords | Assets/Scripts/Grid/TowerPlacer.cs:139-141 | after a sale the remaining records stand on tower cells |
| Placement.FreeingKeepsRoute | Assets/Scripts/Grid/TowerPlacer.cs:141 | emptying a cell never cuts a route |
| Placement.CommitKeepsRoute | Assets/Scripts/Grid/TowerPlacer.cs:92-96 | a placement the three gates accept keeps the entry reachable |
| Placement.TowerPlacer.constructor | Assets/Scripts/Grid/TowerPlacer.cs:9-19 | no selection, the selected cell is (-1,-1), and no towers are recorded |
| Placement.TowerPlacer.OnTap | Assets/Scripts/Grid/TowerPlacer.cs:44-79 | ignored while a menu is open or the camera drags; otherwise it carries out Decide on the tapped cell: a re-tap of the selection is a placement attempt and every other tap yields Decide's outcome, with exact effects on grid, gold, records and selection for each outcome; only a successful placement raises gold and cell notices |
| Placement.TowerPlacer.SelectCell | Assets/Scripts/Grid/TowerPlacer.cs:81-88 | the cell becomes the selection |
| Placement.TowerPlacer.PlaceTower | Assets/Scripts/Grid/TowerPlacer.cs:90-101 | the validator, asset and gold gates are checked in order; only when all pass are the price spent, the cell turned into a tower, the tower recorded and the selection cleared, raising the new balance and then the (cell, Tower) change; a refused placement raises nothing; gold is never spent on a placement that would cut the route |
| Placement.TowerPlacer.Commit | Assets/Scripts/Grid/TowerPlacer.cs:96-100 | the cell becomes a tower, the record is updated, and the selection is cleared; the (cell, Tower) change is returned |
| Placement.TowerPlacer.ClearSelection | Assets/Scripts/Grid/TowerPlacer.cs:104-110 | no selection, and the selected cell is (-1,-1) |
| Placement.TowerPlacer.SetTowerData | Assets/Scripts/Grid/TowerPlacer.cs:112-115 | the tower to place is replaced and nothing else changes |
| Placement.TowerPlacer.PlaceCurrentSelection | Assets/Scripts/Grid/TowerPlacer.cs:117-121 | without a selection nothing happens and nothing is raised; otherwise it is a placement attempt on the selected cell, with its notices |
| Placement.TowerPlacer.CancelSelection | Assets/Scripts/Grid/TowerPlacer.cs:123-126 | the selection is cleared |
| Placement.TowerPlacer.GetTowerAt | Assets/Scripts/Grid/TowerPlacer.cs:128-132 | the recorded tower, and None for a cell without one |
| Placement.TowerPlacer.SellTower | Assets/Scripts/Grid/TowerPlacer.cs:134-143 | a cell without a record changes nothing and raises nothing; otherwise the record is dropped, the cell emptied and half the price refunded, raising the (cell, Empty) change and then the new balance; a reachable entry stays reachable |
| Placement.TowerPlacer.Release | Assets/Scripts/Grid/TowerPlacer.cs:139-141 | the record is dropped and the cell emptied, without cutting a route; the (cell, Empty) change is returned for every recorded cell |
| Spawning.Repeat | Assets/Scripts/Waves/WaveSpawner.cs:38-46 | `count` copies of the enemy, and none for a non-positive count |
| Spawning.Schedule | Assets/Scripts/Waves/WaveSpawner.cs:36-49 | the release order has exactly TotalCount enemies |
| Spawning.ScheduleAppend | Assets/Scripts/Waves/WaveSpawner.cs:38-46 | the schedule of joined entry lists is the concatenation of their schedules |
| Spawning.ScheduleFromEntries | Assets/Scripts/Waves/WaveSpawner.cs:38-46 | every released enemy comes from an entry with a positive count |
| Spawning.WaveSpawner.constructor | Assets/Scripts/Waves/WaveSpawner.cs:10-12 | no wave active, no coroutine, and no enemies counted |
| Spawning.WaveSpawner.StartWave | Assets/Scripts/Waves/WaveSpawner.cs:28-34 | the counters reset and the coroutine runs to its first pause: with enemies it releases the first scheduled one and keeps the rest pending with spawning not yet done; an empty wave completes at once, with no enemy counted, nothing pending and the coroutine finished |
| Spawning.WaveSpawner.Resume | Assets/Scripts/Waves/WaveSpawner.cs:36-49 | the next pending enemy is released and counted; with none left spawning is done, and the wave completes, and stops being active, exactly when no enemy remains; a release leaves the wave active; completion means every scheduled enemy was released and removed |
| Spawning.WaveSpawner.HandleEnemyRemoved | Assets/Scripts/Waves/WaveSpawner.cs:59-64 | ignored outside an active wave; otherwise one fewer enemy remains, and the wave completes, and stops being active, exactly when spawning is done and none remain; an active wave that does not complete stays active |
| Spawning.WaveSpawner.CheckWaveComplete | Assets/Scripts/Waves/WaveSpawner.cs:66-73 | completion is announced exactly when spawning is done and no enemy remains, and it ends the wave |
| Waves.WaveManager.constructor | Assets/Scripts/Waves/WaveManager.cs:41-45 | the game starts in the build phase at wave 0 with the full build timer |
| Waves.WaveManager.Update | Assets/Scripts/Waves/WaveManager.cs:47-64 | the build timer counts down and at zero starts the wave with all of StartWave's effects, or with no wave left does nothing more; the reward timer holds while a draw is pending and otherwise counts down and at zero advances with all of AdvanceWave's effects, including the full build timer or, after the last wave, the counted-down timer left as it is; the wave and game-over phases ignore the clock; every branch that does not act leaves the timer (or just counts it down), the gold and the spawner as they were |
| Waves.WaveManager.EnterBuildPhase | Assets/Scripts/Waves/WaveManager.cs:68-73 | build phase with the full timer, announced |
| Waves.WaveManager.StartWave | Assets/Scripts/Waves/WaveManager.cs:76-85 | only from the build phase with a wave left, and otherwise nothing changes, spawner and gold included; the wave phase starts with the timer standing still, is announced, and the spawner starts the wave and releases its first scheduled enemy, which is returned; an empty wave leaves the spawner finished with no enemy counted, pays its gold and goes straight to the reward phase |
| Waves.WaveManager.HandleWaveComplete | Assets/Scripts/Waves/WaveManager.cs:87-96 | only in the wave phase: the wave's gold is paid, the new balance announced, and the reward phase starts with the full timer |
| Waves.WaveManager.AdvanceWave | Assets/Scripts/Waves/WaveManager.cs:98-105 | the next wave becomes current; past the last wave the game is won and the timer is left as it was, otherwise the build phase starts with the full timer |
| Waves.WaveManager.HandleLivesChanged | Assets/Scripts/Waves/WaveManager.cs:107-111 | no lives left ends the game in defeat, announced once; the timer and the wave index are untouched |
| Waves.WaveManager.HandleDrawReady | Assets/Scripts/Waves/WaveManager.cs:113 | a draw is pending, and nothing else changes |
| Waves.WaveManager.HandleCardApplied | Assets/Scripts/Waves/WaveManager.cs:115-120 | the draw is over; in the reward phase the game advances at once with all of AdvanceWave's effects, including the full build timer or, after the last wave, the timer left as it was |
| Waves.WaveManager.TriggerGameOver | Assets/Scripts/Waves/WaveManager.cs:122-129 | the first call ends the game and announces the result; later calls change nothing and announce nothing |
| CardAssets.TruncateToInt | Assets/Scripts/Cards/CardEffectApplier.cs:42-44 | C#'s `(int)` on a float: the integer part, truncated toward zero for both signs |
| CardPool.EligibleMembers | Assets/Scripts/Cards/CardPoolManager.cs:58-64 | the eligible cards are exactly the pool's cards that pass both exclusions, and no repeats are introduced |
| CardPool.EligibleStep | Assets/Scripts/Cards/CardPoolManager.cs:59-64 | one card of the eligible-list loop: it is appended exactly when it passes both exclusions |
| CardPool.TotalWeight | Assets/Scripts/Cards/CardPoolManager.cs:72-75 | with non-negative weights, the total is non-negative |
| CardPool.PickFrom | Assets/Scripts/Cards/CardPoolManager.cs:78-89 | a pick is a card of the list not yet picked in this draw |
| CardPool.PickStep | Assets/Scripts/Cards/CardPoolManager.cs:80-88 | one card of the cumulative loop: a picked card is skipped, an unpicked card is chosen exactly when the roll lies below the running weight plus its own, and otherwise the search goes on with its weight added |
| CardPool.RandomRange | Assets/Scripts/Cards/CardPoolManager.cs:77 | a roll lies in [0, n) for a positive n, and is 0 for an empty range |
| CardPool.Draws | Assets/Scripts/Cards/CardPoolManager.cs:70-90 | one slot per remaining index |
| CardPool.DrawsSound | Assets/Scripts/Cards/CardPoolManager.cs:70-90 | every filled slot holds a card of the list not picked before, and no card fills two slots |
| CardPool.Sample | Assets/Scripts/Cards/CardPoolManager.cs:56-93 | the offer has min(count, number of eligible cards) slots |
| CardPool.SampleSound | Assets/Scripts/Cards/CardPoolManager.cs:56-93 | every offered card is in the pool and passes both exclusions, and no card is offered twice |
| CardPool.PickSucceeds | Assets/Scripts/Cards/CardPoolManager.cs:77-89 | with non-negative weights, a roll below the total always finds a card |
| CardPool.UnpickedWeight | Assets/Scripts/Cards/CardPoolManager.cs:72-75 | an unpicked card's weight is counted in the total |
| CardPool.DistinctSize | Assets/Scripts/Cards/CardPoolManager.cs:66 | a list without repeats has as many distinct cards as entries |
| CardPool.DrawsFilled | Assets/Scripts/Cards/CardPoolManager.cs:70-90 | with distinct cards of positive weight, every slot is filled |
| CardPool.SampleFilled | Assets/Scripts/Cards/CardPoolManager.cs:56-93 | a pool of distinct positive-weight cards fills every slot of an offer |
| CardPool.DuplicateCardLeavesEmptySlot | Assets/Scripts/Cards/CardPoolManager.cs:58-89 | a card listed twice makes two slots, but it can be picked only once, so the second slot stays null |
| CardPool.CardPoolManager.constructor | Assets/Scripts/Cards/CardPoolManager.cs:12-15 | no card has been taken this run |
| CardPool.CardPoolManager.HandlePhaseChanged | Assets/Scripts/Cards/CardPoolManager.cs:29-35 | the reward phase draws an offer avoiding taken cards, announced only when it has a slot; other phases do nothing |
| CardPool.CardPoolManager.Draw | Assets/Scripts/Cards/CardPoolManager.cs:39-42 | the offer is the sample that avoids the cards taken this run |
| CardPool.CardPoolManager.Reroll | Assets/Scripts/Cards/CardPoolManager.cs:44-47 | the offer is the sample that avoids taken cards and the cards of the previous offer |
| CardPool.CardPoolManager.MarkPicked | Assets/Scripts/Cards/CardPoolManager.cs:49-52 | the card is taken for the rest of the run |
| CardPool.CardPoolManager.WeightedSample | Assets/Scripts/Cards/CardPoolManager.cs:56-93 | the array holds exactly the Sample of the inputs |
| CardPool.CardPoolManager.FillSlot | Assets/Scripts/Cards/CardPoolManager.cs:72-89 | one slot is filled as the draw specification says, and later slots are untouched |
| CardPool.CardPoolManager.CollectEligible | Assets/Scripts/Cards/CardPoolManager.cs:58-64 | the collected list is Eligible, in pool order |
| CardPool.CardPoolManager.SumUnpicked | Assets/Scripts/Cards/CardPoolManager.cs:72-75 | the loop's sum equals TotalWeight |
| CardPool.CardPoolManager.FirstAbove | Assets/Scripts/Cards/CardPoolManager.cs:78-89 | the loop's pick equals PickFrom: the first unpicked card whose running weight exceeds the roll |
| Runs.FreshRun | Assets/Scripts/Cards/RunState.cs:6-28 | a new run: empty lists and table, multipliers 1, counters 0, no skip, rerolls per draw |
| Runs.Touch | Assets/Scripts/Cards/RunState.cs:31-39 | get-or-create adds the kind to the table and changes nothing else |
| Runs.TouchKeepsMods | Assets/Scripts/Cards/RunState.cs:31-39 | get-or-create changes no kind's modifiers in effect, a second call changes nothing, and a hit changes nothing |
| Runs.TowerModifiers.constructor | Assets/Scripts/Cards/TowerModifiers.cs:6-9 | new modifiers are 1, 1, 1 and 0 |
| Runs.ModsView | Assets/Scripts/Cards/RunState.cs:14 | the value of the table has the same kinds as the table |
| Runs.RunState.constructor | Assets/Scripts/Cards/RunState.cs:6-28 | the run state stands for FreshRun, with no shared modifiers and no repeats |
| Runs.RunState.GetTowerMods | Assets/Scripts/Cards/RunState.cs:31-39 | a hit returns the existing object and changes nothing; a miss enters fresh default modifiers; either way the value is Touch of the old one |
| CardEffects.KindEffectAfterTouch | Assets/Scripts/Cards/CardEffectApplier.cs:30-44 | a per-kind effect equals get-or-create followed by updating the entry it found |
| CardEffects.EffectLists | Assets/Scripts/Cards/CardEffectApplier.cs:25-28 | an unlock adds only its target and a relic only its card, each only when missing, so neither list gains a repeat |
| CardEffects.LifeGrant | Assets/Scripts/Cards/CardEffectApplier.cs:54-56 | only a bonus-lives effect grants lives, `(int)Value` of them |
| CardEffects.EffectsKeepListsDistinct | Assets/Scripts/Cards/CardEffectApplier.cs:11-19 | a whole card never puts a repeat into the unlock or relic list |
| CardEffects.LifeGrants | Assets/Scripts/Cards/CardEffectApplier.cs:11-19 | one grant per effect, in order |
| CardEffects.EffectsAppend | Assets/Scripts/Cards/CardEffectApplier.cs:11-19 | applying two effect lists in turn is applying their concatenation |
| CardEffects.EffectsUnlock | Assets/Scripts/Cards/CardEffectApplier.cs:25-28 | a tower is unlocked after the card exactly when it was before or some unlock effect of the card names it |
| CardEffects.RepeatIsIdempotent | Assets/Scripts/Cards/CardEffectApplier.cs:25-28 | unlock, relic and skip-boss effects change nothing the second time |
| CardEffects.IntegerEffectsAreLocal | Assets/Scripts/Cards/CardEffectApplier.cs:42-60 | gold-per-kill, grid rows and flat cost add `(int)Value` to their own counter and change nothing else |
| CardEffects.EffectTouchesOneKind | Assets/Scripts/Cards/CardEffectApplier.cs:30-44 | no effect changes the modifiers of a kind it does not target |
| CardEffects.CardEffectApplier.constructor | Assets/Scripts/Cards/CardEffectApplier.cs:11-19 | the applier uses the given card pool |
| CardEffects.CardEffectApplier.Apply | Assets/Scripts/Cards/CardEffectApplier.cs:11-19 | the run becomes Effects of the card's effects in order; the grants are returned in order; the card is taken exactly once, and then announced as applied |
| CardEffects.CardEffectApplier.ApplyEffects | Assets/Scripts/Cards/CardEffectApplier.cs:13-14 | the run becomes Effects of all the card's effects in list order, and the grants come back in the same order |
| CardEffects.CardEffectApplier.ApplyEffect | Assets/Scripts/Cards/CardEffectApplier.cs:21-79 | the run becomes Effect of the old run, and the grant is LifeGrant |
| CardEffects.CardEffectApplier.ApplyRunEffect | Assets/Scripts/Cards/CardEffectApplier.cs:25-77 | the run-level cases follow Effect and leave the modifier table as it was |
| CardEffects.CardEffectApplier.ApplyTowerEffect | Assets/Scripts/Cards/CardEffectApplier.cs:30-44 | the per-kind cases: get-or-create the kind's modifiers, then update that one entry |
| CardEffects.CardEffectApplier.WriteKind | Assets/Scripts/Cards/CardEffectApplier.cs:30-44 | the kind's modifiers become KindUpdate of their old value |

## Left out

- Floating point is not modelled: multipliers are exact reals, so rounding is not captured. Headings are the exact integer unit vectors that `Vector2.normalized` yields for adjacent cells, so `Mathf.RoundToInt` in GetPath is the identity.
- Time is whole ticks instead of `Time.deltaTime`; fractional frame times are not modelled.
- C# events (`OnCellStateChanged`, `OnGoldChanged`, `OnFlowFieldUpdated`, `OnCardApplied`, phase and wave notices, spawned enemies) are returned as values, and the subscriber calls they trigger (for instance HandleCellStateChanged on a returned cell change, HandleCardApplied on an applied card) are made by the caller. Listener ordering across objects is not modelled.
- GridStore.GridManager.constructor: the notifications InitializeGrid raises during Awake are not returned, because a Dafny constructor has no results; InitializeGrid itself returns them.
- FlowField.FlowFieldCalculator.constructor: the flow-field update that Start's Compute announces is not returned, because a Dafny constructor has no results; Compute itself returns it.
- Waves.WaveManager.constructor: the PhaseChanged(Build) notice that Start's EnterBuildPhase raises is not returned, because a Dafny constructor has no results; EnterBuildPhase itself returns it.
- The Unity lifecycle (`OnEnable`/`OnDisable` subscriptions, the order of Awake and Start across objects) is not modelled; constructors play Awake and, where the source computes in Start, Start.
- `Instantiate`, `Destroy`, `GetComponent` and the enemy pool are not modelled. A placement's instantiated object is the `spawned` parameter (its tower data, or None when it has no tower component). A spawned enemy is the returned `EnemyData` (from WaveSpawner.Resume and WaveSpawner.StartWave, and as the EnemySpawned notice of WaveManager.StartWave).
- Input, the camera, the highlight object, the tower menu and all UI are not modelled; OnTap receives the two UI flags and the world point.
- Gizmo and editor drawing in GridManager and FlowFieldCalculator are not modelled, because they do not change game state.
- Economy.PlayerResources.AddGold: the method is called but not declared in PlayerResources.cs, so it is modelled as a plain addition.
- Lives: `AddLives` and the lives counter are not part of this model, so CardEffectApplier.Apply returns each effect's life grant instead of adding it.
- `WaveSpawner.StopWave`, called by TriggerGameOver, is not part of this model, so the game-over transition does not stop the spawner.
- The spawn delay between enemies is not modelled: each Resume is one resumption of the coroutine, whenever its wait ends. A second StartWave while an old coroutine is still alive is modelled as replacing it.
- `Constants.CardDrawCount` and `Constants.CardRerollsPerDraw` are not in Constants.cs, so they are constructor parameters. `RunManager.Current` is a parameter of Apply.
- `Random.Range` is a caller-supplied entropy function; each slot's roll is some value in the range, and every value is possible.
- 32-bit wrap-around of gold, kill counts, timers and distances is not modelled; integers are unbounded. A valid layout keeps distances below `int.MaxValue`.
- GetPath and ValidLayout use the layout's entry and exit, which the game takes from Constants; DefaultLayoutIsValid states that those constants form a valid layout.
- Card and tower assets are compared as values instead of by reference. Two different assets with equal contents would count as one card.
