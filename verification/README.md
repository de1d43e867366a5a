# Cloverfield turn planner

A model of the "cloverfield" strategy of a Terminal (C1 Summer 2022) game bot.
Each turn the bot reads a snapshot of the stationary structures on the 28-wide
diamond board and issues requests to the engine: spawns, upgrades and
removals. A turn runs in this order:

1. Rebuild what the previous turn removed.
2. Triage: remove our own structures whose health has fallen to 60% of their
   maximum or below, and remember them for the next turn.
3. Gap scan: a column-by-column wavefront over the opponent's half decides,
   per column, whether the opponent's frontier is open, and reduces that to
   two flags. `rightOpen` covers columns 0..13 and `leftOpen` columns 14..27.
4. Build (`cf_build_core`): a fixed layout every turn. Then, per open half,
   the interceptor path facing it is walled, and after turn 12 its four
   support blocks are built. A closed half gets its path cleared instead.
   After turn 20 the inner walls are upgraded.
5. Deploy (`cf_deploy_core`):
   - on turns up to 5 (turn 0 included) two demolishers are sent;
   - after that, nothing is sent against a fully closed defence;
   - otherwise interceptors go down the lanes facing the open halves, with
     escalation rounds after turn 10;
   - on a turn cadence, a burst of demolishers and a flood of scouts follows.

Two pure helpers of the "siphon" strategy are modelled as well: the side
filter over a location list, and the choice of side from last turn's losses.

Modules:

- `GameMap`: board, halves, snapshot.
- `Requests`: the request log, counting and reflection.
- `GapScanner`, `Triage`, `BuildPlanner`, `Deployment`, `Siphon`: one module
  per part of the strategy.
- `Turn`: the whole turn.

Engine calls become data:

- The snapshot is a map from cells to units.
- Every `attempt_spawn` / `attempt_upgrade` / `attempt_remove` is an entry in
  the returned request log.
- Whether the engine can afford a request, or places it, is not modelled.

Behaviour worth knowing:

- The burst cadence is `turn % (turn // 20 + 5) == 1`. So turns 21, 41 and 61
  send no burst, and turn 1 is in the opening branch (`CadenceExamples`).
- A structure at exactly 60% health is removed: the test is `<=`
  (`SixtyPercentIsRemoved`).
- The scanner checks the whole column whenever the full-scan flag is set,
  whatever candidates were passed along.
- In the side choice, losses in column 13 count for the left. The left filter
  (`x < 13`) does not include them (`SidesPartition`).
- The last right support block, `support_right_core4` at line 85, repeats
  (17, 9) where the reflection of the left block has (17, 8). The turn uses
  the table as written (`BuildCore`). The intended build stands beside it as
  `BuildCoreMirrored` (see "## Findings").

## Model

| member | source | states |
|---|---|---|
| GameMap.EnemyColumn | python-algo/algo_strategy.py:246 | the cells of column `x` that a full scan checks are exactly the opponent-half cells of that column |
| GameMap.FriendlyRow | python-algo/algo_strategy.py:45 | each row of FRIENDLY_MAP holds exactly the own-half cells of that row |
| GameMap.FriendlyRowsMembers | python-algo/algo_strategy.py:45 | rows y..0 of the map hold exactly the own-half cells at or below row y |
| GameMap.FriendlyMapIsFriendlyHalf | python-algo/algo_strategy.py:45 | FRIENDLY_MAP lists exactly the cells of our own half |
| Requests.MirrorCellInvolution | python-algo/algo_strategy.py:76-93 | reflecting a cell twice gives it back, and a cell is in our half (or the opponent's) iff its reflection is |
| Requests.MirrorCellsInvolution | python-algo/algo_strategy.py:76-93 | reflecting a cell list twice gives it back |
| Requests.MirrorLogInvolution | python-algo/algo_strategy.py:76-93 | reflecting a request log twice gives it back |
| Requests.MirrorLogCounts | python-algo/algo_strategy.py:76-93 | a reflected log spawns as many units of every kind as the log itself |
| Requests.MirrorInOwnHalf | python-algo/algo_strategy.py:45 | reflecting an own-half request keeps it in our own half |
| GapScanner.UpChain | python-algo/algo_strategy.py:263-266 | the upward chain walk only yields cells of the next column above its start |
| GapScanner.DownChain | python-algo/algo_strategy.py:267-270 | the downward chain walk only yields cells of the next column below its start |
| GapScanner.UpChainMembers | python-algo/algo_strategy.py:263-266 | (x+1, y') comes from the upward walk iff every row from the start up to y'-1 holds a structure |
| GapScanner.DownChainMembers | python-algo/algo_strategy.py:267-270 | (x+1, y') comes from the downward walk iff every row from y'+1 up to the start holds a structure |
| GapScanner.Successors | python-algo/algo_strategy.py:255-270 | every successor of a hit lies in the next column |
| GapScanner.SuccessorsMembers | python-algo/algo_strategy.py:255-270 | the successors of a hit are its three right-hand neighbours plus one cell past each cell of the vertical runs above and below it |
| GapScanner.NextCandidatesMembers | python-algo/algo_strategy.py:271-276 | the candidates handed on are exactly the successors of hits in rows 14 and up, without duplicates |
| GapScanner.AdvanceMembers | python-algo/algo_strategy.py:243-279 | the next column is fully scanned iff no checked cell is occupied, and a cell is carried iff it is in row 14 or above and succeeds an occupied checked cell |
| GapScanner.NoHitsNoCandidates | python-algo/algo_strategy.py:271-276 | without hits nothing is carried |
| GapScanner.AdvanceNoHits | python-algo/algo_strategy.py:243-279 | a column with no occupied checked cell hands a full scan and no candidates on |
| GapScanner.Scan | python-algo/algo_strategy.py:232-280 | the tail recursion over columns keeps a 28-entry openness vector |
| GapScanner.ScanIsSweep | python-algo/algo_strategy.py:232-280 | the scan is the generic column sweep driven by the board's column step |
| GapScanner.SweepKeepsPassedColumns | python-algo/algo_strategy.py:262 | the scan never changes a column it has passed |
| GapScanner.SweepKeepsClosedColumns | python-algo/algo_strategy.py:262 | a column marked closed stays closed |
| GapScanner.SweepFromReach | python-algo/algo_strategy.py:232-280 | started from the forward reference state, each later column ends open iff it was open and the next column is entered with a full scan |
| GapScanner.ScanKeepsClosedColumns | python-algo/algo_strategy.py:262 | a closed column stays closed through the scan |
| GapScanner.FullScanIffOpen | python-algo/algo_strategy.py:243-262 | column k+1 is fully scanned iff column k is open |
| GapScanner.ScanOpenIffNotClosed | python-algo/algo_strategy.py:222 | the scan started at column 0 with a full scan leaves column k open iff no cell it checks there holds a structure |
| GapScanner.ColumnOpenness | python-algo/algo_strategy.py:222 | each column of the computed vector is open iff it is not closed by the reference definition |
| GapScanner.CountTrue | python-algo/algo_strategy.py:223-226 | `count(True)` is positive iff some entry is true |
| GapScanner.HalfFlags | python-algo/algo_strategy.py:223-226 | rightOpen iff some column 0..13 is open, leftOpen iff some column 14..27 is open |
| GapScanner.ScanGaps | python-algo/algo_strategy.py:222-226 | the two half flags against the reference: a half is open iff one of its columns is not closed |
| GapScanner.EmptyHalfFrontier | python-algo/algo_strategy.py:243-279 | with an empty opponent half every column is entered with a full scan and no candidates |
| GapScanner.EmptyHalfAllOpen | python-algo/algo_strategy.py:222-226 | an empty opponent half leaves every column and both halves open |
| GapScanner.LoneFrontierBefore | python-algo/algo_strategy.py:243-279 | with a single structure in the opponent's half, whatever stands in ours, every column up to its own is fully scanned |
| GapScanner.LoneFrontierAfter | python-algo/algo_strategy.py:243-279 | with a single structure in the opponent's half, whatever stands in ours, every column from two past it onward is fully scanned again |
| GapScanner.LoneSuccessors | python-algo/algo_strategy.py:255-276 | a structure alone in the opponent's half hands on exactly its right-hand neighbours in rows 14 and up, even when our own structures stand below it |
| GapScanner.LoneCarried | python-algo/algo_strategy.py:243-279 | the column after a structure alone in the opponent's half checks exactly those neighbours |
| GapScanner.LoneStructureClosesOnlyItsColumn | python-algo/algo_strategy.py:232-280 | a single structure in the opponent's half closes its own column and no other, whatever stands in ours, so both halves stay open |
| Triage.MaxHealth | python-algo/algo_strategy.py:193-210 | the assumed maximum is defined iff the tag is recognised, and is one of 12, 30, 75, 120 |
| Triage.ShouldRemove | python-algo/algo_strategy.py:193-212 | the removal rule as health thresholds: wall 7, upgraded wall 72 unless it reports 12, support 18, turret 45; unknown tags are never removed |
| Triage.SixtyPercentIsRemoved | python-algo/algo_strategy.py:212 | exactly 60% is removed and one point more is kept; an upgraded wall reporting 12 is kept |
| Triage.StructuresOn | python-algo/algo_strategy.py:188-189 | the structures on a cell list are exactly those reported at its cells |
| Triage.TriageCells | python-algo/algo_strategy.py:190-214 | the destroy list holds exactly the worn-out standing structures, in walk order |
| Triage.TriageMembers | python-algo/algo_strategy.py:188-214 | a structure is destroyed iff it stands in our own half and is worn out |
| Triage.RemoveRequests | python-algo/algo_strategy.py:213-214 | one removal per destroyed structure, at its cell, in the same order |
| Triage.RebuildKind | python-algo/algo_strategy.py:166-176 | a rebuild kind exists iff the tag is recognised |
| Triage.RebuildOneDecodes | python-algo/algo_strategy.py:164-180 | reading back the requests for one remembered structure gives exactly its rebuild (kind, cell, upgrade), and nothing for an unknown tag |
| Triage.Known | python-algo/algo_strategy.py:164-176 | the recognised entries number at most the list |
| Triage.RebuildDecodes | python-algo/algo_strategy.py:164-180 | reading the rebuild requests back gives exactly the recognised entries, in order |
| Triage.RebuildStartsWithSpawn | python-algo/algo_strategy.py:177-180 | a non-empty rebuild log starts with a spawn |
| Triage.KnownAllRecognised | python-algo/algo_strategy.py:164-180 | a list with only recognised tags is rebuilt entry for entry |
| Triage.TriagedAreKnown | python-algo/algo_strategy.py:193-216 | every destroyed structure is rebuilt next turn with its own kind, cell and upgrade |
| BuildPlanner.SupportRequests | python-algo/algo_strategy.py:310-317 | two requests per block, exactly a spawn and an upgrade of each block |
| BuildPlanner.BuildCore | python-algo/algo_strategy.py:291-336 | the program's build, with the right blocks as line 85 writes them: the left path is walled iff rightOpen and cleared iff not; the right path is walled iff leftOpen and cleared iff not; the inner walls are upgraded iff turn > 20 |
| BuildPlanner.BuildPieces | python-algo/algo_strategy.py:291-336 | a build request is in the base, one of the two lanes or the late upgrade |
| BuildPlanner.LaneWallsOwnPath | python-algo/algo_strategy.py:307-333 | a lane walls only its own path, iff its half is open, and clears only its own path, iff its half is closed |
| BuildPlanner.LeftLaneIsExclusive | python-algo/algo_strategy.py:295-319 | the left path is walled iff rightOpen and cleared iff not |
| BuildPlanner.RightLaneIsExclusive | python-algo/algo_strategy.py:297-333 | the right path is walled iff leftOpen and cleared iff not |
| BuildPlanner.LateUpgradeOnlyLate | python-algo/algo_strategy.py:335-336 | the inner walls are upgraded iff turn > 20 |
| BuildPlanner.BaseMembers | python-algo/algo_strategy.py:292-304 | the fixed part walls a lane path exactly for the facing open half, and holds no removal and no late upgrade |
| BuildPlanner.LaneMembers | python-algo/algo_strategy.py:307-333 | a lane holds its wall or its removal, and the support spawns and upgrades exactly when open after turn 12 |
| BuildPlanner.PathsAreNotBlocks | python-algo/algo_strategy.py:76-85 | no support block of the tables as written is a lane path or the late upgrade list |
| BuildPlanner.SupportSpawnCount | python-algo/algo_strategy.py:310-317 | a block list issues one support spawn per block |
| BuildPlanner.LaneSupportCount | python-algo/algo_strategy.py:307-331 | a lane spawns one support per block iff open after turn 12 |
| BuildPlanner.SupportsAfterTwelve | python-algo/algo_strategy.py:291-336 | four support spawns per open half after turn 12, none before |
| BuildPlanner.BuildSupportCount | python-algo/algo_strategy.py:291-336 | the support spawns of a build with any right block list: four per open left lane, one per right block |
| BuildPlanner.BaseHasNoSupports | python-algo/algo_strategy.py:292-304 | the fixed part spawns no support |
| BuildPlanner.BuildCoreGrowsWithTurn | python-algo/algo_strategy.py:291-336 | with the same gap state, an earlier turn's build is a subsequence of a later one's |
| BuildPlanner.LaneGrows | python-algo/algo_strategy.py:307-333 | a lane's requests only grow with the turn |
| BuildPlanner.LayoutInOwnHalf | python-algo/algo_strategy.py:57-85 | every cell of the layout tables as written, and of the intended right blocks, lies in our own half |
| BuildPlanner.BaseInOwnHalf | python-algo/algo_strategy.py:292-304 | the fixed part names own-half cells only |
| BuildPlanner.LaneInOwnHalf | python-algo/algo_strategy.py:307-333 | a lane built from own-half parts names own-half cells only |
| BuildPlanner.BuildInOwnHalf | python-algo/algo_strategy.py:291-336 | every build request names own-half cells only |
| BuildPlanner.SupportRequestsMirror | python-algo/algo_strategy.py:310-331 | building reflected blocks issues the reflected requests |
| BuildPlanner.LaneBuildMirror | python-algo/algo_strategy.py:307-333 | a lane of reflected parts is the reflected lane |
| BuildPlanner.RightSupportsMirrorLeft | python-algo/algo_strategy.py:76-85 | the right path and the intended right blocks are the left ones reflected |
| BuildPlanner.LanesMirror | python-algo/algo_strategy.py:307-333 | with the intended right blocks, the right lane is the left lane reflected, for the same openness and turn |
| BuildPlanner.FixedLayoutIsSymmetric | python-algo/algo_strategy.py:57-74 | every fixed layout list contains the reflection of each of its cells |
| BuildPlanner.SupportRightCore4BreaksMirror | python-algo/algo_strategy.py:84-85 | the right blocks as written are not the left ones reflected: (17, 9) appears twice and (17, 8) never |
| BuildPlanner.AsWrittenLanesDiffer | python-algo/algo_strategy.py:322-331 | with the blocks as written, the right lane after turn 12 is not the reflected left lane |
| BuildPlanner.MirroredBuildReflectsLeftLane | python-algo/algo_strategy.py:291-336 | the intended build is the fixed part, the left lane, the left lane reflected for the other half's openness, and the late upgrade |
| BuildPlanner.AsWrittenBuildDiffers | python-algo/algo_strategy.py:322-331 | with both halves open on turn 13 the program's build differs from the intended one |
| Deployment.PySlice | python-algo/algo_strategy.py:425-430 | an in-range slice is the subsequence; any slice is no longer than the list and takes its elements from it |
| Deployment.InterceptorAt | python-algo/algo_strategy.py:413-430 | one interceptor at position `pos` of the right lane for any nonzero side, of the left lane for side 0 |
| Deployment.RotatingPos | python-algo/algo_strategy.py:361 | the escalation position is always 1, 2 or 3 |
| Deployment.BurstDemolishers | python-algo/algo_strategy.py:367 | a burst sends two to four demolishers |
| Deployment.DeployCore | python-algo/algo_strategy.py:338-345 | turns up to 5 send exactly two demolishers from the left slow spawn point; a fully closed defence gets nothing |
| Deployment.LanesMirror | python-algo/algo_strategy.py:87-93 | the right lane and the right spawn points are the left ones reflected |
| Deployment.BothOpenUsesMid | python-algo/algo_strategy.py:354-357 | the both-open opening interceptors are the mid positions of the two lanes |
| Deployment.RotationCoversLane | python-algo/algo_strategy.py:359-383 | any three consecutive rounds use all three positions |
| Deployment.RoundsMembers | python-algo/algo_strategy.py:359-363 | n rounds fire exactly one interceptor per side and round |
| Deployment.RoundCount | python-algo/algo_strategy.py:359-363 | a round spawns one interceptor per side |
| Deployment.RoundsCount | python-algo/algo_strategy.py:359-363 | n rounds spawn n interceptors per side |
| Deployment.InterceptorCount | python-algo/algo_strategy.py:338-411 | interceptors per turn: none early or when closed; with both halves open 2 + 2·min(2, t//15) after turn 10; with one half open 1 + min(4, t//12) after turn 10 |
| Deployment.AttackInterceptors | python-algo/algo_strategy.py:354-389 | an attacking branch spawns its opening interceptors plus one per side and round |
| Deployment.AttackInterceptorMembers | python-algo/algo_strategy.py:354-389 | every interceptor of a branch is an opening one or fired from one of its sides at a valid position |
| Deployment.InterceptorsFaceOpenHalves | python-algo/algo_strategy.py:338-411 | an interceptor is sent only after turn 5, on one cell of a lane facing an open half |
| Deployment.BothOpenInterceptor | python-algo/algo_strategy.py:346-363 | with both halves open every interceptor stands on one of the two lanes |
| Deployment.FiredFromLane | python-algo/algo_strategy.py:425-430 | side 0 fires on one cell of the left lane, any other side on one of the right lane |
| Deployment.BurstOnCadence | python-algo/algo_strategy.py:338-411 | one scout spawn and one burst demolisher spawn exactly on cadence turns of an attacking turn; the opening sends one demolisher spawn |
| Deployment.AttackBurst | python-algo/algo_strategy.py:365-369 | a branch spawns scouts once and demolishers once iff the turn is on the cadence |
| Deployment.NoOtherSpawns | python-algo/algo_strategy.py:354-383 | the interceptor part of a branch spawns nothing else |
| Deployment.ScoutSpawnPoint | python-algo/algo_strategy.py:365-409 | the burst leaves from the left spawn points iff the opponent's right half is open, from the right ones otherwise |
| Deployment.BurstGrows | python-algo/algo_strategy.py:367 | the burst grows with the turn: two before turn 20, three before 40, four after |
| Deployment.CadenceExamples | python-algo/algo_strategy.py:365 | the cadence on concrete turns: 6, 11, 16, 25, 31, 37, 43, 50, 57 and 65 fire; 21, 41 and 61 do not |
| Deployment.EarlyCadence | python-algo/algo_strategy.py:365 | before turn 20 the burst fires iff turn % 5 == 1 |
| Deployment.BurstMirror | python-algo/algo_strategy.py:365-409 | a burst from reflected spawn points is the reflected burst |
| Deployment.RoundsMirror | python-algo/algo_strategy.py:381-403 | rounds from reflected sides are the reflected rounds |
| Deployment.InterceptorMirror | python-algo/algo_strategy.py:425-430 | firing from the right lane is firing from the left lane, reflected |
| Deployment.DeployMirror | python-algo/algo_strategy.py:371-409 | after turn 5, the deployment against an open left half is the reflection of the one against an open right half |
| Deployment.LeftSideMirrors | python-algo/algo_strategy.py:379-403 | side 0's interceptors reflect to side 1's, the opening one included |
| Deployment.OneHalfBranches | python-algo/algo_strategy.py:371-409 | the one-half branches are the attack shape with their own lane, cap, period and spawn points |
| Deployment.AttackMirror | python-algo/algo_strategy.py:371-409 | an attacking branch reflects to the branch with reflected opening, sides and spawn points |
| Deployment.AttackRestIsBurst | python-algo/algo_strategy.py:365-409 | what a branch sends besides interceptors is its burst |
| Deployment.DeployInOwnHalf | python-algo/algo_strategy.py:338-411 | every deployment request names own-half cells only |
| Siphon.Filter | python-algo/algo_strategy.py:572-575 | the filtered list keeps exactly the matching entries, in order, each as often as it occurs in the input |
| Siphon.ExtractSideLocations | python-algo/algo_strategy.py:561-575 | side 0 keeps the list, side 1 keeps x > 13, side 2 keeps x < 13, any other side gives None; the result is a subsequence and keeps every matching entry as often as it occurs |
| Siphon.FilterConcat | python-algo/algo_strategy.py:572-575 | filtering distributes over concatenation |
| Siphon.FilterIdempotent | python-algo/algo_strategy.py:572-575 | filtering twice filters once |
| Siphon.ExtractSideConcat | python-algo/algo_strategy.py:561-575 | side extraction distributes over concatenation |
| Siphon.ExtractSideIdempotent | python-algo/algo_strategy.py:561-575 | extracting a side twice extracts it once |
| Siphon.SidesPartition | python-algo/algo_strategy.py:572-575 | the right part, the left part and column 13 together account for every entry |
| Siphon.RightLosses | python-algo/algo_strategy.py:505-509 | the right losses number at most the losses |
| Siphon.ReactiveSide | python-algo/algo_strategy.py:489-519 | side 0 iff no losses; side 1 iff strictly more losses on the right (x > 13) than elsewhere; otherwise side 2 |
| Turn.CloverfieldTurn | python-algo/algo_strategy.py:119-131 | the memory left holds exactly the worn-out own-half structures; the gap flags are the scan's; the requests use the build as written |
| Turn.MemoryForgetsPrevious | python-algo/algo_strategy.py:125 | the memory a turn leaves depends only on that turn's snapshot |
| Turn.RequestsStartWithRebuild | python-algo/algo_strategy.py:164-180 | whatever is destroyed and scanned, the requests open with the rebuild, which reads back to the remembered structures |
| Turn.TurnStartsWithRebuild | python-algo/algo_strategy.py:119-180 | a turn opens with the rebuild of its memory, which reads back to the recognised remembered structures |
| Turn.RemovedAreRebuiltNextTurn | python-algo/algo_strategy.py:164-216 | the next turn rebuilds exactly the structures this turn removed, each with its kind, cell and upgrade, in order |
| Turn.RequestsRemove | python-algo/algo_strategy.py:213-214 | every destroyed structure is removed by the turn's requests |
| Turn.WornStructuresRemoved | python-algo/algo_strategy.py:188-214 | every worn-out structure of our own half is removed during the turn |
| Turn.RebuildInOwnHalf | python-algo/algo_strategy.py:164-180 | rebuilding own-half structures names own-half cells only |
| Turn.RemoveRequestsInOwnHalf | python-algo/algo_strategy.py:213-214 | removing own-half structures names own-half cells only |
| Turn.PlanInOwnHalf | python-algo/algo_strategy.py:129-131 | the build and the deployment name own-half cells only |
| Turn.RequestsInOwnHalf | python-algo/algo_strategy.py:119-131 | own-half memory and destroy list give own-half requests only |
| Turn.DestroyListInOwnHalf | python-algo/algo_strategy.py:188-214 | the destroy list holds own-half structures only |
| Turn.TurnStaysInOwnHalf | python-algo/algo_strategy.py:119-131 | from own-half memory, a turn issues own-half requests only and leaves own-half memory |
| Turn.EmptyOpponentHalf | python-algo/algo_strategy.py:119-131 | against an empty opponent half both flags are open and both lane paths are walled |

## Left out

- Steps 1 and 2 of `cf_preflight` (lines 145-159): the destructive-interceptor counter and the enemy shield estimate. The counter is never read, because the loops using it are commented out. The estimate uses floats (`cf_calculate_support_power`, lines 282-289).
- `on_game_start`, `on_turn`, JSON config parsing and `on_action_frame`: engine glue. The unit kinds and layout tables appear as constants.
- Resource accounting: whether the engine can afford or place a request is decided inside gamelib, which is not part of this model. The model returns the requests in issue order.
- The random seed in `__init__` has no effect on the modelled core.
- `siphon_strategy`, `siphon_build_core_defences`, `siphon_repair_core_defences` and `siphon_enhance_defences`: they depend on attributes the source never defines. Only the side filter and the side choice of `siphon_build_reactive_defense` are modelled. Its call into `siphon_enhance_defences` becomes the returned side.
- The starter-strategy methods (lines 577-725) are not part of the strategy in use.
- GameMap.StationaryAt: the engine's query is modelled as a total function: off the board or on an empty cell it reports nothing.
- GapScanner.NextCandidates: the source turns its candidates into a deduplicated list in unspecified set order. The model keeps them as a set, because order does not change which cells are checked.
- Triage.ShouldRemove: health is a natural number and the float test `health / max <= 0.6` is stated as `5 * health <= 3 * max`. The two agree for integer health against these maxima.
- Diagnostics: the `gamelib.debug_write` logging (lines 165, 227-229, 277, 499-518) and the `game_state.warn` calls (lines 174, 208) have no effect on the requests and are not modelled.
- Deployment.DeployCore: the final `else: return` is unreachable (the four earlier tests, neither half open, both open, only the right open and only the left open, together cover every case) and has no counterpart.

## Findings

| source | as written | input that shows it | evidently intended | confidence | as-written member | corrected member |
|---|---|---|---|---|---|---|
| python-algo/algo_strategy.py:85 | `support_right_core4 = [[19, 8], [18, 8], [17, 9]]` | any turn > 12 with the opponent's left half open: the right lane requests (17, 9) twice (in blocks 3 and 4) and never (17, 8) | `[[19, 8], [18, 8], [17, 8]]`, the reflection of `support_left_core4 = [[8, 8], [9, 8], [10, 8]]`, like every other right-hand list | medium, not executed | BuildPlanner.BuildCore, the build the turn issues (shown by BuildPlanner.SupportRightCore4BreaksMirror, BuildPlanner.AsWrittenLanesDiffer and BuildPlanner.AsWrittenBuildDiffers) | BuildPlanner.BuildCoreMirrored with BuildPlanner.RightSupportCoresMirrored (proved by BuildPlanner.RightSupportsMirrorLeft, BuildPlanner.LanesMirror and BuildPlanner.MirroredBuildReflectsLeftLane) |
