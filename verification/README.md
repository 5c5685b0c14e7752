# GoCube: rules, cube surface, self-play and durable commits, verified

This project models the core of GoCube, a system that learns to play Go on the surface of a cube, and proves what its
parts promise each other. There are four components, one module per source file or per concern.

**Rules on an arbitrary graph** (`Topology`, `GoRules`, `GoMoves`, `GoEngine`, `GoInvariants`, `Scoring`,
`LibertyPlanes`, `Symmetry`). `GoRules` states the rules as functions of a position: groups by reachability, captures as the adjacent
opponent groups without liberties, suicide, positional superko, passes; `GoMoves` tells every move and every score
again by paths and neighbours alone. `GoEngine` and `Scoring` are the flood fills
and loops of the program, on stacks, sets and arrays, proved equal to those functions. `GoInvariants` proves that no
game ever shows a dead group and that superko ends every game; `LibertyPlanes` that the observation writer marks each
stone once; `Symmetry` that rules and scoring commute with every relabelling of the graph.

**The cube surface, for every n >= 2** (`CubeGeometry`, `CubeTopology`, `CubeBuild`, `CubeSurface`, `Distances`,
`CubeDistances`, `CubeCorners`, `CubeMatrices`, `CubeRotations`, `CubeSymmetry`). Points are embedded in space so that neighbours are
exactly the points at squared distance 2 (across a seam) or 4 (on one face). The in-place build, the seam search, the
distance search and the construction of the 24 rotations are proved against this geometry, and the rotations are then
shown to carry whole games and scores with them.

**Parallel self-play** (`SelfPlayMachine`, `SelfPlayProtocol`, `SelfPlayWorker`, `SelfPlayBroker`, `SelfPlayEngine`,
`SelfPlayProgress`, `SelfPlayTheorems`). One step relation covers the parent, the task queues, the cooperative workers
with their slots and leases, ingress, batching, gather, inference, scatter and responses. Games are deterministic
machines and inference is a function of one row. Every interleaving returns what playing each game alone returns; the
engine cannot deadlock, and its runs are bounded when the games are.

**A live game and its record** (`GameReplay`, `SelfPlayGame`, `TrainingTargets`, `RecordChecks`, `LiveTargets`). The
cooperative game is a class with the source's fields; what it hands out passes deep replay and gives consistent training
samples, and `RecordChecks` says exactly what deep replay accepts.

**Durable generations** (`ArtifactCatalog`, `GenerationCommit`, `CommitRecovery`, `CommitHistory`, `SupervisorSteps`,
`Supervisor`, `SupervisorTheorems`, `CommitFence`, `LineageHistory`, `FirstGeneration`, `TrainingTransaction`). Every
atomic file replacement is one step and the process may die before any of them, recovery included. `Supervisor` and
`TrainingTransaction` are the imperative programs, whose budget of remaining writes decides where they die.
`SupervisorSteps` is what the supervisor does from a given moment on, as functions; `SupervisorTheorems` says when it
restarts a driver, when it gives up, and that it gets through to its limit.

Facts the proofs brought to light, stated as lemmas:

- A request larger than the batch cap makes the broker fail the run. The configuration is safe from this for all games
  exactly when no worker's share exceeds the cap (`SelfPlayTheorems.EverySchedule`,
  `SelfPlayTheorems.OversizedCanFail`).
- The journal glob has four places, so a commit of generation 10000 or later that is interrupted is never recovered
  (`CommitHistory.RecoveryAgrees`, `CommitHistory.FiveDigitsAreMissed`).
- A result whose artifact omits its hash or its size is validated, because the check fills in what it finds, and
  journaled; the catalog then refuses it in the tail and in every recovery (`CommitHistory.UndeclaredIsJournaled`).
  `CommitHistory.RecoveryAgrees` says exactly which results recover.
- A result that lists one file twice with different additional fields is validated and journaled, but cannot enter the
  catalog, neither then nor in recovery (`CommitHistory.ConflictIsJournaled`).
- Reconciling an unfinished generation restores everything except the manifest's effective-config reference
  (`CommitFence.RestoredExactly`).
- Deep validation of a record replays boards, masks and turns but not the score, so it accepts records whose samples
  contradict themselves (`TrainingTargets.AcceptedButInconsistent`); exactly which is
  `TrainingTargets.AcceptedConsistentExactly`.
- A search result with an illegal action is appended to the trace before it is refused, so the technical record of
  such a game ends with an action the rules do not allow (`SelfPlayGame.CooperativeGame.FinishedReplays`).

Sequential code that changes lists, sets, arrays or files is a method with loop invariants, specified by a function
whose properties are the lemmas below; processes that interleave are steps of one state machine. Different file names
are taken to be different paths; no proof needs hashes to be free of collisions.

## Model

| member | source | states |
|---|---|---|
| Topology.ComponentByClosure | gocube_golden/rules.py:69-77 | the invariant every flood fill of the program ends with: a set that is linked to its start and closed under neighbours in the region is exactly the connected component |
| GoEngine.GroupOnStones | gocube_golden/rules.py:69-77 | the stack search returns exactly the maximal same-coloured region of the point (nothing for an empty point), defined by paths |
| GoEngine.LibertiesOnStones | gocube_golden/rules.py:87-91 | the set collected is exactly the empty points adjacent to the group |
| GoEngine.CollectCaptured | gocube_golden/rules.py:110-115 | whatever the neighbour order and the `checked` shortcut, the stones collected are exactly the union of the adjacent opponent groups left without a liberty |
| GoEngine.LiftStones | gocube_golden/rules.py:116 | in-place removal: captured points become empty, all others stay |
| GoEngine.ProbePointInPlace | gocube_golden/rules.py:104-126 | the probe on a provisional board decides occupied, capture, suicide, superko in this order and returns exactly the captures and the resulting board |
| GoEngine.Apply | gocube_golden/rules.py:147-166 | the imperative transition is the specified one, refusals and their reasons included |
| GoEngine.LegalPoints | gocube_golden/rules.py:168-183 | the ascending list of exactly the points whose move is not refused |
| GoEngine.PrepareLegalActions | gocube_golden/rules.py:168-183 | points, PASS and the mask agree with what applying each action would do, and a terminal state has no legal action at all |
| GoRules.FastEqualsReference | gocube_golden/rules.py:191-247 | the trusted fast path (membership index, unchecked child) and the validating reference give the same outcome for every action on every valid state, and legal children are valid again with an exact index |
| GoMoves.PointExactly | gocube_golden/rules.py:104-126 | a point move told by paths and neighbours alone: of the opponent exactly the stones linked through their colour to a neighbour of the point and, with the new stone placed, to no empty point disappear, nothing else changes; it is suicide iff the new stone is then linked to no empty point, superko iff the board was seen, and otherwise gives exactly this state |
| GoMoves.MoveSpares | gocube_golden/rules.py:110-116 | no stone of the mover and no opponent stone that is linked to an empty point, or to no neighbour of the point played, is lifted |
| GoMoves.OthersExactly | gocube_golden/rules.py:147-166 | passes and the four refusals that do not look at the board after the move, in full |
| GoMoves.LibertiesExactly | gocube_golden/rules.py:87-91 | the liberties of a stone are the empty points next to a point it is linked to through its colour |
| GoInvariants.MoveKeepsAlive | gocube_golden/rules.py:104-126 | capturing exactly the dead adjacent groups and then refusing suicide leaves no group without a liberty, if there was none before |
| GoInvariants.NoDeadGroups | gocube_golden/rules.py:104-126 | in every position every game can reach from the empty board each group has a liberty |
| GoInvariants.GameLedger | gocube_golden/rules.py:147-166 | along every game the state is valid and live, the history has one entry per point move plus the empty board, and the number of actions is bounded by the point moves and the current run of passes |
| GoInvariants.DistinctHistoryBound | gocube_golden/rules.py:121-124 | a superko history without repeats over P points has at most 3^P entries (boards are coded injectively below 3^P) |
| GoInvariants.SuperkoTerminates | gocube_golden/rules.py:121-166 | no game repeats a position, no game has more than 3^P - 1 point moves, and no game has more than 2 * 3^P actions |
| Scoring.EmptyComponent | gocube_golden/scoring.py:29-42 | the fill returns the connected empty region and exactly the colours reachable through empty points from its start |
| Scoring.RegionSharesOwner | gocube_golden/scoring.py:29-42 | all points of an empty region have one owner under the reachability definition, so deciding once per region is enough |
| Scoring.SettleTerritory | gocube_golden/scoring.py:45-98 | one pass with a shared seen set paints every empty point with the owner that reachability gives and counts each owner exactly |
| Scoring.ScoreTerminal | gocube_golden/scoring.py:45-98 | the routine refuses a state that is not terminal and otherwise returns the score read off point-wise reachability: an empty point is Black's iff a black and no white stone is reachable |
| GoMoves.ScoreExactly | gocube_golden/scoring.py:45-98 | the score told point by point: an empty point is owned by the one colour its empty region borders, and every number is the count of such points; the margin is black area minus white area minus komi |
| Scoring.AreasPartition | gocube_golden/scoring.py:84-98 | black area + white area + neutral points = number of points; each area is stones plus territory; only empty points are neutral |
| LibertyPlanes.FloodGroup | gocube_golden/cube_observation_v2.py:447-463 | with the visited set shared between groups, the fill still returns the whole group and all its liberties, because visited is always a union of whole groups |
| LibertyPlanes.WriteLiberties | gocube_golden/cube_observation_v2.py:442-471 | fails exactly on boards that hold a group without liberties; otherwise planes 7, 8, 9 (own) and 10, 11, 12 (opponent) gain a 1.0 at exactly the stones of that side whose group has one, two, three or more liberties, and no other entry changes |
| LibertyPlanes.MarkedOnce | gocube_golden/cube_observation_v2.py:442-471 | on planes that were zero each stone with a liberty is marked in one of the six and empty points in none |
| LibertyPlanes.GamesNeverLackLiberties | gocube_golden/cube_observation_v2.py:464-466 | the failure the writer guards against cannot occur in any position reached by play |
| Symmetry.PermutePoints | gocube_golden/cube_family.py:108-114 | the scatter loop puts each value at the image of its point, and refuses a wrong length |
| Symmetry.ComponentImage | gocube_golden/rules.py:69-77 | connected components are relabelled by any graph isomorphism |
| Symmetry.CapturedImage | gocube_golden/rules.py:110-116 | the captured stones are relabelled |
| Symmetry.RulesCommute | gocube_golden/rules.py:104-166 | for every adjacency-preserving permutation, state and action: rotating then playing the rotated action is playing then rotating - same refusal reason, or relabelled captures, board, superko history and turn |
| Symmetry.LegalSetImage | gocube_golden/rules.py:168-183 | the legal set of the rotated state is the image of the legal set |
| Symmetry.GamesCommute | gocube_golden/cube_family.py:516-532 | whole games commute with every isomorphism: a refused game stays refused, a played one ends in the rotated state |
| Symmetry.ScoreCommutes | gocube_golden/scoring.py:45-98 | ownership is permuted; stones, areas, territories, neutral points and the margin are unchanged |
| CubeGeometry.SeamTable | gocube_golden/cube_family.py:262-301 | the vector searches over the six frames (edge pointing outwards, face with that normal, edge pointing back, sign of the tangents) find for each of the 24 sides exactly the written-out partner |
| CubeGeometry.SeamsMeet | gocube_golden/cube_family.py:280-301 | deriving a seam from its other side gives the same seam, flipped consistently |
| CubeGeometry.CrossNear | gocube_golden/cube_family.py:288-299 | for every n, points of two faces sharing an edge are at distance 2 exactly when the seam pairs them, and never at the same-face distance |
| CubeGeometry.NeighborsAreNear | gocube_golden/cube_family.py:333-360 | for every n >= 2, the graph built from seams and face steps is the geometric one: near points are exactly the four side neighbours, and the squared distance is 2 exactly across a seam |
| CubeGeometry.NeighborsDistinct | gocube_golden/cube_family.py:333-360 | the four neighbours of a point are on the cube, different from each other and from the point |
| CubeTopology.PointIdInjective | gocube_golden/cube_family.py:249-251 | numbering by face, row and column is injective for every n |
| CubeTopology.DeriveSeams | gocube_golden/cube_family.py:280-301 | the nested search over faces and edges returns every seam, once, oriented from its first side |
| CubeTopology.TwelveSeams | gocube_golden/cube_family.py:280-301 | there are twelve of them |
| CubeTopology.DirectedSeams | gocube_golden/cube_family.py:322-330 | every side of every face is a key of the directed table, with the seam that starts there |
| CubeBuild.AddHalf | gocube_golden/cube_family.py:346-360 | appending or comparing one direction: the recorded relation never differs from the new one |
| CubeBuild.AddEdge | gocube_golden/cube_family.py:346-360 | both directions of an edge in place: the lists gain exactly this edge and the conflict branch is never taken |
| CubeBuild.VisitPoint | gocube_golden/cube_family.py:333-360 | the loop body for point k turns the edges among earlier points into the edges up to k, without a conflict |
| CubeBuild.BuildTopology | gocube_golden/cube_family.py:345-360 | for every n >= 2 the pass over the points ends without a conflict and its neighbour lists are exactly the geometric graph with the right relation labels |
| CubeSurface.FourNeighbors | gocube_golden/cube_family.py:380-400 | every point of the built graph has exactly four neighbours |
| CubeSurface.CubeGraphValid | gocube_golden/cube_family.py:383-388 | the degree, self-loop and reciprocity checks never fail: no loops, no repeats, symmetric edges, symmetric relation labels, degree four |
| CubeSurface.CubeConnected | gocube_golden/cube_family.py:380-400 | every point is reachable from every other, for every n >= 2 |
| CubeSurface.SeamEdgeCount | gocube_golden/cube_family.py:380-400 | exactly 12n undirected seam edges |
| Distances.CertificateIsDistance | gocube_golden/cube_family.py:310-319 | a labelling that is zero at the sources and changes by one along some and by at most one along all edges is the true shortest distance |
| Distances.ComputeDistances | gocube_golden/cube_family.py:310-319 | on any graph the queue search returns for each point the length of a shortest walk to the nearest source, and reports a disconnected graph exactly when some point has none |
| CubeDistances.CornerDistance | gocube_golden/cube_family.py:362-364 | the shortest distance to a face corner is min(r, l-r) + min(c, l-c) with l = n - 1, for every n >= 2 |
| CubeDistances.SeamDistance | gocube_golden/cube_family.py:362-364 | the shortest distance to a point with a seam relation is min(r, l-r, c, l-c) |
| CubeDistances.CubeDistancesOf | gocube_golden/cube_family.py:362-364 | from source lists with the face corners and the seam points as members, in any order, the two searches return the closed forms and never report a disconnected graph |
| CubeDistances.FamilyScales | gocube_golden/cube_observation_v2.py:156-159 | over sizes 2..7 the distances stay within 6 and 3, and size 7 reaches both |
| CubeCorners.CornerSits | gocube_golden/cube_family.py:304-307 | for every n each of the 24 face corners has one of eight sign vectors, given by face, row end and column end |
| CubeCorners.PhysicalCorners | gocube_golden/cube_family.py:335-343 | the loop files the face corners into eight physical corners of three different points each: exactly the points with that corner vector |
| CubeCorners.CornerSources | gocube_golden/cube_family.py:362 | flattening them gives exactly the face corners, the sources of the first search |
| CubeCorners.SeamSources | gocube_golden/cube_family.py:363 | the second source list is exactly the points with a seam relation |
| CubeCorners.BuildCube | gocube_golden/cube_family.py:333-377 | the whole build succeeds for every n >= 2 with the geometric graph, the physical corners and the point records |
| CubeCorners.PointTells | gocube_golden/cube_family.py:333-377 | what a point record says: its place, the physical corner that lists it, the sides of the face it lies on, whether a seam starts there, its class, and its shortest distances along the graph to the corner points and to the seam points |
| CubeCorners.ClassCounts | gocube_golden/cube_family.py:397 | for every n there are 24 corner, 24 (n - 2) edge and 6 (n - 2)^2 interior points |
| CubeCorners.CountClasses | gocube_golden/cube_family.py:466-469 | the counting loop over the point records returns these numbers |
| CubeCorners.ValidationPasses | gocube_golden/cube_family.py:380-400 | none of the checks of the finished cube can fail: degree, reciprocity, 12n seam edges, eight physical corners of three points, corner membership, connectedness |
| CubeMatrices.RotationRows | gocube_golden/cube_family.py:411-419 | a proper rotation is two perpendicular axes and their cross product, nothing else |
| CubeMatrices.RotationMatrices | gocube_golden/cube_family.py:411-419 | the double loop over axes finds every proper rotation exactly once, and there are 24 |
| CubeMatrices.ProductIsRotation | gocube_golden/cube_family.py:403-419 | rotations are closed under the matrix product |
| CubeRotations.RotateEmbeds | gocube_golden/cube_family.py:422-439 | for every n the frame case analysis always finds a face, row and column, and the rotated point sits where the matrix moves its position |
| CubeRotations.EmbedInjective | gocube_golden/cube_family.py:422-439 | positions of different points differ, for every n |
| CubeRotations.BuildRotation | gocube_golden/cube_family.py:422-439 | the permutation loop computes that map at every point; its mismatch error never occurs |
| CubeRotations.RotationIsAutomorphism | gocube_golden/cube_family.py:442-458 | each rotation permutes the points, preserves and reflects adjacency, and keeps same-face and seam labels |
| CubeRotations.RotationKeepsCorners | gocube_golden/cube_family.py:442-458 | corner, edge and distance classes are kept, and the cube corner a point sits at is rotated with it |
| CubeRotations.PhysicalCornersKept | gocube_golden/cube_family.py:442-458 | two corner points share a physical corner iff their images do |
| CubeRotations.ProductComposes | gocube_golden/cube_family.py:403-439 | the permutation of a matrix product is the composition of the permutations |
| CubeRotations.PermutationsDiffer | gocube_golden/cube_family.py:422-439 | different matrices give different permutations, for every n >= 2 |
| CubeRotations.BuildRotations | gocube_golden/cube_family.py:422-439 | all 24, numbered in order, one per rotation matrix, all different |
| CubeSymmetry.RotatedGames | gocube_golden/cube_family.py:516-532 | on every cube each of the 24 rotations commutes with every game and with the score of its last position, starting from the empty board |
| SelfPlayMachine.SoloRecordUnique | selfplay_engine.py:360-469 | playing one game alone, row by row, has at most one outcome: the reference point of the refinement |
| SelfPlayBroker.PendingQueue.Serve | selfplay_engine.py:589-660 | whatever arrives between two batches, the batches taken followed by what still waits are the requests in arrival order: none lost, none overtaken, no batch empty or above the cap |
| SelfPlayBroker.PendingQueue.TakeBatch | selfplay_engine.py:619-647 | the batch and the rest make up the queue, and the batch is the non-empty maximal FIFO prefix within the row cap |
| SelfPlayBroker.BatchUnique | selfplay_engine.py:619-647 | this rule determines the batch |
| SelfPlayBroker.FlatDistinct | selfplay_engine.py:662-741 | no two rows of the batches in dispatch share a place in the shared tensors |
| SelfPlayWorker.FreeWhenPlay | selfplay_engine.py:394-411 | a queued game always finds a free slot |
| SelfPlayWorker.WorkerStepKeeps | selfplay_engine.py:360-469 | each step of a worker keeps its games on their solo runs, keeps the ids it holds and never trips a check of its own (leased slot, foreign response, inactive context) |
| SelfPlayEngine.SetUp | selfplay_engine.py:860-925 | the set-up loops reach a proper initial state for every accepted configuration: the initial fill never takes from an empty queue and deals each id once |
| SelfPlayEngine.SharesSum | selfplay_engine.py:860-874 | the shares add up to the target and differ from the slot count by at most one |
| SelfPlayTheorems.ActiveWithinLimits | selfplay_engine.py:856-925 | in every state of every run: as many workers as configured but no more than games; the games queued, active or reported are at most the games given, a full worker each, and the configured total; no worker has more than its slots or its capacity; and while games wait one of the three limits is met exactly, loads differ by at most one, and every worker has as many slots as the largest load |
| SelfPlayEngine.ReportIsNew | selfplay_engine.py:1050-1052 | the duplicate-completion check cannot fire |
| SelfPlayEngine.StepInv | selfplay_engine.py:360-741 | every step of every process keeps the global invariant (accounts, solo states, written rows, lease and response discipline) |
| SelfPlayEngine.StartInv | selfplay_engine.py:876-925 | every initial state satisfies the global invariant |
| SelfPlayTheorems.EverySchedule | selfplay_engine.py:856-1062 | in every state of every interleaving each id is in exactly one of pending, queued, active, reported, completed; no worker exceeds its share; no internal error fires, also while the parent has not yet noticed a fatal broker; the broker drops a request only if some share exceeds the batch cap |
| SelfPlayTheorems.RowsInFlightAreFixed | selfplay_engine.py:236-268 | while a request is with the broker its input rows are not rewritten, and its output rows change only by storing the evaluation of that very row |
| SelfPlayTheorems.CompletedAreSolo | selfplay_engine.py:1037-1053 | every record the parent ever holds is the one of playing that game alone |
| SelfPlayTheorems.ParallelRefinesSequential | selfplay_engine.py:360-1101 | when all games are in, the returned tuple is, in id order, what sequential play gives, for every worker count, slot layout, batching and interleaving |
| SelfPlayTheorems.ConfigurationDoesNotMatter | selfplay_engine.py:360-1101 | two finished runs over the same ids return the same records whatever their configurations |
| SelfPlayProgress.NoDeadlock | selfplay_engine.py:990-1062 | while games are missing and the broker has not failed, some process can step |
| SelfPlayProgress.StepWorks | selfplay_engine.py:360-741 | if games end on their own, every step of every process uses up a measure of remaining work |
| SelfPlayTheorems.RunsAreBounded | selfplay_engine.py:990-1062 | so no schedule runs longer than the initial work |
| SelfPlayTheorems.MaximalRunsDeliver | selfplay_engine.py:990-1101 | total correctness: if games end, runs are bounded, and every run that cannot go on has returned the sequential records, with every worker process stopped, or dropped a request above the cap, which needs a share above the cap |
| SelfPlayTheorems.OversizedCanFail | selfplay_engine.py:619-647 | the converse: with a share above the cap and games that keep asking, a schedule exists from every start in which the broker goes fatal, so the cap condition is exact |
| SelfPlayTheorems.TwoGamesOneRow | selfplay_engine.py:856-874 | such a configuration is accepted: one worker with two games and a cap of one row |
| GameReplay.IndexRoundTrip | gocube_golden/cube_game_contract_v2.py:167-182 | action indices and rules actions are inverse to each other and each refuses exactly what the other never produces |
| GameReplay.HistoryAdvances | gocube_golden/cube_observation_v2.py:315-341 | along every legal move the context update passes all its checks and keeps the four boards equal to the last four plies of the trace, padded with the empty board |
| GameReplay.FourBoardHistory | gocube_golden/cube_observation_v2.py:286-341 | every legal trace has such a context |
| GameReplay.ValidateReplayedRecord | gocube_golden/cube_selfplay_v2.py:287-318 | the loop accepts a record iff the rules replay its trace from the empty board with the recorded sides, masks and actions, never past a terminal state, and completion, result and score fields fit the final state |
| RecordChecks.AcceptedExactly | gocube_golden/cube_selfplay_v2.py:287-318 | deep validation accepts exactly the legal games whose recorded sides alternate from Black, whose actions are those of the trace, whose masks mark exactly the actions the rules allow, and whose completion and score fields fit: a formal result with all fields iff the last two actions are passes |
| RecordChecks.OverExactly | gocube_golden/rules.py:147-166 | a legal game is over exactly when its last two actions are passes |
| RecordChecks.RefusedExactly | gocube_golden/cube_selfplay_v2.py:228-267 | the check without replay refuses a record exactly for one of the listed faults |
| SelfPlayGame.CooperativeGame.constructor | gocube_golden/cube_selfplay_v2.py:324-348 | a fresh game is the empty replay |
| SelfPlayGame.CooperativeGame.RecordResult | gocube_golden/cube_selfplay_v2.py:463-474 | recording a search result extends trace and positions together and keeps the masks legal iff the new one is |
| SelfPlayGame.CooperativeGame.MarkFormalTerminal | gocube_golden/cube_selfplay_v2.py:396-409 | two passes: the score of the final position is stored and the game is formal |
| SelfPlayGame.CooperativeGame.FinishOrMark | gocube_golden/cube_selfplay_v2.py:438-488 | a record the shallow check refuses is marked a worker error and built again, which never rescues it; a lawful game is not touched |
| SelfPlayGame.CooperativeGame.Conclude | gocube_golden/cube_selfplay_v2.py:478-483 | after an accepted action a double pass ends the game formally even on the last allowed ply; otherwise the limit makes it technical |
| SelfPlayGame.CooperativeGame.PlayResult | gocube_golden/cube_selfplay_v2.py:438-488 | one search result: played, refused after being recorded, or refused before; a lawful result never ends in a worker error, and two passes never in a move limit |
| SelfPlayGame.CooperativeGame.FinishedReplays | gocube_golden/cube_selfplay_v2.py:355-394 | a finished game's record passes deep replay iff the search was lawful throughout, and then the shallow check too |
| SelfPlayGame.CooperativeGame.Advance | gocube_golden/cube_selfplay_v2.py:438-488 | asks for exactly the row its session shows and never loses an evaluation; the trace never exceeds the limit; with a search that returns the legal mask and legal actions every record handed out passes deep replay, and only a failing search makes a worker error |
| SelfPlayGame.CooperativeGame.Resume | gocube_golden/cube_selfplay_v2.py:490-500 | an evaluation goes into the session as the search takes it, or makes the game a worker error exactly when the search raises; nothing else changes; the call is refused exactly when the game is unfinished and waits for none |
| SelfPlayGame.CooperativeGame.Begin | gocube_golden/cube_selfplay_v2.py:416-446 | a search starts on the tree, position, history and ply the game is at, unless the limit is reached or the start raises |
| SelfPlayGame.CooperativeGame.Converse | gocube_golden/cube_selfplay_v2.py:438-500 | over a whole conversation of advances and resumes no evaluation is lost or used twice, and the game stops asking only when it is over |
| SelfPlayGame.EvaluationsDecide | gocube_golden/cube_selfplay_v2.py:438-500 | two games that played the same evaluations agree in actions, positions, tree and session: what was asked and answered decides everything |
| SelfPlayGame.TerminalByTwoPasses | gocube_golden/cube_selfplay_v2.py:305-307 | a replay ends only with two passes at the end of the trace |
| TrainingTargets.ProjectOwnership | gocube_golden/cube_game_contract_v2.py:350-363 | labels from the mover's side, point by point |
| TrainingTargets.BuildFormalSamples | gocube_golden/cube_training_targets.py:111-162 | technical and unscored records give nothing; a formal one gives a sample per ply, built on the replayed positions, iff masks, actions and the double pass replay and the ownership has one entry per point |
| RecordChecks.TargetsExactly | gocube_golden/cube_training_targets.py:111-162 | the target builder accepts exactly the legal games that end in two passes with the masks and actions as played; it does not look at the recorded sides |
| RecordChecks.SampleExactly | gocube_golden/cube_training_targets.py:124-160 | one sample in full: recorded mask, action and ply, labels, result and score as the side to move sees them, and the normalized score is the exact one over points plus the size of komi |
| TrainingTargets.DeepRecordsBuild | gocube_golden/cube_training_targets.py:111-162 | every formal record deep validation accepts has its samples |
| TrainingTargets.SidesAlternate | gocube_golden/cube_training_targets.py:124-160 | the side to move after k plies is decided by the parity of k |
| TrainingTargets.OwnersCounted | gocube_golden/scoring.py:84-98 | the areas of a score are the counts in its ownership |
| TrainingTargets.ConsistentExactly | gocube_golden/cube_training_targets.py:124-160 | all samples of a record agree with themselves - alternating sides, #own - #opponent with komi on the right side equal to the exact score, WDL class its sign, normalized score within one - iff the ownership has one entry per point, the margin is black minus white minus komi, and the result is its sign |
| TrainingTargets.AcceptedConsistentExactly | gocube_golden/cube_training_targets.py:111-162 | for formal records deep validation accepts, this condition on the score fields is the whole difference |
| TrainingTargets.AcceptedButInconsistent | gocube_golden/cube_selfplay_v2.py:304-313 | on every graph and for every komi there is a record deep validation accepts and the builder turns into samples none of which agrees with itself |
| TrainingTargets.SamplesAreConsistent | gocube_golden/cube_training_targets.py:124-160 | the score of the final position fits, so a record that carries it gives consistent samples |
| LiveTargets.FinishedCarriesScore | gocube_golden/cube_selfplay_v2.py:396-409 | a formally finished live game replays for the target builder and carries the score of its own last position, told point by point: owners, both areas, neutral points, margin and winner |
| LiveTargets.SamplesOfGame | gocube_golden/cube_training_targets.py:111-162 | the whole chain: the record of a formally finished live game gives one sample per ply, each consistent, numbered from one, with the actions of the trace and the masks of the positions |
| TrainingTargets.ScoreIsNotReplayed | gocube_golden/cube_selfplay_v2.py:304-313 | what deep validation does not check: ownership and margin of an accepted formal record can be replaced by anything of the right length |
| ArtifactCatalog.ReferencedPaths | gocube_golden/artifact_catalog.py:228-236 | exactly the paths some remaining generation references |
| ArtifactCatalog.ArtifactCatalog.RegisterGeneration | gocube_golden/artifact_catalog.py:166-219 | all or nothing: a refused registration leaves the catalog as it was |
| ArtifactCatalog.ArtifactCatalog.DiscardGeneration | gocube_golden/artifact_catalog.py:221-242 | the loop removes the generation and exactly the entries only it referenced |
| ArtifactCatalog.ArtifactCatalog.Verify | gocube_golden/artifact_catalog.py:244-258 | succeeds iff every path is safe, committed, present and matches its recorded size and hash, and returns those hashes; a failure names the first fault of the first bad path |
| ArtifactCatalog.PathExactly | gocube_golden/artifact_catalog.py:39-44 | a path is refused exactly when it starts with a slash, has ".." among its segments or has none that counts; otherwise it is its segments without the empty ones and the dots |
| ArtifactCatalog.Segments | gocube_golden/artifact_catalog.py:39-44 | every string is such a list of segments, so this covers every path |
| ArtifactCatalog.CheckedExactly | gocube_golden/artifact_catalog.py:166-199 | one artifact passes exactly when it is an object with a safe path, a SHA-256 hash, a size that is not negative, and a file of that size; its identity is what it declares |
| ArtifactCatalog.RegistrationExactly | gocube_golden/artifact_catalog.py:166-219 | a successful registration adds the listed paths with the identities declared and the record of the generation, and nothing else |
| ArtifactCatalog.RegistrationSucceeds | gocube_golden/artifact_catalog.py:166-219 | registration succeeds iff all artifacts are well-formed, no path gets two identities, and the generation is new or recorded exactly like this |
| ArtifactCatalog.RegistrationKeeps | gocube_golden/artifact_catalog.py:166-219 | the entries stay the union of what generations reference, and no recorded identity or generation changes |
| ArtifactCatalog.RegistrationIsIdempotent | gocube_golden/artifact_catalog.py:206-219 | registering the same generation again changes nothing |
| ArtifactCatalog.DiscardKeeps | gocube_golden/artifact_catalog.py:221-242 | the union property and all other generations survive a discard |
| ArtifactCatalog.DiscardRestores | gocube_golden/artifact_catalog.py:221-242 | discarding a generation just registered for the first time restores the exact previous catalog, shared paths included |
| ArtifactCatalog.EveryHistory | gocube_golden/artifact_catalog.py:129-242 | over every sequence of registrations and discards, refusals included, entries equal the union of all generations' paths and identities do not change while referenced |
| GenerationCommit.GlobSees | gocube_golden/orchestrator.py:559-561 | the transaction glob matches generation g iff g <= 9999 |
| CommitRecovery.PendingIs | gocube_golden/orchestrator.py:559-590 | of all committed transactions beyond the manifest at most the last one exists, and recovery collects it iff it has four digits |
| CommitRecovery.CheckpointsMerged | gocube_golden/orchestrator.py:690-732 | the recovered manifest holds the checkpoint hashes of every settled generation: the merge never overwrites one with another value |
| CommitRecovery.RecoveryDemands | gocube_golden/orchestrator.py:527-739 | on any disk whatever, an interrupted commit is finished only if the committed transactions beyond the manifest are of this schema and profile with proper hashes, follow the manifest without a gap, nothing is ahead of them, and the catalog and the files have each of them as the journal does; then manifest and state name the last one and the state is RECOVERY_REQUIRED |
| CommitRecovery.OnlyUndrifted | gocube_golden/orchestrator.py:609-682 | whatever a reconciliation writes, refused or not, it only adds pending generations whose result still validates with the hashes of the journal |
| CommitRecovery.RefusedResult | gocube_golden/orchestrator.py:896-955 | a driver result is refused exactly when it is incomplete, names nothing, or names something that is no safe path, not there, or not the file it declares |
| CommitHistory.EventKeeps | gocube_golden/orchestrator.py:1418-1475 | no single durable write, in whatever order crashes and resumed drivers arrange them, breaks the commit invariant or takes back a committed generation; uncommitted files may be rewritten or removed at any attempt |
| CommitHistory.RewrittenTells | gocube_golden/production_orchestrator.py:448-455 | what a driver may have done to a file: nothing to a committed one, anything to another |
| CommitHistory.HistoryInv | gocube_golden/orchestrator.py:1418-1475 | so every disk of every history satisfies it, and the last committed generation never decreases |
| CommitHistory.TailPrefix | gocube_golden/production_orchestrator.py:471-494 | a crash after any number of writes of the commit tail leaves the invariant, and the complete tail leaves journal, catalog, state and manifest in agreement |
| CommitHistory.RecoveryPrefix | gocube_golden/orchestrator.py:527-739 | a crash after any number of recovery writes leaves the invariant and the journal, and the next recovery ends on the same disk |
| CommitHistory.SecondRecoveryIsIdle | gocube_golden/orchestrator.py:527-739 | a recovery of an agreed disk finds nothing to do |
| CommitHistory.RecoveryAgrees | gocube_golden/orchestrator.py:527-739 | recovery ends in agreement on the last committed generation iff nothing is under way, or the generation under way has at most four digits, every artifact declares its hash and size, and no path gets two identities; the journal is never touched |
| CommitHistory.CrashThenRecover | gocube_golden/orchestrator.py:527-739 | after a crash anywhere in any history, resumed drivers included (four digits, both fields declared, one identity a path): everything agrees, no COMMITTED generation is dropped, no RUNNING or FAILED one is promoted, and a second recovery changes nothing |
| CommitHistory.FiveDigitsAreMissed | gocube_golden/orchestrator.py:559-561 | generation 10000: a crash right after its journal write leaves a committed transaction that recovery does not see |
| CommitHistory.ConflictIsJournaled | gocube_golden/production_orchestrator.py:471-484 | a result listing one file twice with different further fields passes validation and is journaled, but can be neither registered nor recovered |
| CommitHistory.UndeclaredIsJournaled | gocube_golden/orchestrator.py:896-911 | a result whose artifact leaves out its hash or its size passes validation and is journaled; the catalog refuses it in the tail and in recovery |
| CommitHistory.Registrable | gocube_golden/artifact_catalog.py:166-219 | for a validated result, registration succeeds iff every artifact declares both fields and no path gets two identities |
| CommitHistory.ArenaBeforeProgress | gocube_golden/orchestrator.py:1388-1416 | whenever a history opens the transaction of g + 1, every due generation in (origin, g] has its Arena recorded, over all crashes, stops and resumes |
| CommitHistory.ArenaDueExactly | gocube_golden/orchestrator.py:1411-1416 | an Arena is due at the origin plus one interval, plus two, and so on |
| Supervisor.Supervisor.constructor | gocube_golden/orchestrator.py:455-525 | a created lineage satisfies the invariant |
| Supervisor.Supervisor.ReconcileOne | gocube_golden/orchestrator.py:620-682 | one pending generation: compared with its catalog record, or registered from its validated result and compared |
| Supervisor.Supervisor.ReconcileCatalog | gocube_golden/orchestrator.py:609-682 | the loop over pending generations writes exactly the catalogs the specification says, as many as there are writes for |
| Supervisor.Supervisor.RecoverInterruptedCommit | gocube_golden/orchestrator.py:527-739 | the method performs the specified recovery, or exactly as many of its writes as the process lives for; a refusal is reported |
| Supervisor.Supervisor.NextSignal | gocube_golden/orchestrator.py:1490-1496 | the outcome of the running child is the first one to come; a stop request made before it is recorded, and nothing durable of the lineage changes |
| Supervisor.Supervisor.PollStop | gocube_golden/orchestrator.py:832-835 | between units a stop request is seen exactly when it is there |
| Supervisor.Supervisor.LeaveFiles | gocube_golden/production_orchestrator.py:448-455 | a driver without a result may have rewritten any uncommitted file; the lineage stays sound and the generation can be opened again |
| Supervisor.Supervisor.SetRunStatus | gocube_golden/orchestrator.py:772-778 | a status write changes nothing else |
| Supervisor.Supervisor.RunArena | gocube_golden/orchestrator.py:1358-1386 | the Arena is recorded exactly when it was configured and passed; a failure raises and leaves the manifest alone |
| Supervisor.Supervisor.EnsurePendingArena | gocube_golden/orchestrator.py:1388-1402 | after it a due Arena of the last committed generation is recorded; nothing happens when none is missing |
| Supervisor.Supervisor.CommitTail | gocube_golden/production_orchestrator.py:471-494 | the disk is the one after the first four writes of the tail, or after as many as the process lives for; a registration the catalog refuses raises after the first; the lineage is sound |
| Supervisor.Supervisor.Launch | gocube_golden/production_orchestrator.py:433-447 | the transaction becomes RUNNING with its restart count only when no due Arena is missing |
| Supervisor.Supervisor.Exit | gocube_golden/production_orchestrator.py:448-455 | exit code 0 publishes the result; a failure marks the transaction FAILED, if the process lives to write it |
| Supervisor.Supervisor.Attempt | gocube_golden/production_orchestrator.py:433-455 | one attempt leaves exactly the RUNNING or FAILED transaction of this attempt |
| Supervisor.Supervisor.RunGeneration | gocube_golden/production_orchestrator.py:409-511 | does exactly what the specified generation does from this moment on (attempts, validation, commit, checks, Arena); the lineage stays sound |
| Supervisor.Supervisor.Drive | gocube_golden/production_orchestrator.py:430-462 | the attempt loop is the specified one: the driver is started again after a failure while restarts are left |
| Supervisor.Supervisor.TakeTurn | gocube_golden/orchestrator.py:1516-1563 | one turn of the run loop: a stop request first, then a missing Arena, the generation limit, a generation; a raise marks the state RECOVERY_REQUIRED |
| Supervisor.Supervisor.Run | gocube_golden/orchestrator.py:1484-1563 | from any disk a history can leave: does exactly what the specified run does; the lineage stays sound whatever happens; a stop request in force opens nothing; it ends SOFT_STOPPED only on a request, COMPLETED only at the limit with its due Arena recorded |
| Supervisor.Supervisor.PrepareResume | gocube_golden/orchestrator.py:793-812 | success means recovered (or beyond four digits), strictly loadable, stop request cleared, state CREATED |
| Supervisor.Supervisor.Live | gocube_golden/orchestrator.py:1484-1563 | over all lives of the process - each with its own outcomes, death and resume - the lineage stays sound: every invariant of the commit and of the Arenas, and nothing committed is lost |
| Supervisor.RecoveryIsSound | gocube_golden/orchestrator.py:527-739 | however far a recovery got, journal and recorded Arenas are untouched and the lineage is sound |
| SupervisorTheorems.AttemptsExactly | gocube_golden/production_orchestrator.py:430-462 | the attempts in closed form, for every sequence of child outcomes and every number of writes left: with more failures ahead than restarts left the transaction ends FAILED with all restarts counted, otherwise the success after them counts |
| SupervisorTheorems.GenerationExactly | gocube_golden/production_orchestrator.py:409-511 | how a generation ends, in closed form over everything that can come |
| SupervisorTheorems.RaisedOnlyIf | gocube_golden/production_orchestrator.py:409-511 | a generation gives up only if it may not be resumed, its driver failed more often than it may be restarted, its result does not validate, the catalog cannot take it, the checks after the commit object, or the due Arena is missing or does not pass |
| SupervisorTheorems.GenerationCommits | gocube_golden/production_orchestrator.py:409-511 | with drivers that succeed within the restarts left, writes enough and no Arena due, the generation is finished: the manifest and the catalog have it, and the journal counts the restarts of all processes together |
| SupervisorTheorems.RunCompletes | gocube_golden/orchestrator.py:1484-1563 | a run whose drivers and Arenas succeed within their limits ends COMPLETED on exactly the disk the commits lead to, over any number of generations |
| SupervisorTheorems.EndDiskIs | gocube_golden/orchestrator.py:1484-1563 | that disk: every generation up to the limit committed, the earlier journal untouched, the restarts of the first one counted across processes, no due Arena missing, catalog, state and manifest in agreement |
| SupervisorTheorems.RaisedIsMarked | gocube_golden/orchestrator.py:1558-1563 | a run loop that raises has marked the state RECOVERY_REQUIRED, unless the process died on that write |
| SupervisorTheorems.RunNeedsResume | gocube_golden/orchestrator.py:1503-1508 | a lineage that stopped, completed or needs recovery, or whose interrupted commit was just finished, is not run without an explicit resume: nothing is opened |
| SupervisorTheorems.ResumeNeedsStop | gocube_golden/orchestrator.py:793-812 | a running lineage is not reopened; a resume that goes through leaves it CREATED without a stop request |
| SupervisorTheorems.ResumeReady | gocube_golden/orchestrator.py:793-812 | resuming the disk any crash leaves succeeds, finishes the interrupted commit, withdraws the stop request and leaves the state CREATED, under the exact recovery condition |
| SupervisorTheorems.CrashResumeRun | gocube_golden/orchestrator.py:1484-1563 | crash anywhere, resume, run on: what was committed stays as it was and the run completes the next k generations |
| CommitFence.PublishShape | gocube_golden/artifact_graph.py:340-460 | at every prefix of the 18 writes only names of this generation differ from before, manifest and catalog are the old ones or extended by it, and the marker exists only after the last write |
| CommitFence.RegistrationGoesThrough | gocube_golden/artifact_graph.py:440-459 | once the eight files are in place the catalog accepts the generation |
| CommitFence.PreparedAtFence | training_engine.py:696-756 | before the marker rename all files, manifest and catalog entries are in place with matching hashes |
| CommitFence.MarkerCommits | gocube_golden/artifact_graph.py:463-609 | on such a disk the rename makes the generation validate |
| CommitFence.CommitFence | gocube_golden/artifact_graph.py:463-609 | at every publication prefix the generation validates iff the marker rename has happened |
| CommitFence.PublishedExactly | gocube_golden/artifact_graph.py:340-460 | what a completed publication leaves, document by document: artifacts, marker, provenance and node naming each other by their hashes, the manifest's new entries, and the catalog record with the hash and size of each of the eight files |
| CommitFence.ValidatesExactly | gocube_golden/artifact_graph.py:463-609 | with marker and graph files in place a generation validates exactly as long as each of the six artifacts and the configuration has the hash published and manifest and catalog record the checkpoint's |
| CommitFence.ValidatedChain | gocube_golden/artifact_graph.py:463-609 | whatever validates is a chain: marker named by the provenance by its hash, provenance named by the node by its hash, one checkpoint, parent, replay and configuration in both |
| CommitFence.EarlierStillValidate | gocube_golden/artifact_graph.py:463-609 | every earlier generation that validated still does, at every prefix |
| CommitFence.RollbackBeforeFence | training_engine.py:792-802 | after an exception before the fence no temporary or final file of the generation is left, it does not validate, the earlier ones do, and reconciliation still restores the disk |
| CommitFence.ReconcileUndoesPublication | gocube_golden/orchestrator_v2/generation_recovery.py:105-232 | a crash at any write before the fence is undone: files, catalog, hashes and commits are exactly as before; only the effective-config reference may be the new one |
| CommitFence.RestoredExactly | gocube_golden/orchestrator_v2/generation_recovery.py:186-232 | the disk comes back unchanged iff the manifest write had not happened or the configuration was already this one |
| CommitFence.FenceIsFinal | gocube_golden/orchestrator_v2/generation_recovery.py:121-123 | with the marker in place reconciliation leaves the generation alone |
| CommitFence.RefusedExactly | gocube_golden/orchestrator_v2/generation_recovery.py:105-184 | a reconciliation is refused exactly for a generation without a marker with a foreign lineage, anything of a later generation, a foreign graph file or marker reference, or catalog entries not bound to it |
| CommitFence.RemovedExactly | gocube_golden/orchestrator_v2/generation_recovery.py:186-232 | a removal takes exactly the generation's files, its checkpoint hash and commit entry, and its catalog record with the entries no other generation refers to |
| CommitFence.InterruptedReconciliation | gocube_golden/orchestrator_v2/generation_recovery.py:186-232 | a reconciliation that dies after any of its writes is finished by the next one, with the same disk |
| CommitFence.CrashReconcileRetry | gocube_golden/orchestrator_v2/generation_recovery.py:105-232 | publication dies at any write, reconciliation dies at any write, a second one finishes: the retry validates and so do all earlier generations |
| LineageHistory.AttemptKeeps | training_engine.py:696-802 | one attempt - committed, killed or rolled back at any write, then reconciled with another death in between - leaves all earlier generations valid and nothing of the next one on disk |
| LineageHistory.CommittedValidate | gocube_golden/orchestrator_v2/cube_production_recovery.py:17-30 | over every life of a lineage the generations that validate between attempts are exactly those whose marker was renamed |
| LineageHistory.EveryWrite | gocube_golden/artifact_graph.py:463-609 | and at every single write of every attempt: exactly the committed ones, plus the one under way iff its marker is in place |
| FirstGeneration.FreshHistory | gocube_golden/artifact_graph.py:340-460 | such lives exist: with plain file names a fresh lineage can lose its first generation to a crash and publish it again |
| TrainingTransaction.Lineage.RunIteration | training_engine.py:323-802 | on any disk: refuses when a final artifact exists; commits exactly when all eighteen writes happen; otherwise gives the trainer its state back and leaves the rolled-back disk; when it is the generation's turn only an exception stops it, and graph files of an earlier attempt, a foreign parent or lineage always do |
| TrainingTransaction.Lineage.WriteTemporaries | training_engine.py:323-696 | the temporary files and marker, up to an exception |
| TrainingTransaction.Lineage.RenameArtifacts | training_engine.py:697-706 | the six renames, up to an exception; each finds its temporary file |
| TrainingTransaction.Lineage.WriteImmutable | gocube_golden/artifact_graph.py:312-319 | an immutable file is written once: the same content again is no write, other content is refused |
| TrainingTransaction.Lineage.PrepareCommit | gocube_golden/artifact_graph.py:359-460 | provenance, node, manifest and catalog in this order, up to an exception or a refusal; unhindered it only stops at an exception, obstructed it never reaches the manifest |
| TrainingTransaction.Lineage.PutMarker | training_engine.py:754-756 | the fence: the waiting marker gets its final name |
| TrainingTransaction.Lineage.Unlink | training_engine.py:792-802 | exactly the listed names are gone |
| TrainingTransaction.Lineage.ReconcileUncommitted | gocube_golden/orchestrator_v2/generation_recovery.py:105-232 | performs the specified reconciliation; leaves the disk alone when the marker exists or a check refuses, and reports which; reports whether anything changed |
| TrainingTransaction.Lineage.CheckReconcile | gocube_golden/orchestrator_v2/generation_recovery.py:123-184 | the checks as computed over names and paths decide exactly the refusal condition |

## Left out

- PUCT search, networks, losses, optimizers and CUDA: the search is a deterministic function of what it was given, inference a function of one row.
- Captured points: kept as a set; the source sorts them into a tuple.
- Komi, margins and scores: real numbers, so rounding of floating-point values is not modelled.
- Sizes outside 2..7: the source refuses them; the cube results hold for every n >= 2, which includes the supported ones.
- `permute_topology`, state serialization and the cached fingerprints of topologies and rotations: identity checks over stored constants.
- The observation tensor apart from the liberty planes and the four-board history: constant planes and copies.
- The thread-and-lane worker path of the self-play engine: the shared-memory path is the production one.
- SelfPlayWorker.WorkerStepKeeps: worker loop, ingress and dispatcher are steps on values, because they interleave; writing a shared tensor row is the step that replaces that row. The pending queue and the set-up are methods.
- CubeCorners.BuildCube: seam identifiers, the number of seam neighbours of a point and the sorting inside a physical corner are not kept; the sides of a point stand for its incident seams.
- Timeouts, dead processes, failing games or inference, and stop events of the broker: the self-play results are about runs in which no process is killed and inference returns; a failed run raises and returns nothing.
- Batch waiting time: the dispatcher may take a batch at any moment, which covers every timing.
- `game_started` events and telemetry counters: they do not influence which game runs where.
- An empty id list and non-positive settings: the engine returns or refuses before it starts anything.
- Game ids: given as a sequence of distinct ids already in the order the engine sorts them into.
- GameReplay.ValidateReplayedRecord: the initial state of a record is the empty board with the contract's komi, which is what the game class writes; visit counts, policy values, seeds and fingerprints of positions are not part of the model.
- SelfPlayGame.CooperativeGame.Advance: the checks of simulation counts and the sampling from visits are inside the search function, which either fails or returns a mask and an action.
- ArtifactCatalog.ArtifactCatalog.RegisterGeneration: generation keys are numbers and the file is replaced as a whole; malformed JSON and the catalog's self-fingerprint are not modelled.
- Committed files: a path the catalog recorded keeps its content, as the immutable-artifact policy of the repository demands; all other files a driver may rewrite or remove.
- CommitHistory.CrashThenRecover: the excluded cases are exactly the ones in which recovery fails, see CommitHistory.RecoveryAgrees for both directions.
- Supervisor.Supervisor.RunGeneration: reports, heartbeats and how the metric, performance and learning-stall checks compute their verdict are not modelled; the verdict is a field of the result.
- Supervisor.Supervisor.RunArena: the Arena is required; the setting in which a missing Arena command is skipped, and the operator policy that replaces these methods, are not modelled.
- Supervisor.Supervisor.NextSignal: the process lock, signal handlers and health sampling are not modelled.
- CommitFence.CommitFence: the checks of architecture, game and replay contracts inside the effective configuration appear as one immutable reference with its hash.
- LineageHistory.CommittedValidate: every unfinished attempt is reconciled before the next one, as the Cube recovery path does before it trains again; the paths of other topologies are not part of this model.
- TrainingTransaction.Lineage.RunIteration: training itself is a given new trainer state; work that raises before the first write is an exception with no write done.
- TrainingTransaction.Lineage.ReconcileUncommitted: names are structured values, so a file whose name merely looks like a generation's is a different name; malformed JSON is not modelled.
- `artifact_resolver.py`: bounded walks over parent links, each a short loop over one chain.
- `policy_surprise.py`: prefix sums over floating-point weights and library binary search.
- `operator_policy.py`, health policies, reports, locks, git and process control: no property beyond their single checks.
