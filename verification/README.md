# iSnipes, modelled and proved

iSnipes is a multiplayer maze shooter: a Go server runs an integer simulation, a match actor and a lobby actor, and a
browser client predicts its own player and folds the lobby's messages into a room list. This project models that logic
and proves what it is supposed to guarantee. Nothing here runs the game.

The modules follow the program:

- **The ground.** `Grid`, `Physics`, `LineOfSight`, `PathFinding`, `MazeCarve`, `Connectivity`, `MazeGenerate`: the maze
  as it is carved, movement in it, sight and shortest paths. Movement is proved safe from the shape that carving is
  proved to produce: six-tile corridors, one-tile walls, walls at the crossings. One axis is proved once and used twice,
  on the maze and on its transpose.
- **A tick.** `Entities`, `Slab`, `SimState`, `Control`, `Movement`, `SnipeMind`, `Firing`, `Emission`, `History`, `Samples`,
  `Combat`, `Projectiles`, `Hits`, `SafeSpawn`, `Respawn`, `Cleanup`, `Setup`, `Stages`, `Simulation`. Each step of a
  tick is a method proved against a relation between stores; the class `Sim` holds the state and chains the steps, and
  `Stages` has what follows from the steps of a tick alone. `SnipeMind` is how a snipe decides, on top of `LineOfSight`
  and `PathFinding`. `Ledger` keeps the record of kills and respawns against
  which lives and scores are audited. `Runs` is about many ticks: what lag compensation finds; `RespawnGap` is a run in
  which it finds nothing; `SnipeRuns` is about what snipes do over a run.
- **A match.** `MatchSlots` has the bounded outbound channels: who is sent which frames, who is dropped over a full
  queue. `MatchActor` has the actor's handlers, `MatchEnd` the verdict, `Game` the actor and its simulation in step.
  `MatchTerms` says slot by slot and frame by frame what they come to. `Ranking` and `Aoi` choose what a snapshot shows,
  `NearFirst` says whom that leaves out, `SimView` is about snapshots of what the simulation holds.
- **The lobby.** `RoomViews` has the messages and the client's fold, `LobbyHall` rooms, sessions and sending, `RelayOrder`
  and `LobbyRelay` the chat relay, `Lobby` the server's handlers, `ChatBucket` the rate limit.
- **The client.** `ClientPhysics` has the client's own arithmetic and sweep, `Prediction` the input ring and
  reconciliation, `Parity` connects them with the server's steps and `ServedRuns` with whole ticks.
- **The wire.** `Bytes`, `Codec`, `SnapshotCodec`, `MatchOverCodec`, `ScoreboardCodec`, `TilePacking`; `ClientWire` has the
  browser's own readers and writers.

`Options` and `Sequences` are shared vocabulary.

Map iteration order and random numbers are arbitrary choices; the clock is an argument; channel
readers may take out any number of frames at any time. `bySession` tokens are distinct and nonempty, players, rooms,
sessions and channels have fresh identifiers.

What the proofs say against the code's own expectations:

- The positive-side clamp gives up one subtile (physics.go:79, :92), so a box can step back. It is safe for players
  (half-extent 256) only because generators leave a box to one side of them; for snipes (128) walls alone suffice, and
  `SnipeMoveFree` covers a snipe that starts inside a generator.
- Firing provides for a full slab (sim.go:533-541) and `spawnSnipeAt` does not (snipe.go:54-61), but no slab is ever full:
  8 players, 9 generators, 54 snipes and 64 projectiles leave most of its 256 slots free. `NeverFull` shows it, and
  `NeverCrowded` that the limits hold in every reachable state; so a spawn fails, and the simulation halts, only at the
  end of the IDs.
- The chat relay ranges over `room.Members` while a drop inside it shifts that slice in place (chat.go:93-99,
  lobby.go:508-526). That everyone in the room gets a line once is false: `SecondOfThree` is three members of whom the
  second gets nothing and the third the line twice. `EveryoneOnce` gives the exact condition: the room has started, or
  no queue but those of the last two members is full. `RelayedExactly` says it member by member.
- Lag compensation does not find everyone who was there at the view tick: coming back to life empties the history
  (sim.go:606-611). `SampledAtView` shows that this is the only exception, `RespawnForgets` that it happens in any maze.
- `DecodeSnapshot` accepts out-of-order IDs and unknown flags that no encoder produces; `SnapshotCanonical` says exactly
  which accepted bytes come from an encoder, `DecodeTwins` is an input. `DecodeMapInit` has no upper length:
  `MapInitInverse` gives the exact bound, `OversizeMapInit` an input. The browser's `encodeFrame` lets the length of a
  payload over 65535 bytes wrap (proto.ts:205-215); `WriteFrame` says that the server then finds trailing bytes.
- The last player to join a match is sent MapInit, Scoreboard and Snapshot twice (match.go:687-691, :801-810);
  `LastJoined` is that script.
- A snipe's check for a clear shot is its check for sight (ai.go:318-320), so it walks its plan only while it does not
  see its target: `WalksBlind`.
- The connectivity retry of maze generation and the deadline rejection of a reconnect can never happen.

## Model

| member | source | states |
|---|---|---|
| Physics.MoveAndSlide | internal/sim/physics.go:64-190 | The in-place sweep (x then y, walls then generators, `-1` only on the positive side) computes the two-axis specification `Slide`, which is the same one-axis sweep run on the maze and on the transposed maze |
| Physics.MoveSafe | internal/sim/physics.go:64-190 | In any wide maze with generators laid out on cell centres, a box of half-extent 128 or 256 that touches nothing, moved at any speed below one tile, again touches no wall and no generator and is never carried more than one subtile backwards |
| Physics.SweepSafe | internal/sim/physics.go:64-127 | The same for one axis; the clamp on the positive side may step back one subtile and is still clear |
| Physics.StopsOnlyAtContact | internal/sim/physics.go:64-127 | Velocity on an axis is lost exactly by contact: kept means the full step was made, lost means a box two subtiles further on would touch |
| Physics.SnipeMoveFree | internal/sim/physics.go:64-190 | A snipe box stays clear of walls even when it starts inside a generator |
| Physics.WallMoveFree | internal/sim/physics.go:64-190 | With no solid boxes every half-extent up to 256 stays clear of walls (what projectiles use) |
| Physics.OperandsNonNegative | internal/sim/physics.go:67-102 | Every operand of the truncating tile divisions of a sweep from a free box is non-negative |
| Physics.StepBackFree | internal/sim/physics.go:78-83 | The subtile given up on the positive side never reaches the tile column behind |
| Physics.CorridorWidth | internal/sim/maze.go:41-53 | Between two walls that face each other there are at least six floor tiles |
| Physics.VelocityBounded | internal/sim/physics.go:5-31 | Every direction at speed s gives components within s, zero exactly when idle, and no longer than s in the plane |
| Control.LockHolds | internal/sim/sim.go:290-318 | While turbo is held with a direction the direction taken is the first one, whatever is pressed later |
| Control.SpeedBounded | internal/sim/sim.go:320-328 | Player velocity components never exceed 224 |
| ClientPhysics.DivTruncates | web/src/sim.ts:88-94 | Floor or ceiling of the real quotient, by its sign, is the truncating division of the server |
| ClientPhysics.SameVelocity | web/src/sim.ts:67-86 | The velocity of every direction at every speed is that of the server |
| ClientPhysics.SameOverlaps | web/src/sim.ts:96-102 | Four separations refuted are an overlap |
| ClientPhysics.ClientMove | web/src/sim.ts:104-211 | The sweep the client runs, its own loops in its own four branches, ends where that of the server does and with the same velocity, from any state, at any speed and among any boxes |
| LineOfSight.HasLOS | internal/sim/los.go:14-93 | The integer walk terminates and answers yes exactly when the tiles coincide, or the range suffices and no tile other than the two ends that the segment passes through or grazes is a wall |
| LineOfSight.Symmetric | internal/sim/los.go:14-93 | Sight is the same in both directions |
| LineOfSight.SameFromBothEnds | internal/sim/los.go:61-92 | The set of tiles tested does not depend on which end the walk starts from |
| LineOfSight.PassCorner | internal/sim/los.go:71-84 | At an exact corner the walk owes both flanking tiles: nothing the segment touches is passed over |
| PathFinding.PathNext | internal/sim/bfs.go:24-106 | For distinct tiles, succeeds exactly when the shortest non-wall walk is within max(1, maxDepth), and returns the first neighbour in N, E, S, W order on such a walk |
| PathFinding.NextIsCloser | internal/sim/bfs.go:24-120 | The tile returned is open and exactly one step nearer the target |
| PathFinding.Expand | internal/sim/bfs.go:79-104 | One queue expansion keeps the breadth-first invariant: everything found so far carries its distance and first hop |
| MazeCarve.CarveCell | internal/sim/maze.go:168-175 | Carving a cell turns exactly its 6x6 block to floor |
| MazeCarve.CarveLink | internal/sim/maze.go:179-199 | Carving a link turns exactly the one-tile strip between two cells to floor |
| MazeCarve.Linked | internal/sim/maze.go:202-214 | The one-tile probe tells exactly whether the strip is open |
| MazeCarve.Backtrack | internal/sim/maze.go:221-249 | The backtracker terminates, carves every cell, and the open strips form a spanning tree of the cells |
| MazeCarve.GrowTree | internal/sim/maze.go:236-249 | Linking a cell of the tree to one outside keeps a spanning tree, one link for each cell but the first |
| MazeCarve.ClosedIsAll | internal/sim/maze.go:231-249 | A set of cells closed under neighbours is the whole grid, so an empty stack means every cell was visited |
| MazeCarve.Braid | internal/sim/maze.go:251-262 | Braiding only opens strips; the tree stays inside the open strips |
| MazeCarve.Chambers | internal/sim/maze.go:264-279 | Opening chambers only opens strips; the tree stays inside the open strips |
| MazeCarve.CarveWideMaze | internal/sim/maze.go:221-280 | From solid wall: the whole maze is exactly the cells and open strips, holds a spanning tree, its outer ring and pillars are wall and corridors are six wide |
| MazeCarve.CarvedIsWide | internal/sim/maze.go:168-199 | Any set of cells and links carves a maze of the shape movement relies on |
| Connectivity.FloorConnected | internal/sim/maze.go:221-280 | Any two floor tiles of a spanned maze are joined by a walk of 4-neighbour steps |
| Connectivity.ConnectivityOK | internal/sim/maze.go:400-441 | The flood fill answers yes exactly when every non-wall tile is reachable from the first spawn |
| MazeGenerate.ShuffleCells | internal/sim/maze.go:443-449 | The in-place shuffle is a permutation whatever the random numbers |
| MazeGenerate.Greedy | internal/sim/maze.go:284-398 | The greedy pass keeps only candidates, far enough from each other and from the rest, and falls short only when every candidate is too close to one kept |
| MazeGenerate.RingPrefix | internal/sim/maze.go:335-383 | Taking candidates in order, ring before inside, an inner cell is taken only when every ring cell is too close to one already taken |
| MazeGenerate.PlaceGenerators | internal/sim/maze.go:284-322 | On success the asked number of generators, spread out, in interior cells; on failure a spread that cannot be extended |
| MazeGenerate.PlacePlayerSpawns | internal/sim/maze.go:330-398 | On success one spawn a player and up to two more, spread out, ring cells first and inner ones only when no ring cell is left; two cells from every generator or, only if the strict choice is stuck short of the players, merely off the generator cells; on failure both choices are stuck |
| MazeGenerate.GenerateOnce | internal/sim/maze.go:76-124 | A made maze is wide, fully connected, has exactly the chosen marker tiles and the computed number of generators; the connectivity failure is never returned |
| MazeGenerate.GenerateMaze | internal/sim/maze.go:56-71 | The same over the retries |
| MazeGenerate.StillConnected | internal/sim/maze.go:95-116 | Stamping markers on a spanned maze leaves every open tile reachable, so the connectivity check cannot fail |
| MazeGenerate.MarkersExact | internal/sim/maze.go:99-113 | Spawn and generator markers stand exactly on the chosen cell centres |
| MazeGenerate.PlacedLayout | internal/sim/maze.go:284-322 | Generators spread over cells are laid out as movement requires |
| MazeGenerate.SpawnFree | internal/sim/maze.go:330-398 | A player box at every spawn centre touches no wall and no generator |
| MazeGenerate.CenterRoundTrip | internal/sim/maze.go:151-165 | Cell to centre tile to cell is the identity |
| Slab.Alloc | internal/sim/entity.go:69-76 | The first free slot, or none exactly when the slab is full |
| Slab.FindByID | internal/sim/entity.go:92-99 | A slot that carries the ID, or none exactly when nothing does |
| Slab.SortEntityIDs | internal/sim/entity.go:127-139 | The in-place insertion sort leaves the sorted sequence |
| Slab.SortedOrdered | internal/sim/entity.go:127-139 | That sequence is in order and a permutation |
| Slab.LiveIDsSorted | internal/sim/entity.go:116-125 | Strictly ascending, and exactly the IDs of occupied slots |
| History.EntityHistory.constructor | internal/sim/history.go:24-40 | A fresh ring holds nothing |
| History.EntityHistory.Write | internal/sim/history.go:41-53 | Writing to the ring appends to its log, of which the ring holds the last nine |
| History.EntityHistory.At | internal/sim/history.go:60-77 | The newest retained sample not after t, or else the oldest retained |
| History.EntityHistory.Reset | internal/sim/history.go:82-85 | Forgets everything |
| History.LatestNotAfter | internal/sim/history.go:60-77 | For increasing ticks no retained sample lies between the one returned and t, and the one returned is after t exactly when the oldest retained is |
| History.TViewInWindow | internal/sim/combat.go:38-49 | The view tick lies within the last eight ticks and never goes below zero |
| History.ExactRewind | internal/sim/combat.go:38-49 | An entity sampled every tick of the window is rewound to exactly the view tick |
| Samples.WriteHistorySamples | internal/sim/sim.go:747-777 | Every occupied slot gets one sample of this tick, histories of the long gone are pruned, nothing else changes |
| Runs.SampledAtView | internal/sim/sim.go:747-777 | Over any run of consecutive ticks, with freezes and departures in between: an entity in the slab at every sampling since the view tick is found at exactly that tick, as it stood then, if and only if it has not come back to life since; otherwise only a later sample is found |
| Runs.TickIsLeg | internal/sim/sim.go:215-643 | Every successful tick of the simulation is a step of such a run |
| Runs.EndForgets | internal/sim/sim.go:606-611 | Of everything after the sampling only coming back to life empties a history |
| RespawnGap.RespawnForgets | internal/sim/sim.go:606-611 | In any maze movement relies on, with a player killed on a spawn tile and due back next tick, from a state in which the simulation may be between two ticks: there is a run of four ticks in which the player is in the slab throughout, comes back in the first, and is not found at it |
| RespawnGap.SomewhereFitting | internal/sim/respawn.go:8-67 | With a spawn tile in the maze and nobody else alive, there is one that respawning may choose |
| Combat.SegmentVsBox | internal/sim/combat.go:275-355 | The two-axis clipping loop finds the least time in [0,1] at which the moving point is in the box, as a fraction with positive denominator, or reports that there is none |
| Combat.SegmentHitExact | internal/sim/combat.go:275-355 | The same of the specification, against real-valued time: closed on moving axes, half-open on still ones |
| Combat.BestUnique | internal/sim/combat.go:94-186 | At most one entity is least by (entry time, ID) |
| Projectiles.ResolveProjectile | internal/sim/combat.go:67-186 | Candidate loop, ghost pass and wall test together yield the outcome determined by the live and ghost targets; `Strikes` says who those are, in real-valued time |
| Projectiles.GhostPass | internal/sim/combat.go:192-245 | Whatever order the history map is walked in, the best so far is the least over the live candidates and the recorded entities no longer among them |
| Projectiles.OrderIndependent | internal/sim/combat.go:67-245 | Permuting the candidates changes neither the target nor the end position |
| Projectiles.HitIsFirst | internal/sim/combat.go:94-186 | An entity hit is eligible, comes before every other target by (entry time, ID), and strictly before the wall: the wall wins ties |
| Ledger.RespawnBetween | internal/sim/sim.go:653-691 | Two deaths of the same entity have a respawn between them |
| Ledger.KillAccounts | internal/sim/lives.go:84-100 | One kill moves deaths and scores by exactly 25, 10, 1 or -5 |
| SimState.UpdateKeeps | internal/sim/entity.go:14-64 | Replacing a slot by the same entity standing clear keeps the whole invariant (identity, geometry, accounts) |
| SimState.AddKeeps | internal/sim/entity.go:69-89 | So does adding a projectile or snipe under the next ID |
| SimState.RemoveKeeps | internal/sim/entity.go:102-112 | So does freeing a slot |
| SimState.KillKeeps | internal/sim/sim.go:653-691 | So does a kill, with the record one longer |
| SimState.RespawnKeeps | internal/sim/sim.go:576-615 | So does a respawn on a clear place |
| SimState.NeverFull | internal/sim/entity.go:69-76 | With at most 8 players, 9 generators, 54 snipes and 64 projectiles the slab always has a free slot, so an allocation never fails |
| Movement.CollectGenerators | internal/sim/sim.go:779-789 | The boxes collected are those of the live generators, and laid out as movement requires |
| Movement.ApplyInputs | internal/sim/sim.go:255-328 | Every player is steered exactly once by its own input: turbo lock, facing, flags, velocity, cooldown; `InputWalks` says what that comes to |
| Movement.MoveKind | internal/sim/sim.go:330-345 | Every live entity of the kind is moved exactly once and the invariant holds after each |
| Movement.PlayerMove | internal/sim/sim.go:328-345 | A moved player is clear of walls and of every live generator |
| Movement.SnipeMove | internal/sim/sim.go:366-388 | A moved snipe is clear of walls |
| Movement.HitsWall | internal/sim/snipe.go:226-231 | The four-corner probe is exact for a snipe box |
| Movement.CornersDecide | internal/sim/snipe.go:226-231 | In a wide maze a snipe box touches a wall exactly when one of its corners does |
| Movement.PushSeparates | internal/sim/snipe.go:175-215 | After the push two overlapping snipes no longer overlap |
| Movement.BlockPair | internal/sim/snipe.go:168-219 | The higher ID moves off along the axis of greater distance, and only if its new box is clear of walls |
| Movement.WeakBlockKeeps | internal/sim/snipe.go:148-221 | A push that would enter a wall is not made, and the invariant holds either way |
| Movement.ApplySnipeWeakBlock | internal/sim/snipe.go:148-221 | The pass is the pairwise give-way of the live snipes in ID order, each pair against what the earlier ones left; it keeps the invariant and changes only positions and velocities of live snipes |
| Firing.TryLaunch | internal/sim/sim.go:522-573 | At the projectile cap nothing happens, with the IDs used up it fails, otherwise one projectile of the right velocity, lifetime and shooter appears at the shooter; each exactly then |
| Firing.FirePlayers | internal/sim/sim.go:498-574 | Over all players in ID order: each fires exactly once when its input, cooldown, turbo, protection and the projectile cap allow, and not otherwise; the step breaks off exactly at the first player with room for its shot but no ID left |
| SnipeMind.Think | internal/sim/ai.go:9-232 | Resting, patrolling, chasing or attacking: the decision is the one prescribed for what the snipe remembers and sees, settled but for the random heading and timer of a patrol |
| SnipeMind.FindFirstVisible | internal/sim/ai.go:275-298 | The live player of the least ID within sight, or nobody exactly when there is none |
| SnipeMind.SeesBack | internal/sim/ai.go:302-311 | A snipe sees a player exactly when the player, with that range, would see it |
| SnipeMind.Plan | internal/sim/ai.go:119-137 | At most three hops, each along a shortest walk to the target, fewer only at the target or where the search fails; a search that returns its own tile has arrived |
| SnipeMind.PlanCloses | internal/sim/ai.go:119-137 | Every tile of a plan is open, next to the one before and one step nearer the target |
| SnipeMind.Toward | internal/sim/snipe.go:85-122 | The heading toward a tile never leads away from it on either axis, and moves on at least one |
| SnipeMind.ShotInSight | internal/sim/ai.go:161-185 | A snipe shoots only when attacking, with its cooldown over, at somebody alive whom it sees, along its aim |
| SnipeMind.WalksBlind | internal/sim/ai.go:83-112 | A chasing snipe stands and attacks next exactly when it sees its target, gives up exactly after 60 ticks without, and walks only in between |
| Firing.StepSnipes | internal/sim/sim.go:347-364 | Exactly the live snipes decide, in ID order, each as `Think` prescribes for the slab it finds; each decision is carried out, one projectile for each that shoots but for the cap or the IDs, and remembered; nobody else changes and the invariant holds; the IDs have run out exactly if one with room is denied its shot |
| Movement.NoteWalls | internal/sim/sim.go:366-388 | Each live snipe notes exactly whether its step has just cost it a component of its velocity |
| SnipeRuns.FireRate | internal/sim/ai.go:177-210 | Over any run of ticks, with freezes and departures in between, two shots of one snipe are at least the cooldown of the level apart |
| SnipeRuns.SeenTwice | internal/sim/ai.go:83-178 | Over any such run, a snipe that shoots sees its target, and if it decided in the tick before it saw the same target then |
| SnipeRuns.LegMinds | internal/sim/sim.go:215-643 | Through a whole tick a snipe that lives on remembers exactly what it decided to, but for having met a wall |
| Firing.CountInFlight | internal/sim/sim.go:523-529 | The number of projectiles in the slab |
| Emission.FindEmissionSlot | internal/sim/generator_emit.go:83-130 | The first of the eight ring tiles, from the rotation on, that is floor, vacant and clear of walls; none exactly when none fits |
| Emission.SpawnSnipeAt | internal/sim/snipe.go:53-80 | The ID is taken before the slot; below the snipe cap it fails exactly when the IDs have run out, and then nothing has changed |
| Emission.EmitOne | internal/sim/generator_emit.go:20-70 | One generator: cooldown, cap, slot search, spawn and new cooldown, as the outcome says |
| Emission.RunGeneratorEmissions | internal/sim/generator_emit.go:7-70 | Every live generator has its turn once, in ID order, and only snipes appear; it fails exactly when a generator that is due, below the cap and with a fitting tile finds no ID left, those before it having had their turns and nothing else having changed |
| Emission.HatchKeeps | internal/sim/snipe.go:53-80 | A snipe put on a fitting tile keeps the invariant |
| Emission.AllOrStarved | internal/sim/generator_emit.go:53-57 | A pass in which every generator had its turn starved none of them: the two outcomes exclude each other |
| SafeSpawn.FreeSpawns | internal/sim/respawn.go:70-102 | Exactly the player spawn tiles with nobody alive on them, each once |
| SafeSpawn.SafetyOf | internal/sim/respawn.go:25-46 | The distance to the nearest live player or generator, or to the place of death when there is none |
| SafeSpawn.RankBySafety | internal/sim/respawn.go:48-57 | All free tiles with their scores, strictly ordered by falling safety and then row order |
| SafeSpawn.SelectRespawnTile | internal/sim/respawn.go:8-67 | None exactly when no spawn is free; otherwise a free spawn with at most two free spawns safer than it |
| Respawn.RespawnOne | internal/sim/sim.go:576-615 | A player due comes back on such a tile with health, protection, no cooldown and an empty history, or waits one tick when none is free |
| Respawn.RespawnPlayers | internal/sim/sim.go:576-615 | Everyone has a turn in ID order, each against what the earlier ones left: a player due comes back on one of its three safest free spawns or finds none free; afterwards all that wait, wait for a later tick within 90 |
| Cleanup.ClearInvuln | internal/sim/sim.go:617-636 | Protection ends exactly when its tick has come |
| Cleanup.GarbageCollect | internal/sim/sim.go:702-739 | Dead generators and snipes go; dead players go when there is no respawn or they are out, the latter keeping their record |
| Cleanup.CollectSettles | internal/sim/sim.go:702-739 | After the sweep every dead entity in the slab is a player with tick < respawnAt <= tick + 90 |
| Hits.KillEntity | internal/sim/sim.go:653-691 | The victim is flagged, the accounts settled, and the record and the invariant move together |
| Hits.SettlePlayers | internal/sim/sim.go:660-691 | Killer credit first, then penalty, life and respawn or elimination of the victim |
| Hits.KillBalances | internal/sim/sim.go:653-691 | Every player account still agrees with the record after a kill, own kills included |
| Hits.CollectHitCandidates | internal/sim/sim.go:794-812 | Exactly the live non-projectiles, in ID order |
| Hits.FlyOne | internal/sim/sim.go:416-479 | One projectile: flown to its resolved end, a live target hurt once or killed, a dead or missing one left alone, the projectile gone after any hit |
| Hits.FlyProjectiles | internal/sim/sim.go:404-479 | All projectiles in the slab before the step, in ID order |
| Hits.AgeProjectiles | internal/sim/sim.go:481-496 | Each survivor loses one tick of life, and the projectile at zero is removed |
| Hits.NoHitFree | internal/sim/combat.go:75-92 | A projectile that hits nothing ends clear of walls |
| Stages.StagesCapped | internal/sim/generator_emit.go:44-48 | No tick, whole or broken off, takes the snipes over the cap of the level |
| Stages.StagesIDs | internal/sim/sim.go:215-643 | The next ID never goes down, and has reached its end whenever a tick fails or halts the simulation |
| Setup.ValidateConfig | internal/sim/sim.go:122-158 | Accepts exactly the valid configurations, level included, and otherwise complains of the first check that fails, among the IDs of the first at fault |
| Setup.OneComplaint | internal/sim/sim.go:122-158 | A configuration draws at most one complaint, and a valid one none |
| Setup.LevelInBounds | internal/sim/levels.go:37-81 | Every row of the level table has a snipe speed within a tile, some health and lives, and at most 54 snipes |
| Setup.SortRowMajor | internal/sim/sim.go:160-170 | Row-major order and a permutation |
| Setup.BuildStore | internal/sim/sim.go:40-115 | Players in order on their spawns, then generators under the IDs after the largest player ID, everything else free |
| Setup.MazePlaces | internal/sim/sim.go:40-115 | On a generated maze all of these stand clear of walls and of each other |
| Setup.OpeningBooks | internal/sim/sim.go:70-115 | At the start every account agrees with the empty record |
| Setup.OpeningPeopled | internal/sim/sim.go:54-115 | A simulation opens with at most 8 players, at most 9 generators and nothing else |
| Simulation.BuildInputs | internal/sim/sim.go:238-253 | Exactly those who sent anything, each with the last it sent; directions by the codes 1 to 8, and out of range taken as none |
| Simulation.Sim.NewSim | internal/sim/sim.go:23-120 | A valid configuration yields a simulation in its opening state satisfying the invariant, or only the maze failed; any other draws its complaint |
| Simulation.Sim.Tick | internal/sim/sim.go:215-643 | The tick is its steps in order and the invariant holds after it; refused exactly when halted or short of IDs, with the state untouched; broken off exactly when a player with room for its shot finds no ID; it leaves the simulation halted if and only if it failed or a snipe or a generator found no ID |
| Simulation.Sim.FreezePlayer | internal/sim/lives.go:107-119 | Freezing keeps the invariant and stops exactly that player, whose cooldown and turbo lock go |
| Simulation.Sim.RemovePlayer | internal/sim/lives.go:126-131 | Removal keeps the invariant and removes exactly that player |
| Simulation.NobodyStuck | internal/sim/sim.go:215-643 | In every reachable state no live player, snipe or projectile touches a wall and no live player overlaps a live generator |
| Simulation.NeverCrowded | internal/sim/entity.go:41-76 | In every reachable state at most 8 players, 9 generators, 64 projectiles and no more snipes than the level allows, at most 54; a slot is free; and the simulation is halted only within 8 IDs of the last |
| Simulation.AccountsAgree | internal/sim/lives.go:28-100 | In every reachable state lives are start minus deaths, score is 25 player kills + 10 generators + snipes - 5 deaths, and out means no lives |
| Simulation.KilledOnce | internal/sim/sim.go:653-691 | Over every run nobody is killed twice without coming back in between |
| Simulation.OutForGood | internal/sim/sim.go:674-684 | Over every run a player who is out stays out |
| MatchSlots.TrySend | internal/match/match.go:1297-1315 | A send that never blocks fails exactly when the queue is full after whatever its reader drained |
| MatchSlots.MarkUnjoined | internal/match/match.go:1099-1105 | Unjoining moves both counters by one, and only the first time |
| MatchSlots.CloseSlot | internal/match/match.go:1212-1220 | The channel is closed once and nothing else is touched |
| MatchSlots.SendTo | internal/match/match.go:1297-1315 | The slot takes the frame, or is unjoined and closed over a full queue; every other slot and channel is as before |
| MatchSlots.SendEach | internal/match/match.go:1374-1394 | Every joined slot takes exactly its own frames in order, or the prefix before its queue was full; map order does not matter |
| MatchSlots.SayGoodbye | internal/match/match.go:1029-1035 | Every bound channel takes MatchOver, unless full, and is closed |
| MatchSlots.ReleaseJoinedGauge | internal/match/match.go:1110-1114 | Everyone unjoined and the counter at zero |
| MatchSlots.CloseAll | internal/match/match.go:1126-1131 | Every bound channel closed with nothing more sent |
| MatchSlots.DeliveredQuiet | internal/match/match.go:1297-1315 | A delivery never sends to or closes again a closed channel, and drops slots only over full queues |
| MatchSlots.DeliveredMore | internal/match/match.go:1297-1315 | Two deliveries one after the other are the delivery of the joined scripts |
| MatchSlots.FarewellAfter | internal/match/match.go:1009-1036 | Last frames come after everything sent before, on the same channel |
| MatchActor.GraceAlive | internal/match/reconnect.go:13-108 | Between steps a token is in dcTokens exactly when its slot is in grace, and every deadline lies in the future |
| MatchActor.CountersExact | internal/match/match.go:1088-1114 | Between steps the joined counter and the gauge both equal the number of joined slots; no channel is shared or, if bound, closed; at the end the counter is zero and nothing is bound |
| MatchActor.GoLive | internal/match/match.go:773-814 | Starting arms the grace of slots dark since warmup and sends the opening frames to everyone |
| MatchActor.StartOrAbort | internal/match/match.go:730-814 | Live exactly when enough have joined and the simulation could be made; otherwise closed with no frame |
| MatchActor.DropExpired | internal/match/match.go:872-887 | Exactly the slots whose deadline has come are removed, and everyone is told of each once |
| MatchActor.MarkDeadCams | internal/match/match.go:860-870 | Exactly the joined slots of eliminated players become spectators |
| MatchActor.TokenFor | internal/match/reconnect.go:141-148 | The token minted for the player, or none exactly when there is none |
| MatchActor.Match.constructor | internal/match/match.go:292-337 | One slot, not joined and without a channel, and one unused token for every pending join, and nothing else |
| MatchActor.Match.HandleJoin | internal/match/match.go:626-700 | Before the start a fresh unused token joins once and each slot at most once; the slot and, when complete, everyone get exactly the frames listed; while live only grace tokens get in |
| MatchActor.Match.HandleReconnect | internal/match/reconnect.go:65-108 | While live it succeeds exactly for tokens in grace, uses the token up, and sends Resync, MapInit, Snapshot, Scoreboard to the slot and the rejoin to all; the deadline rejection cannot happen |
| MatchActor.Match.HandleDC | internal/match/reconnect.go:13-59 | A joined slot goes dark once, with a deadline only while live, and everyone else is told |
| MatchActor.Match.RevokeToken | internal/match/match.go:507-516 | Removes exactly that token |
| MatchActor.Match.HandlePing | internal/match/match.go:1203-1210 | A joined slot gets one Pong, nobody else anything |
| MatchActor.Match.Tick | internal/match/match.go:817-912 | Events, spectator marks, departures, scoreboard, snapshot and the end in that order, each to exactly the slots it is meant for; ends exactly on a failed step or when the accounts after the step call for a verdict, with that winner |
| Game.Game.Tick | internal/match/match.go:817-912 | One step of the simulation and of its match: the verdict is the right one by the slab and the record of kills, the match goes on exactly if the step succeeded and the verdict says so, never past the time limit, and exactly those whose grace has run out leave the simulation |
| Game.Game.HandleDC | internal/match/reconnect.go:13-54 | A joined player that drops out goes dark with its deadline on the clock of the simulation, and its entity is frozen, once |
| Game.ScoresAreRecord | internal/sim/lives.go:68-78 | In every state between ticks the scores the match reads are those that follow from the record of kills alone |
| Game.WonByRecord | internal/match/match.go:922-1007 | The last one standing is the only one with fewer deaths than lives, nobody being left means all have died as often, and a winner on time has more points by its kills and deaths than anybody |
| MatchActor.Match.EndMatch | internal/match/match.go:1009-1040 | match_end and MatchOver on every bound channel, then closed; the counter at zero |
| MatchActor.Match.Abort | internal/match/match.go:1137-1176 | The same with no winner if there was a game, silently otherwise; nothing the second time |
| MatchActor.Match.Shutdown | internal/match/match.go:1120-1134 | Closed without a last frame; nothing the second time |
| MatchEnd.TimerWinner | internal/match/match.go:975-1002 | The strict leader among those with a score, or nobody exactly when nobody leads, in any map order |
| MatchEnd.EvaluateMatchEnd | internal/match/match.go:922-970 | Each verdict exactly under its condition and in the order of precedence |
| MatchEnd.OneVerdict | internal/match/match.go:922-970 | At any moment exactly one verdict is right, winner included, whatever order the slots are walked in |
| Aoi.BuildView | internal/match/aoi.go:42-146 | The seven passes with their closure yield the first 64 of the priority list without repeats, in ID order, and remember exactly those; `NearerFirst` says whom that leaves out |
| Aoi.ChosenIs | internal/match/aoi.go:222-251 | Passing over what is already included in the last pass changes nothing |
| Aoi.ChosenCount | internal/match/aoi.go:42-146 | Distinct live entities, as many as there are up to 64 |
| Aoi.AllIfItFits | internal/match/aoi.go:42-146 | With at most 64 live entities all of them are shown |
| Aoi.PlayersAlwaysShown | internal/match/aoi.go:87-96 | However crowded the map, the live recipient and every live player are shown if the players fit the cap |
| Aoi.FewPlayers | internal/match/aoi.go:87-96 | With at most 63 players they fit the cap |
| SimView.ListEntities | internal/sim/sim.go:200-212 | Every occupied slot once, in ID order |
| SimView.PlayersAlwaysSeen | internal/match/aoi.go:87-96 | In every reachable state of the simulation every live player is in everybody's snapshot |
| Aoi.AlwaysEncodes | internal/match/aoi.go:126-145 | The view is strictly ascending by ID and always passes the snapshot encoder |
| Aoi.DeadCamShows | internal/match/snapshot.go:29-95 | The spectator view is ascending, live only, everything if it fits, and otherwise the 64 nearest to the middle of the map, ties by ID |
| Ranking.SortIs | internal/match/aoi.go:152-181 | The insertion-sort specification orders and permutes under any total order |
| Ranking.FilterSort | internal/match/aoi.go:152-218 | Filtering before sorting is filtering after it |
| Ranking.AddAllIs | internal/match/aoi.go:62-86 | Adding in turn, skipping repeats, under a cap keeps the first occurrences |
| RoomViews.LobbyClient.Handle | web/src/lobby.ts:209-253 | The client map is the fold of all messages received |
| RoomViews.ListResets | web/src/lobby.ts:222-228 | A full list makes everything before it irrelevant |
| LobbyHall.RemoveMember | internal/lobby/lobby.go:508-526 | The member is out, the order of the rest kept, the host replaced by whoever is first, emptiness stamped |
| LobbyHall.Send | internal/lobby/lobby.go:750-757 | The message is queued or the session dropped; a dropped session gives up its place in an open room and nothing else changes, except that a resync is then due |
| LobbyHall.DropSession | internal/lobby/lobby.go:773-798 | The session is gone, out of its room if that is open, and then a resync is due |
| LobbyHall.ThinnedMore | internal/lobby/lobby.go:773-798 | Losing some sessions and then others leaves every room as losing all of them: members in order, the host handed on, emptiness stamped |
| LobbyHall.FannedAgrees | internal/lobby/deltas.go:15-36 | After a broadcast of a delta every client that agreed still agrees, unless a resync is due |
| LobbyHall.BuildRoomList | internal/lobby/lobby.go:719-725 | The list holds each room once as described, in any map order |
| LobbyHall.BroadcastRoomList | internal/lobby/lobby.go:727-732 | Afterwards clients agree with the rooms, or a resync is due because a session was lost |
| LobbyHall.FlushRoomsDirty | internal/lobby/lobby.go:741-746 | Terminates, and leaves every client that has said hello with exactly the rooms of the server |
| LobbyHall.RemoveFromRoom | internal/lobby/lobby.go:495-526 | Out of the room and broadcast; sessions lost on the way are out of open rooms too, and every other place is kept |
| Lobby.AddRoom | internal/lobby/lobby.go:431-449 | The new room is broadcast and its creator seated in it, agreement kept even when the broadcast drops sessions |
| Lobby.TryStart | internal/lobby/lobby.go:540-648 | Tokens for all members and the room starting, each member still connected sent its own token and then the new list; or everything taken back |
| Lobby.RolledBack | internal/lobby/lobby.go:613-623 | A failed start restores rooms and tokens exactly, whether or not the error to the host could be sent |
| LobbyRelay.RelayAll | internal/lobby/chat.go:86-100 | For any set of full queues: every member still connected holds exactly as many copies as the loop over the shifting member list sends it, every session that could not take its copies is gone, and nobody else is touched |
| LobbyRelay.RelayedExactly | internal/lobby/chat.go:93-99 | A member before the last gets the message exactly once, or not at all exactly when the one before it was thrown out; the last at least once, and exactly once if and only if no queue but those of the last two was full; in a room that has started everyone gets it once |
| LobbyRelay.EveryoneOnce | internal/lobby/chat.go:93-99 | With every member connected, all who still are get it exactly once if and only if the room has started or no queue but those of the last two was full |
| RelayOrder.EveryOther | internal/lobby/lobby.go:508-514 | Along a run of full queues the loop throws out every other member, beginning with the first |
| RelayOrder.Onward | internal/lobby/lobby.go:508-514 | One more index of the loop: whom it reads, and what that does to the count of sends |
| RelayOrder.OnceEach | internal/lobby/chat.go:93-99 | Everyone is sent to exactly once if and only if no queue is full but those of the last two |
| LobbyRelay.SecondOfThree | internal/lobby/chat.go:93-99 | Three members of an open room, the first one's queue full: the second gets nothing and the third the same line twice |
| Lobby.SweepRoom | internal/lobby/gc.go:23-41 | The empty room goes and its removal is broadcast |
| Lobby.Lobby.HandleConnect | internal/lobby/lobby.go:291-301 | One new session with no name, no room and nothing sent |
| Lobby.Lobby.HandleHello | internal/lobby/lobby.go:370-400 | After hello the session holds exactly the rooms of the server |
| Lobby.Lobby.HandleCreateRoom | internal/lobby/lobby.go:402-449 | A room appears exactly when named, seated nowhere, with 2 to 8 places and a known level; otherwise the code of the first check that fails |
| Lobby.Lobby.HandleJoinRoom | internal/lobby/lobby.go:451-480 | Joined exactly when the room is open with a place left; otherwise refused with the code of the first check that fails |
| Lobby.Lobby.HandleLeaveRoom | internal/lobby/lobby.go:482-493 | Out of whatever room it was in |
| Lobby.Lobby.HandleDisconnect | internal/lobby/lobby.go:650-669 | The session is gone and with it its place in a room that has not started; every other place, and every other session, is as before but for sessions lost on the way |
| Lobby.Lobby.HandleStartMatch | internal/lobby/lobby.go:528-648 | Exactly when startable, created and all tokens minted: the room is starting, each member has its token and, still connected, was sent it and then the list of rooms; otherwise rooms and tokens as before |
| Lobby.Lobby.HandleMatchEnded | internal/lobby/lobby.go:671-685 | At most one room goes, one of that match, and one does if there is any |
| Lobby.Lobby.HandleKick | internal/lobby/kick.go:9-55 | Exactly the host of the room can, whatever its state, and not itself; the target is out and its tokens gone |
| Lobby.Lobby.HandleChat | internal/lobby/chat.go:55-100 | A line from a member of the room within the rate its own bucket allows is relayed as `RelayAll` says, at the cost of one token; otherwise the sender is told, and its bucket asked only if it came that far |
| Lobby.Lobby.SweepEmptyRooms | internal/lobby/gc.go:23-41 | Exactly the rooms empty since the threshold go; one found empty is stamped, one with members again unstamped, and the others have only lost members whose sessions were lost |
| Lobby.Lobby.ExpireIdleSessions | internal/lobby/lobby.go:696-705 | No session idle past its limit stays; the others stay as they are, with their places, but for sessions lost on the way; with nobody idle nothing happens |
| Lobby.Lobby.ExpireTokens | internal/lobby/lobby.go:687-694 | Exactly the tokens past their time go |
| Lobby.Lobby.Flush | internal/lobby/lobby.go:741-746 | At the end of every step nothing is due and every client agrees |
| ChatBucket.ChatBucket.Allow | internal/lobby/chat.go:26-50 | The bucket object takes the specified step, also when the clock has gone back; `FirstFour`, `PauseEarns` and `NeverHeldBack` say what it owes, `RateLimited` what it does not |
| ChatBucket.WindowBound | internal/lobby/chat.go:26-50 | From any bucket, calls within W let through at most 4 + ceil(W/500 ms) |
| ChatBucket.RateLimited | internal/lobby/chat.go:26-50 | At most 4 + ceil(W/500 ms) calls are let through in every window W of every sequence of calls at non-decreasing times |
| Prediction.StepLocal | web/src/sim.ts:225-260 | The client step, with its own turbo lock, division, velocities and sweep, is the specified step; without turbo it faces as told, clears the lock and on open floor ends 112 subtiles on, or 79 along each axis; with turbo 224 or 158 in the locked direction; told nothing it stands |
| Prediction.LaterIsPositive | web/src/prediction.ts:37-42 | In a full ring of consecutive 16-bit ticks later entries are positive differences, across the wrap |
| Prediction.PredictionBuffer.Push | web/src/prediction.ts:66-73 | At most 32 entries, the oldest going first, each kept with the boxes of its tick |
| Prediction.PredictionBuffer.Step | web/src/prediction.ts:75-86 | Steps the prediction among the boxes of this tick and keeps the ring a chain of consecutive ticks, each under its own boxes |
| Prediction.PredictionBuffer.Reconcile | web/src/prediction.ts:91-138 | With the acknowledged tick in the ring, the client diverges if and only if the server is more than 4 off its entry in x or in y; accepted, the ring is untouched; diverged, the entry takes the server's state and every entry after it is replayed and counted; an unknown tick leaves the prediction at the server's state with the ring empty |
| Prediction.ReplayFrom | web/src/prediction.ts:118-138 | The in-place loop rebuilds every later state and counts them |
| Prediction.DivergedReplays | web/src/prediction.ts:91-138 | After a divergence the prediction is the replay of all later inputs from the server state among the boxes of now, the suffix is a chain again, and ticks and inputs are untouched |
| Prediction.NeverDiverges | web/src/prediction.ts:108-117 | A server that stepped through the same inputs, among the same boxes tick by tick, is exactly where the ring says |
| Parity.ServerIsClient | internal/sim/sim.go:255-345 | Steering and moving a player on the server is the step that `StepLocal` proves of the client |
| ServedRuns.LegServes | internal/sim/sim.go:215-643 | Through a whole tick, its shots, hits, scores and ends of protection included, a player that lives ends where the one step of the client puts it, among the boxes of the tick |
| ServedRuns.ServedReplays | internal/sim/sim.go:215-643 | Over any run of whole ticks, from any state the simulation can be in, freezes and departures of others in between: the server shows the player alive in exactly the state that replaying its inputs gives |
| ServedRuns.SameInputsAgree | web/src/prediction.ts:91-138 | If whole ticks of the simulation took the buffered inputs one a tick, each among the boxes the client had for it, and the player lived through them, reconciling changes nothing, whatever boxes there are now |
| Bytes.RoundTrip16 | internal/proto/frame.go:20-23 | Little-endian 16-bit words and pairs of bytes correspond one to one |
| Bytes.RoundTrip32 | internal/proto/frame.go:25-36 | The same for 32 bits |
| Bytes.FlatInjective | internal/proto/messages.go:89-158 | Records of one length laid end to end can be taken apart in one way only |
| Codec.FrameRoundTrip | internal/proto/frame.go:44-89 | Framing succeeds exactly within the limit, and unframing gives back header and payload |
| Codec.FrameCanonical | internal/proto/frame.go:70-89 | Only bytes that re-frame to themselves are accepted, and truncation is reported exactly when bytes are missing |
| Codec.InputInverse | internal/proto/messages.go:46-72 | Decode and encode are inverse; both take exactly directions up to 8 and turbo 0 or 1 |
| Codec.EventInverse | internal/proto/messages.go:170-189 | The same |
| Codec.PongInverse | internal/proto/messages.go:194-225 | The same for Ping, Pong and (lines 297-308) Resync |
| Codec.MatchJoinInverse | internal/proto/messages.go:9-36 | The same |
| Codec.MapInitInverse | internal/proto/messages.go:321-349 | Decode inverts encode; what it accepts re-encodes to itself exactly when it is within the frame limit |
| Codec.OversizeMapInit | internal/proto/messages.go:321-349 | A payload of 65536 bytes decodes, and no message encodes to it |
| SnapshotCodec.EncodeSnapshot | internal/proto/messages.go:89-122 | Encodes exactly the snapshots of at most 64 strictly ascending entities with no flag above the third |
| SnapshotCodec.DecodeSnapshot | internal/proto/messages.go:124-158 | Accepts exactly what has the right length, and yields the one message with those bytes |
| SnapshotCodec.SnapshotInjective | internal/proto/messages.go:89-122 | Different snapshots have different bytes |
| SnapshotCodec.SnapshotCanonical | internal/proto/messages.go:89-158 | Accepted bytes come from the encoder exactly when the IDs ascend and no unknown flag is set |
| SnapshotCodec.DecodeTwins | internal/proto/messages.go:124-158 | Two entities with one ID decode, and no encoder makes such bytes |
| MatchOverCodec.EncodeMatchOver | internal/proto/messages.go:244-262 | Encodes exactly up to 255 entries |
| MatchOverCodec.DecodeMatchOver | internal/proto/messages.go:264-288 | Yields the one message with those bytes, which re-encodes to them |
| MatchOverCodec.MatchOverInjective | internal/proto/messages.go:244-262 | Different messages have different bytes |
| ScoreboardCodec.EncodeScoreboard | internal/proto/messages.go:366-389 | Encodes exactly valid scoreboards |
| ScoreboardCodec.DecodeScoreboard | internal/proto/messages.go:391-429 | Yields the one valid scoreboard with those bytes, which re-encodes to them |
| ScoreboardCodec.EntriesThere | internal/proto/messages.go:366-429 | Entries of varying length are read back exactly, leaving what follows |
| ScoreboardCodec.EntriesBack | internal/proto/messages.go:391-429 | What is read is valid and its encoding is what was consumed |
| TilePacking.PackTiles | internal/sim/maze_pack.go:6-16 | The OR-ing loop puts tile i into bits 2(i mod 4) of byte i/4 |
| TilePacking.UnpackTiles | web/src/maze.ts:26-45 | Accepts exactly sizes up to 120 by 80 with enough bytes and reads every field |
| TilePacking.FieldDigits | internal/sim/maze_pack.go:6-16 | A byte holds its four tiles as the digits of base four, lowest first |
| TilePacking.Transfer | internal/sim/maze_pack.go:6-16 | What the server packs the client unpacks, for every grid within bounds |
| TilePacking.PackedInjective | internal/sim/maze_pack.go:6-16 | Different grids of one size pack differently |
| Strikes.MetIsStruck | internal/sim/combat.go:67-186 | A candidate other than the shooter, alive and unshielded where it is taken to be, and a player if the shooter is a snipe, or somebody recorded who is gone: if the projectile meets its box at some time, it does not fly on; what it hits instead is met no later, or is a wall come to by then; the rewound and the others alike |
| Strikes.StruckIsMet | internal/sim/combat.go:67-186 | Conversely whatever is hit could be struck so, at the fraction at which the outcome puts the end, with nobody to be struck before and no wall come to by then |
| Strikes.OnlyPlayersForSnipes | internal/sim/combat.go:115-122 | What a shot of a snipe, which is never rewound, hits among entities with a kind is a player, and nobody is hit by a shot of its own |
| ShotEffects.WayIsHurt | internal/sim/sim.go:416-479 | A projectile in flight, not rewound, with somebody eligible in its way at some time: somebody in its way no later loses a point of health, the last one being death, and the projectile is gone; or a wall was come to by then |
| ShotEffects.OnlyInTheWay | internal/sim/sim.go:416-479 | Whoever loses health by it was in its way, and it is only one; hurting nobody, it is gone at a wall or has made its whole step |
| ShotEffects.EachFlies | internal/sim/sim.go:404-479 | Every projectile in the slab before the step has its turn in it, against what those before it have left |
| ShotEffects.InvAirborne | internal/sim/sim.go:404-479 | Every projectile with a shooter, in any state that keeps the invariant, is one of those |
| Walking.GoesOn | internal/sim/physics.go:64-190 | With no wall and no solid box within reach the sweep makes the whole step and keeps the velocity |
| Movement.InputWalks | internal/sim/sim.go:255-345 | Steered and moved, a player without turbo faces as told, has its lock cleared and on open floor is 112 subtiles on, or 79 along each axis; with turbo it is 224 or 158 on in the direction locked first; told nothing, it stands |
| Effects.ShotLeaves | internal/sim/sim.go:522-573 | A launch puts one projectile under the next ID into a free slot: at the shooter, 224 a tick or 158 along each axis, for 90 ticks; nothing else changes |
| Effects.LifeRunsDown | internal/sim/sim.go:481-496 | A projectile that has flown has a tick less to live, and its last tick is its end |
| Effects.WhoFires | internal/sim/sim.go:498-574 | Every player that wants to, is not running, has reloaded and is no longer protected has fired and reloads for six ticks, unless 64 projectiles are in flight; nobody else has |
| Effects.SnipeHeeds | internal/sim/sim.go:347-388 | Each deciding snipe has the facing and the velocity its decision gives at the level's speed; the others stay as they are |
| Effects.SnipeRemembers | internal/sim/ai.go:161-232 | It remembers what it decided, with the level's cooldown to go exactly if it has shot |
| Effects.FirstPlace | internal/sim/generator_emit.go:83-130 | The tile found is the first of the eight, two tiles off straight and then diagonally, with room for a snipe |
| Effects.WhoHatches | internal/sim/generator_emit.go:7-70 | Every new snipe is a newborn on one of those tiles around a live generator: at rest, protected, its birth and parent on record |
| Effects.GeneratorTurns | internal/sim/generator_emit.go:20-70 | A generator counts down; at zero, below the cap and with room on one of its tiles, it starts again from 120 to 240 ticks, and it never starts again without a newborn of its own on one of them |
| Effects.GiveWay | internal/sim/snipe.go:168-219 | Two snipes less than 256 apart on both axes: the higher ID is put 257 from the other on the axis of greater distance, on its own side, and stops on it, unless a wall is there |
| Effects.LeastStays | internal/sim/snipe.go:148-221 | Nobody gives way to a higher ID: the live snipe with the least stays where it is |
| Effects.NoticesWall | internal/sim/sim.go:366-388 | A snipe remembers a wall exactly when its move has stopped it on an axis |
| Effects.DeathMeans | internal/sim/sim.go:653-691 | What a death comes to: one life and five points less, back in 90 ticks if lives are left and the match lets it, 25, 10 or 1 for whoever killed it |
| Effects.ThreeBest | internal/sim/respawn.go:8-67 | Of any three open spawns one is no better than the one chosen: no farther from the nearest threat, or as far and later in row order |
| Effects.TurnMeans | internal/sim/sim.go:576-615 | A dead player whose tick has come is back in the middle of an open spawn with one point of health and 60 ticks of protection, or tries again next tick when none is open; nothing else changes |
| Effects.WhoReturns | internal/sim/sim.go:576-615 | Through step 8 exactly those due are back, or have found no spawn open at the end |
| Effects.ProtectionEnds | internal/sim/sim.go:617-636 | Protection is over exactly in the tick it was to last to |
| Effects.WhoIsCleared | internal/sim/sim.go:702-739 | Exactly dead generators and snipes go, and dead players that are out or never come back; those out keep their record |
| Effects.MachinesStay | internal/sim/sim.go:702-739 | Those that stay keep their timers and their minds |
| Effects.ViewTick | internal/sim/combat.go:38-49 | A shot delayed by n ticks is judged by how things stood n + 2 ticks ago, at most eight |
| Effects.NineKept | internal/sim/history.go:24-53 | Of the samples written the last nine are kept |
| Effects.WhoIsSampled | internal/sim/sim.go:747-777 | Everyone in the slab has one more sample, as it stands; what is left of the departed goes once it is two ticks old |
| SnipeMind.RestsBriefly | internal/sim/ai.go:9-45 | A newborn rests, protected, for 15 ticks and no longer, and then patrols |
| SnipeMind.PatrolSpots | internal/sim/ai.go:46-80 | A patrol keeps its heading until its timer or a wall makes it draw another of the four, for 30 to 90 ticks; it walks on exactly while it sees nobody, and then goes after the one of least ID |
| SnipeMind.AttacksInSight | internal/sim/ai.go:161-232 | An attacker stands and shoots in the very tick its cooldown is over as long as it sees its target, chases again when it does not, and patrols when the target is gone |
| SnipeMind.AimLeads | internal/sim/ai.go:236-271 | It aims at the target, or at where the target will be in half or all of the whole ticks a shot takes to cover the distance, as its level has it |
| SnipeMind.SeesInRange | internal/sim/ai.go:302-311 | It sees whoever is within its range in tiles and in line of sight |
| SnipeMind.QuarryGone | internal/sim/ai.go:83-92 | With its target gone or dead a chaser keeps its course for the tick and patrols next |
| SnipeMind.CoolsDown | internal/sim/ai.go:9-33 | Whatever a snipe decides, one tick of its cooldown is over |
| SnipeMind.ChaseFollows | internal/sim/ai.go:83-158 | A chaser follows its plan of at most three tiles, dropping those reached, to the middle of the next; it plans anew when it has none, and every fifteen ticks, searching four tiles farther than it sees |
| Openings.LevelTable | internal/sim/levels.go:37-107 | The level table, row by row: speed, cooldown, lead, range, health, snipes and lives |
| Openings.HarderLater | internal/sim/levels.go:37-107 | A later letter or a higher digit is never easier |
| Openings.ValidMeans | internal/sim/sim.go:122-158 | Exactly which sizes, player IDs and levels are valid |
| Openings.MarkersStand | internal/sim/maze.go:284-398 | In every generated map generators and spawns stand in the middle of cells, generators off the rim; no two of a kind are within 14 tiles, no spawn within 7 of a generator |
| Openings.RimFirst | internal/sim/maze.go:330-398 | A spawn off the rim means that the rim had no room left, at 14 tiles from generators, or at 7 where the players could not all be placed at 14 |
| Openings.HowManyGenerators | internal/sim/maze.go:136-147 | As many generators as players and one, at least three and at most nine; fewer only where the inner cells are not four for each |
| Openings.PlayersStart | internal/sim/sim.go:50-73 | Each player stands on its spawn, whole, protected until tick 60 and with the lives of its level |
| Openings.GeneratorsStart | internal/sim/sim.go:75-117 | Generators follow in row order under the IDs after the largest player ID, with the health of the level and a first timer of 120 to 240 ticks |
| Openings.NothingElse | internal/sim/sim.go:41-119 | Nothing else is in the slab |
| MatchTerms.SlotFate | internal/match/match.go:1297-1315 | A slot that is sent frames has taken them all, or its queue was full before the last, and then it is out and its channel closed |
| MatchTerms.LastFrames | internal/match/match.go:1009-1040 | Every bound channel is closed at the end, having taken the last frames or as many as it had room for |
| MatchTerms.BackMeans | internal/match/reconnect.go:65-108 | Whoever is back is out of grace on its new channel, which brings Resync, MapInit, Snapshot, Scoreboard and the rejoin; the others get the rejoin only |
| MatchTerms.SeatedMeans | internal/match/match.go:626-685 | A first join puts the slot on its channel and tells it, and touches no other |
| MatchTerms.StartMeans | internal/match/match.go:687-814 | With everyone in, live exactly with a map and one player against the machine or two against each other; what every slot has then been sent, and when its grace ends; otherwise every channel closed |
| MatchTerms.VerdictIs | internal/match/match.go:922-1002 | The verdict case by case in its order of precedence, the clock running out at tick 18000 and won by a strict leader only |
| MatchActor.StayersGet | internal/match/match.go:817-920 | Whoever still has its channel after a tick has been sent exactly its events, the departures, the scoreboard when due and, every second tick unless the one before ran long, a snapshot |
| NearFirst.NearerFirst | internal/match/aoi.go:42-251 | For each of the seven levels by kind, shooter, distance and previous view: if somebody on a level is left out, nobody shown is on a later level only, and nobody shown on this level only is farther in whole tiles, ties by ID |
| Aoi.ReadsBack | internal/match/aoi.go:66-82 | Kind, facing and flags can be read off the codes that are sent, and the rest is sent as it is |
| LobbyHall.DescribedShows | internal/lobby/room.go:55-65 | What clients are shown of a room: its own name, level and state, as many players as it has members, and at most as many as it has places |
| ChatBucket.FirstFour | internal/lobby/chat.go:26-50 | From a new bucket the first four calls of any non-decreasing run are let through |
| ChatBucket.PauseEarns | internal/lobby/chat.go:26-50 | After a quiet of k refill steps of 500 ms, at least min(k, 4) of the next calls are let through |
| ChatBucket.NeverHeldBack | internal/lobby/chat.go:26-50 | Calls at least 500 ms apart are all let through |
| ClientWire.ReadSnapshot | web/src/proto.ts:237-263 | Refused exactly for a wrong length or more than 64 entities; whatever the server encodes is read back field by field from fixed places |
| ClientWire.ReadFrame | web/src/proto.ts:219-235 | Exactly what the server would unframe, and every frame of the server gives back its header and payload |
| ClientWire.ReadMapInit | web/src/proto.ts:265-275 | The same for the map |
| ClientWire.ReadMatchOver | web/src/hud.ts:102-122 | The same for the end of a match |
| ClientWire.ReadScoreboard | web/src/hud.ts:69-93 | The same for the scoreboard, row by row |
| ClientWire.WriteInput | web/src/proto.ts:284-295 | Refused exactly for what the server would refuse; otherwise the server decodes the same input |
| ClientWire.WriteMatchJoin | web/src/proto.ts:302-310 | The same for the join with its token of 1 to 32 bytes |
| ClientWire.WriteFrame | web/src/proto.ts:205-215 | The server unframes exactly the payloads that fit; the length of a longer one wraps and it finds trailing bytes |

## Left out

- Transport, HTTP, TLS, JSON envelopes, rendering, audio and input: libraries and presentation.
- The random stream of each snipe and generator: headings, timers and cooldowns are arbitrary within their bounds.
- One-way-time smoothing is a number of ticks on the input.
- Event lists of a tick: the record of kills and respawns is kept instead; the match model counts events.
- Which boxes a client knows of: it is only shown generators near it. `SameInputsAgree` is about ticks for which it had those of the server and through which its player lives, connected.
- Wrap-around of 32-bit tick counters and entity coordinates; entity IDs do run out, at their 32-bit limit.
- Spawn statistics and metrics: nothing proved depends on them.
- The slab, the slots of a match and the lobby's maps are one value reassigned step by step in fields of `Sim`, `Match` and `Lobby`, not separately mutated cells: aliasing of entity references is not captured. The history ring, the carving board, the sorts and the packers are in place.
- History samples in the slab are kept as logs; the ring class is proved to hold the last nine of such a log.
- `sort.Slice` is a sorting function or an insertion loop; which algorithm sorts is not modelled.
- Failing encoders and panics inside the match, which abort it: `Abort` is modelled, the calls to it from encoders are not; `Aoi.AlwaysEncodes` shows snapshots never take that path.
- `handleClose`, which nothing posts; draining the inbox after the end; the tail absorber; goroutines and timers.
- Buffering of inputs between ticks (the latest of each player wins) and pong handling in the match.
- Scoreboard deltas and their rate limiter: whether a tick broadcasts one is arbitrary.
- Nickname sanitising and suffixes, trimming of text, level validation: results arrive as arguments.
- Room and session identifiers are fresh, and the first enqueue after hello succeeds.
- The registry of matches and `sweepZeroPlayerMatches`: creation may fail arbitrarily, nothing else is used.
- Server chat inside a match, histogram quantiles, interpolation: floating point obscures what little there is to prove.
- MatchActor.Match.Tick: what the simulation reports is an argument, because the actor is proved for any simulation; `Game.Tick` gives it the reports of `Sim`, all but the number of events and whether a scoreboard is due.
- MatchSlots.TrySend: readers drain arbitrarily, so which sends fail is not determined, only that a failing one met a full queue.
- RoomViews.LobbyClient.Handle: callbacks to the page are not modelled.
- ClientWire.ReadScoreboard: the rows as they arrive; the page sorts them by score for display and decodes the names.
