# Labyrinth: a verified model of the authoritative server

Labyrinth is a turn-based multiplayer board game: one to four players walk a
6 x 6 maze and collect items. This project models the server side of
`src/main.rs`, where the game actually happens:

- the maze and how it is generated, from the barrier grids up;
- the 24 items and the pool that targets are drawn from;
- player creation when clients connect;
- the state machine of game state, turn phase and current turn;
- how roll and move requests are resolved.

The model proves:

- the maze generator only keeps barriers that leave every cell reachable;
- the flood fill marks exactly the cells reachable from the origin;
- the server state stays well formed;
- items are conserved, so every item is in exactly one place;
- turns pass round robin;
- a won game is final.

Modules:

- `Wrappers`: an `Option` type.
- `Board`:
  - cells, adjacency and bounds;
  - `MoveRequest::delta`, as `Delta`;
  - the start corners, from `get_player_start_coords`.
- `Items`:
  - the item enumeration, `Item::coords`, `Item::ALL` and `atlas_index`;
  - `Vec::remove`;
  - the `AvailableItems` pool, as a class whose `items` sequence `TakeRandom` shrinks in place.
- `Walls`: barrier positions and the theory of reachability through unblocked steps. It defines:
  - paths and connectivity;
  - the flood-fill invariants `Explored`/`Covered`;
  - `Place`/`Fill`, the specification of the generator's rejection sampling.
- `MazeGen`: the `Maze` class over the source's two boolean grids, `horizontal_bars[5][6]` and `vertical_bars[6][5]`.
  - `IsBlocked` is a function.
  - `Dfs`/`Visit` mark a `reachable` grid in place.
  - `IsValid` runs the flood fill and scans the grid.
  - `TryPlace` and its two orientation cases set a barrier and revert it on failure.
  - `PlaceOne` is the inner `loop` of `generate`, and `Generate` is the whole of it.
- `Rules`: a pure value model of the server state (`Table`) and of what `server_on_events` and `server_receive_requests` do to it:
  - `Connect`/`ConnectAll`;
  - `RollStep`/`Rolls`;
  - `MoveStep`/`Collect`/`Moves` over a `Batch`, which holds `new_steps_taken` and the number of pool draws made so far;
  - `EndOfBatch`;
  - `Tick`.
- `RulesProps`: the properties of `Rules`:
  - the structural invariant `WellFormed` and its preservation;
  - conservation of items;
  - the exact effect of a connection, a roll, a move and a batch.
- `Authority`: the `Server` class. Its fields are the resources and components the server mutates. Each method is proved to have exactly the effect of the matching `Rules` function:
  - `Join`/`OnConnections` stand for the `ClientConnected` branch;
  - `Roll`/`RollAll`, `Move`/`Arrive`/`MoveAll`, `FinishBatch` and `ReceiveRequests` stand for `server_receive_requests`.

Randomness is supplied by the caller:

- `generate`'s coin flip and position are one `Bar` per draw, in a finite sequence `draws`.
- The dice roll is an index `face` into the faces `[1, 2, 2, 3, 3, 4]`.
- Each `take_random` uses the next entry of a schedule `picks`. `LegalPicks` requires the k-th pick to be in range for the pool after k draws.

## Model

| member | source | states |
|---|---|---|
| Board.Delta | src/main.rs:1031-1039 | each request direction is a unit step along one axis, with the sign of its direction |
| Board.Target | src/main.rs:753 | the requested next position is adjacent to the current one |
| Board.DirectionTo | src/main.rs:1024-1039 | every adjacent cell is reached by some request direction (the inverse of Delta) |
| Board.TargetAdjacentAndDistinct | src/main.rs:1031-1039 | distinct directions reach distinct neighbours, and DirectionTo recovers the direction |
| Board.StartCoords | src/main.rs:896-901 | players 0..3 start in a corner of the board |
| Board.StartCornersDistinct | src/main.rs:896-901 | the four start corners are pairwise distinct |
| Board.StartCornersAre | src/main.rs:896-901 | the corners are (0,0), (0,5), (5,0), (5,5) for players 0, 1, 2, 3 |
| Items.Coords | src/main.rs:1165-1190 | every item's cell lies on the 6 x 6 board |
| Items.ItemAt | src/main.rs:1165-1190 | the reverse table only names an item whose cell is the given one |
| Items.ItemAtCoords | src/main.rs:1165-1190 | the reverse table inverts Item::coords |
| Items.CoordsInjective | src/main.rs:1165-1190 | no two items share a cell |
| Items.NoItemOnStartCorner | src/main.rs:1165-1190 | no item lies on a start corner |
| Items.AtlasIndex | src/main.rs:1192-1197 | the atlas index of an item lies in 0..36 |
| Items.AtlasIndexRoundTrip | src/main.rs:1192-1197 | atlas_index is in 0..36, decodes back to the item's cell, and is injective |
| Items.AllDistinct | src/main.rs:1146 | Item::ALL has 24 pairwise distinct entries |
| Items.AllContains | src/main.rs:1146 | every item is in Item::ALL |
| Items.AllOnce | src/main.rs:1202-1208 | the initial pool holds each item exactly once |
| Items.Remove | src/main.rs:1216 | Vec::remove drops the element at the index: the length drops by one, the others keep their order, and the multiset loses exactly that element |
| Items.Take | src/main.rs:1211-1218 | take_random gives None iff the pool is empty (the pool is then unchanged); otherwise it gives the element at the index and removes exactly it |
| Items.AvailableItems.constructor | src/main.rs:1202-1208 | the pool starts as Item::ALL |
| Items.AvailableItems.TakeRandom | src/main.rs:1211-1218 | the in-place take_random returns what Take computes and leaves Take's remaining pool |
| Walls.BetweenIsTheSeparatingBar | src/main.rs:1127-1134 | the barrier is_blocked reads is the one, and only one, barrier separating the two cells; it is on the board and does not depend on the order of the cells |
| Walls.BlockedIffSeparated | src/main.rs:1127-1134 | a step is blocked iff a set barrier separates the two cells |
| Walls.BlockedSymmetric | src/main.rs:1127-1134 | is_blocked(a, b) == is_blocked(b, a) |
| Walls.FloodFillMarksReachable | src/main.rs:1091-1125 | after a flood fill from pos over an empty grid, a cell is marked iff it is connected to pos by unblocked steps |
| Walls.AllPairsConnected | src/main.rs:1085-1089 | in a valid maze any two cells are joined by a walk |
| Walls.EmptyFullyConnected | src/main.rs:1050-1053 | the starting maze without barriers is fully connected |
| Walls.Place | src/main.rs:1058-1077 | one attempt adds the drawn barrier or nothing; it adds it exactly when it was unset and keeps the maze fully connected; a connected maze stays connected |
| Walls.Fill | src/main.rs:1056-1080 | rejection sampling never removes a barrier and never misses more barriers than it was asked for |
| Walls.FillKeepsConnected | src/main.rs:1056-1080 | every barrier kept by rejection sampling leaves the maze fully connected, and only drawn positions are set |
| Walls.FillCounts | src/main.rs:1056-1080 | each kept barrier is new: barriers set plus barriers still missing stays constant, and no barrier is removed |
| MazeGen.Maze.constructor | src/main.rs:1050-1053 | the maze starts with no barrier set |
| MazeGen.Maze.IsBlocked | src/main.rs:1127-1134 | the grid lookup equals Blocked on the set of barriers (requires adjacency, as the source's assert does) |
| MazeGen.Maze.Dfs | src/main.rs:1091-1125 | marks pos; every newly marked cell is reachable from pos; every newly marked cell has all its open neighbours marked |
| MazeGen.Maze.Visit | src/main.rs:1093-1100 | one neighbour test: the marked set only grows, and the neighbour is marked afterwards whenever the step to it is open |
| MazeGen.Maze.IsValid | src/main.rs:1085-1089 | returns true iff every cell is connected to (0,0) |
| MazeGen.Maze.TryPlace | src/main.rs:1058-1077 | one attempt: an already set position, or one whose barrier disconnects the maze, leaves the maze unchanged; otherwise exactly that barrier is added |
| MazeGen.Maze.TryHorizontal | src/main.rs:1058-1067 | the attempt for a horizontal position, with TryPlace's contract |
| MazeGen.Maze.TryVertical | src/main.rs:1068-1077 | the attempt for a vertical position, with TryPlace's contract |
| MazeGen.Maze.PlaceOne | src/main.rs:1057-1078 | draws until one barrier is kept or the draws run out, following Fill |
| MazeGen.Maze.Generate | src/main.rs:1049-1083 | the barriers are those of the rejection-sampling specification Fill; the maze is fully connected; when complete, exactly numTiles barriers are set |
| Rules.ConnectCounted | src/main.rs:866-886 | a connection observed with `count` players appends one player with number count on corner StartCoords(count), keeping the other players, dice, phase and turn |
| Rules.Connect | src/main.rs:866-886 | the new player's number is the number of players that exist |
| Rules.ConnectAll | src/main.rs:862-891 | a run of connections appends one player per event, keeps the existing ones, and numbers every new player by its position |
| Rules.ConnectAllDeferred | src/main.rs:864-886 | the connections as written (count fixed for the whole run) add one player per event |
| Rules.FindHolder | src/main.rs:727-729 | returns the first player with the requesting client id whose number is the current turn; None iff no player is both |
| Rules.RollStep | src/main.rs:723-738 | a roll leaves players, pool, game state and turn unchanged |
| Rules.Rolls | src/main.rs:722-739 | the roll loop leaves players, pool, game state and turn unchanged |
| Rules.Collect | src/main.rs:784-799 | a pickup never changes phase, turn, dice or the step count, and changes the game state only to Win |
| Rules.MoveStep | src/main.rs:744-799 | a move request never changes phase, turn or dice, never lowers the step count, and changes the game state only to Win |
| Rules.Moves | src/main.rs:741-801 | the move loop never changes phase, turn or dice, never lowers the step count, and changes the game state only to Win |
| Rules.EndOfBatch | src/main.rs:803-831 | the update after the move loop changes no player, pool, game state or dice and only appends broadcasts; the turn stays or passes to (turn + 1) % players with the phase back to Rolling |
| Rules.Tick | src/main.rs:704-832 | server_receive_requests keeps the number of players, only ever changes the game state from InGame to Win, and the turn either stays or passes to the next number |
| Rules.MovesAfterWin | src/main.rs:787-794 | once the game is won, the rest of the batch is not processed |
| RulesProps.InitialWellFormed | src/main.rs:1202-1208 | the startup state is well formed |
| RulesProps.ConnectWellFormed | src/main.rs:864-886 | a connection while seats are free keeps the state well formed |
| RulesProps.ConnectAllWellFormed | src/main.rs:862-891 | a run of connections keeps the state well formed |
| RulesProps.RollsWellFormed | src/main.rs:722-739 | the roll loop keeps the state well formed |
| RulesProps.CollectOk | src/main.rs:784-799 | a pickup keeps the batch well formed |
| RulesProps.MoveStepOk | src/main.rs:744-799 | a move request keeps the batch well formed, including coordinates on the board |
| RulesProps.MovesOk | src/main.rs:741-801 | the move loop keeps the batch well formed |
| RulesProps.TickWellFormed | src/main.rs:704-832 | server_receive_requests keeps the state well formed: numbering, bounds, turn < players, dice a face, steps < dice, and Win iff someone holds five items |
| RulesProps.HeldAppend | src/main.rs:867-878 | adding a player adds its items to those the players hold |
| RulesProps.HeldAt | src/main.rs:760-798 | replacing player k swaps exactly its items |
| RulesProps.InitialConserved | src/main.rs:1202-1208 | at startup every item is accounted for exactly once |
| RulesProps.ConnectKeepsTotal | src/main.rs:864-886 | a new player's target comes out of the pool: no item is created or lost |
| RulesProps.ConnectAllConserves | src/main.rs:862-891 | player creation neither creates nor loses items |
| RulesProps.SwapKeepsTotal | src/main.rs:784-799 | replacing a player and the pool keeps the total when their items balance |
| RulesProps.CollectKeepsTotal | src/main.rs:784-799 | a pickup neither creates nor loses an item: the multiset of all items in the pool, targets and achieved lists is unchanged |
| RulesProps.MoveStepKeepsTotal | src/main.rs:744-799 | a move request neither creates nor loses items |
| RulesProps.MovesKeepTotal | src/main.rs:741-801 | the move loop neither creates nor loses items |
| RulesProps.TickConserves | src/main.rs:704-832 | server_receive_requests neither creates nor loses items |
| RulesProps.ConservedOnce | src/main.rs:1146 | in a conserved state every item is in exactly one place |
| RulesProps.TargetHeldOnce | src/main.rs:784-799 | an item held once that is a player's target is not in the pool, not achieved, and nobody else's target |
| RulesProps.ConservedTargets | src/main.rs:784-799 | so in every conserved state targets are unique and not yet achieved |
| RulesProps.StartsDistinct | src/main.rs:896-901 | the players of a well-formed table start on pairwise distinct corners |
| RulesProps.ConnectEffect | src/main.rs:864-886 | the new player is appended with number = existing count, coords = prev_coords = its corner (distinct from the others), no achieved items; its target and the new pool are exactly take_random's result; InGame is set and broadcast iff existing + 1 == max_players; dice, phase and turn are unchanged |
| RulesProps.ConnectAllStartsGame | src/main.rs:880-885 | the connection that fills the last seat starts the game |
| RulesProps.RollsEffect | src/main.rs:722-739 | the die shows 1..4; the roll loop sets dice and Moving(0) and broadcasts once iff the phase was Rolling and the turn holder rolled, otherwise it changes nothing |
| RulesProps.MoveIgnored | src/main.rs:745-752 | a request after a win, once steps reach the dice value, or from anyone but the turn holder changes nothing |
| RulesProps.HolderIsTurn | src/main.rs:748-750 | in a well-formed table the turn holder is player number turn and no other |
| RulesProps.MoveOffBoard | src/main.rs:753-758 | a step off the board changes nothing |
| RulesProps.MoveBlocked | src/main.rs:760-771 | a blocked step sends the mover back to its corner (prev_coords = old coords), sets steps to the dice value and broadcasts a failed animation; nothing else changes |
| RulesProps.MoveClear | src/main.rs:772-799 | an open step moves the holder to the target cell, counts exactly one step and broadcasts it; a pickup appends the target; the fifth item wins, clears the target, leaves the pool and broadcasts Win; any other pickup draws the next target with take_random |
| RulesProps.WinIsFinal | src/main.rs:100-103 | once the game is won, request handling no longer changes anything |
| RulesProps.TickTurnOrder | src/main.rs:803-831 | the turn either stays or becomes (turn + 1) % players with the phase back to Rolling, and it passes exactly when a moving batch ends in Rolling without a win |
| RulesProps.MovesSpent | src/main.rs:744-747 | once steps taken reach the dice value, every further move request of the batch is ignored |
| RulesProps.TickPhase | src/main.rs:787-831 | after the move loop: a win skips the update; no new step leaves phase and turn; fewer steps than the dice value give Moving(new count) with the same turn; reaching it passes the turn to (turn + 1) % players and goes back to Rolling, with the broadcasts in that order |
| RulesProps.BlockedStepEndsTurn | src/main.rs:760-771 | a step into a wall ends the turn whatever the die shows and however many steps were taken: later requests are ignored, the mover is on its corner and the next player is to roll |
| RulesProps.DeferredSpawnsCollide | src/main.rs:864-886 | as written, two connections in one run both get number 0 and the same corner, and the game stays WaitingPlayers |
| RulesProps.CountedSpawnsStart | src/main.rs:864-886 | counting each connection after the previous one, they get numbers 0 and 1 on distinct corners, and the game starts |
| RulesProps.WaitingIsIdle | src/main.rs:100-103 | before the game starts, request handling does nothing |
| Authority.Server.constructor | src/main.rs:1202-1208 | the server starts with no players, dice 0, WaitingPlayers, Rolling, turn 0 and the full pool |
| Authority.Server.Join | src/main.rs:864-886 | one ClientConnected event has exactly the effect of Connect, and the pool shrinks by one unless empty |
| Authority.Server.OnConnections | src/main.rs:862-891 | the connection events of a run have exactly the effect of ConnectAll |
| Authority.Server.Roll | src/main.rs:723-738 | one roll request has exactly the effect of RollStep |
| Authority.Server.RollAll | src/main.rs:722-739 | the roll loop has exactly the effect of Rolls |
| Authority.Server.Move | src/main.rs:744-799 | one move request has exactly the effect of MoveStep on the batch; the game state only changes to Win |
| Authority.Server.Arrive | src/main.rs:784-799 | the pickup after a successful step has exactly the effect of Collect |
| Authority.Server.MoveAll | src/main.rs:741-801 | the move loop, stopping at a win, has exactly the effect of Moves |
| Authority.Server.FinishBatch | src/main.rs:803-831 | the end-of-batch update has exactly the effect of EndOfBatch |
| Authority.Server.ReceiveRequests | src/main.rs:704-832 | server_receive_requests has exactly the effect of Tick, and keeps the server's invariant |

## Left out

- Rendering and animation are not modelled: all `client_*` systems, the `calc_*` helpers, `get_anim_delta`, explosions and move animations. They are floating-point presentation code. Only the `PlayerStartMoveAnimation` broadcast is kept, as an event in the output sequence.
- `init`, the renet/replicon transport and replication are not modelled. The network is represented only by the ordered `events` sequence of broadcasts.
- The `Cli` parser is not modelled.
  - Its `max_players` range 1..=4 becomes a precondition of the `Server` constructor and of `WellFormed`.
  - Its `tiles` range 15..=20 is not needed: `Generate` is proved for every count.
- Authority.Server.OnConnections: follows the corrected `Rules.ConnectAll`, which counts each connection after the previous one. With two or more connections in one run, the source as written numbers them all with the count from before the run. That behaviour is modelled separately by `Rules.ConnectAllDeferred` (see Findings), not by the `Server` class.
- The `ClientDisconnected` branch is not modelled. It stops the process.
- `rand::thread_rng` is replaced by caller-supplied choices: `draws`, `face` and `picks`. Uniformity of the distributions is not modelled.
- MazeGen.Maze.Generate: the source's inner `loop` has no bound. It can run forever when no position is acceptable. The model consumes a finite sequence of draws and reports `complete == false` if the draws run out first.
- Bevy's `NextState` transitions are not modelled as deferred: they are written straight into the fields. The system already mirrors the phase in its local `turn_phase`, and a won game is gated off by `run_if(in_state(GameState::InGame))`. So the immediate write gives the same observable behaviour.
- Player components are kept by value in a sequence in spawn order, which stands for the ECS query order. Entity identity and aliasing are not modelled.
- Integer widths are not modelled. The step counters and dice are `u8` and the turn is `usize`, but every value in play stays at most 36, so no wrap-around can occur.
- `generate` draws a position and retries if that barrier is already set; the model follows this retry.

## Findings

| source | as written | input that shows it | evidently intended | confidence | as-written member | corrected member |
|---|---|---|---|---|---|---|
| src/main.rs:864-886 | the player count comes from a query, but players are spawned through deferred `Commands`, so the count does not change during one run of `server_on_events` | two `ClientConnected` events in the same run with no players yet and `max_players` = 2 | each connection is numbered after the previous ones: numbers 0 and 1 on distinct corners, and the game starts | medium, not executed | RulesProps.DeferredSpawnsCollide | RulesProps.CountedSpawnsStart |

On that input both players get number 0 and the same corner. `num_existing_players + 1` never equals 2, so the game stays in `WaitingPlayers`. `Rules.ConnectAllDeferred` models the code as written. The rest of the model, including `Authority.Server.OnConnections`, uses the corrected `Rules.ConnectAll`.
