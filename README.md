# stackrankdice — a Dafny model of board generation and turn logic

stackrankdice is a Dice-Wars-like territory game on a hexagonal grid.
`generate_board` grows one patch per player per round out of random seed
hexes into a connected landmass of regions, then deals each region one to
three dice from a per-player budget. During play, a player picks one of
their regions and then a touching enemy region; both sides roll their
dice, the higher sum takes the loser's region (ties go to the defender),
dice are split between the two regions, the turn passes once the player
has no unused region left that can attack, and the game ends when one
player owns every region.

This project models that core in Dafny:

- `hex_grid.dfy` (module `HexGrid`): axial hex coordinates and their six
  neighbours. The neighbour relation is symmetric and is exactly "distance 1".
- `game.dfy` (module `Game`): `Region`, `Board`, the opponent test
  `Region::is_opponent`, and the board invariants: footprint partition,
  owner map, ids, and per-owner counting.
- `generation.dfy` (module `Generation`): `generate_board`, written as
  imperative methods. These are seed sampling, patch growth, the
  connectivity gate, the round loops and dice allocation. Randomness is a
  caller-supplied stream `draws: nat -> nat`, so every property holds for
  every sequence of random choices.
- `events.dfy` (module `Events`): the decision logic of the event
  handlers. `GameState` is a class whose methods update the board, turn
  and log in place. `SelectedRegion` is a class holding the current pick.
- `wrappers.dfy` (module `Wrappers`): `Option` and `Result`.

Two record shapes exist in the source. `GameState` and `GameLogEntry` are
modelled as `src/events.rs` uses them, because those are the fields the
handlers read and write. That means a board inside the game state, and
log entries that carry both region snapshots, both dice sums and the turn
stamps. The declarations at `src/game.rs:208-220` differ from this shape.

## Model

| member | source | states |
|---|---|---|
| HexGrid.Neighbors | src/game.rs:63 | a hex has six pairwise distinct neighbours, none of them the hex itself |
| HexGrid.NeighborsAtDistanceOne | src/game.rs:61-70 | the six neighbours scanned for a hex are exactly the hexes at hex distance one |
| HexGrid.NeighborSymmetric | src/game.rs:61-70 | b neighbours a if and only if a neighbours b |
| Game.IsOpponent | src/game.rs:56-74 | result is true if and only if the owners differ and some hex of the region has a neighbour in the other region; equal owners give false |
| Game.OpponentSymmetric | src/game.rs:56-74 | a can attack b if and only if b can attack a |
| Game.FootprintMember | src/game.rs:176-183 | a hex is in the board's footprint exactly when some region lists it |
| Game.FootprintSameHexes | src/game.rs:197-203 | changing only dice or owners leaves the footprint unchanged |
| Game.CountOwnedAll | src/events.rs:259-270 | a player's region count is at most the number of regions, and equals it exactly when the player owns every region |
| Game.CountOwnedPrefix | src/game.rs:197-203 | a prefix of the region list never holds more of a player's regions than the whole list |
| Game.SumDiceBound | src/game.rs:197-203 | with at most `cap` dice per region, a player's dice are at most `cap` times their region count |
| Generation.PatchSize | src/game.rs:80-81 | the patch size is the largest size whose 16 patches per player cover at most half of the 20 × 20 board |
| Generation.GenRange | src/game.rs:98-99 | a `gen_range(lo..hi)` draw lies in `[lo, hi)` |
| Generation.GenRangeCovers | src/game.rs:98-99 | every value of `[lo, hi)` is the outcome of some draw stream |
| Generation.FindBorderHex | src/game.rs:114-133 | the scan visits the patch as a rotation starting at a drawn position and returns the first visited hex that has a free neighbour; it returns none only when no patch hex has one |
| Generation.VisitOrder | src/game.rs:116-118 | the visit order lists every patch hex and nothing else |
| Generation.FreeNeighbours | src/game.rs:141-147 | the candidates are exactly the untaken neighbours, and the list is non-empty if and only if the hex has a free neighbour |
| Generation.GrowPatch | src/game.rs:110-151 | the patch starts at the seed, has 1 to patch_size + 1 distinct hexes, each after the seed neighbouring an earlier one, none on the board; the snapshot is the board map plus the patch stamped with the player; growth stops early only when no patch hex has a free neighbour |
| Generation.TouchesBoard | src/game.rs:157-166 | true if and only if some patch hex neighbours a hex already on the board |
| Generation.PlacePatch | src/game.rs:88-187 | a slot either leaves the board unchanged or appends one region of the player: a grown patch on free hexes with id = old region count, zero dice, touching the board unless it is the first slot, and the map extended by the patch |
| Generation.AcceptedKeepsLayout | src/game.rs:176-183 | appending an accepted patch keeps ids, owners, patch shapes, the partition, the owner map and the landmass |
| Generation.AppendDisjoint | src/game.rs:102-104 | a patch built from free hexes is disjoint from every earlier region |
| Generation.AppendOwnersAgree | src/game.rs:176-183 | after the snapshot is adopted, every region hex maps to its owner |
| Generation.AppendLandmass | src/game.rs:168-176 | every region after the first touched the land placed before it |
| Generation.PlaceStep | src/game.rs:87-188 | appending one region of the current player raises only that player's count, so after players 0..player each holds at most one region more than before the round |
| Generation.PlaceSlot | src/game.rs:87-188 | one accepted slot keeps the layout invariant, adds at most one region, and keeps each player's per-round gain at most one |
| Generation.FirstSlotExempt | src/game.rs:157-176 | onto an empty board only the exempt first slot (patch 0 of player 0) is accepted, because no patch can touch an empty board |
| Generation.PlaceRound | src/game.rs:87-188 | one round keeps the layout invariant and gives each player at most one new region |
| Generation.AllocateDice | src/game.rs:191-203 | every region gets 1 to 3 dice and nothing else changes; each player's dice are at most 3 per region and at most the budget of 64; the draw range is never empty |
| Generation.PlaceAllPatches | src/game.rs:86-189 | after all 16 rounds the layout invariant holds, the first region is player 0's, there are at most 16·n regions, and each player holds at most 16 |
| Generation.BudgetSuffices | src/game.rs:191-203 | before a region is dealt, its owner still has at least four dice of the 64 left, so `gen_range(1..min(4, budget))` is `1..4` |
| Generation.DealStep | src/game.rs:196-201 | dealing 1 to 3 dice to a region and charging them to its owner keeps budget plus dice dealt equal to 64 and at most 3 dice per region for every player |
| Generation.DealtCounts | src/game.rs:191-203 | dealing at most three dice per region keeps every player's region count, so each player's dice stay within 3 × 16 ≤ 64 |
| Generation.DealtBoard | src/game.rs:191-205 | dealing dice onto a laid-out board yields a finished board |
| Generation.GenerateBoard | src/game.rs:77-206 | zero players fails with InvalidPlayerCount; any other failure is GenerationFailed. On success: ids equal indices; regions are pairwise disjoint; the map's keys are the union of region hexes and map to owners; there are at most 16·n regions; every owner is below n; every region is a grown patch of 2..patch_size + 1 hexes from a seed in the sampling window; every region after the first touched earlier land; the first region belongs to player 0; dice are 1..3; each player holds at most 16 regions and at most 64 dice |
| Generation.GrownReachable | src/game.rs:110-151 | every hex of a grown patch is reached from its seed by neighbour steps inside the patch |
| Generation.LandmassHasOpponents | src/game.rs:157-176 | on a landmass where a second owner is present, some region of the first region's owner can attack some region |
| Generation.SameShapeLandmass | src/events.rs:185-215 | changing owners and dice keeps the landmass |
| Generation.SameShapePartition | src/events.rs:185-215 | changing owners and dice keeps the footprint partition |
| Events.SelectedRegion.constructor | src/app.rs:56 | the game starts with nothing selected |
| Events.RegionSelected | src/events.rs:46-76 | no pick leaves everything unchanged; picking one's own region selects it; picking another's region deselects and emits a clash exactly when a region was selected and it touches the picked one; a selection made in the current turn only launches that player's attacks on another player |
| Events.StartEntries | src/events.rs:106-113 | one log entry per clash start, carrying both region snapshots, zero sums and the current player and turn counter |
| Events.ClashStartMarksMoved | src/events.rs:106-113 | logging clash starts adds exactly their attackers to the regions that moved this turn |
| Events.Sum | src/events.rs:134-135 | a side's dice sum is at least each of its faces, and zero when every face is zero |
| Events.WithSums | src/events.rs:130-135 | only the last log entry changes: it receives both sums and keeps its regions and stamps |
| Events.MovedThisTurn | src/events.rs:218-226 | every attacker logged with the current turn counter and player is in the moved set; an empty log moves nobody |
| Events.SumsKeepMoved | src/events.rs:129-136 | overwriting the last entry's sums keeps the log length and who moved this turn |
| Events.Split | src/events.rs:190-191 | the dice moved to the captured region are drawn from `[1, n)` |
| Events.Capture | src/events.rs:186-208 | only the two named regions change; footprints and ids stay; the loser's region goes to the winner's owner; with more than one die on the winner's snapshot the captured region gets k dice and the winner's region loses k − 1, otherwise no dice change |
| Events.Victor | src/events.rs:186-208 | the attacker wins exactly when its sum is strictly larger; otherwise, including on a tie, the defender wins |
| Events.Vanquished | src/events.rs:186-208 | the loser is the other side: exactly one of the two regions wins and the other loses |
| Events.Resolve | src/events.rs:185-215 | one clash end keeps footprints and ids, gives the loser's region to the winner's owner and leaves every region other than the two fighters unchanged |
| Events.AttackerWins | src/events.rs:186-188 | when the attacker's sum is strictly larger, the defender's region goes to the attacker's owner |
| Events.TieGoesToDefender | src/events.rs:186-199 | when the attacker's sum is not larger, the attacker's region goes to the defender's owner |
| Events.FreshSnapshotCapture | src/events.rs:189-194 | with an up-to-date winner snapshot the subtraction never underflows, the winner keeps at least two dice, the captured region gets at least one, and the two hold one die more than the winner had |
| Events.ResolveAll | src/events.rs:185-215 | resolving a frame's clash ends never changes the number of regions |
| Events.ResolveAllShape | src/events.rs:185-215 | resolution touches only owners and dice, never footprints or ids |
| Events.ResolveAllOwners | src/events.rs:188-199 | owners stay below n when the event snapshots' owners do |
| Events.ResolveKeepsBoard | src/events.rs:185-215 | fighting keeps ids, the footprint partition and the landmass |
| Events.Unblocked | src/events.rs:228-248 | an unblocked region is the current player's, has not attacked this turn, and some region of another player is on the board |
| Events.UnblockedCount | src/events.rs:238-248 | the count of unblocked regions is at most the number of regions scanned |
| Events.UnblockedCountZero | src/events.rs:228-250 | the unblocked count is zero exactly when no region of the current player is both unused this turn and attackable by some region |
| Events.NextPlayer | src/events.rs:250-256 | the next player is `(p + 1) mod n` and always below n |
| Events.TurnsGoRound | src/events.rs:250-256 | after k ≤ n turn changes it is player p + k, wrapped once; every player gets a turn and n changes return to p |
| Events.Winner | src/events.rs:258-270 | there is a winner exactly when the board has regions and they all have one owner, and the winner is that owner |
| Events.FindWinner | src/events.rs:259-270 | the per-owner count and key scan return exactly that winner; an empty board has none |
| Events.NoWinnerHasAttack | tests/game_state.rs:12-15 | on a landmass with no winner, a region of the first region's owner can attack some region |
| Events.FirstPlayerCanMove | tests/game_state.rs:12-15 | on a landmass whose first region is player 0's, as on every generated board, with no winner, player 0, who moves first, owns a region that can attack |
| Events.GameState.constructor | src/app.rs:48-54 | the game starts on player 0, turn counter 0, with an empty log |
| Events.GameState.RegionClash | src/events.rs:83-121 | each clash start appends one log entry stamped with the current player and counter and zero sums; it requests the attacker's then the defender's dice; nothing else changes |
| Events.GameState.DiceRollResult | src/events.rs:123-137 | only the last log entry changes, and it ends up holding the sums of the frame's last result |
| Events.GameState.DiceRollsComplete | src/events.rs:139-166 | each finished timer emits one clash end copied from the last log entry |
| Events.GameState.CaptureRegion | src/events.rs:186-205 | the in-place owner and dice updates produce exactly `Capture` of the old regions |
| Events.GameState.PassTurnIfBlocked | src/events.rs:217-256 | with no unblocked region the turn goes to the next player and the counter increases by one; otherwise nothing changes; the turn stays a valid player |
| Events.GameState.RegionClashEnd | src/events.rs:168-283 | the regions become the frame's clash ends resolved in order, with the map unchanged; then the turn rule applies; the winner is reported exactly when one owner holds every region; the selection is cleared only after a clash when nobody has won |

## Left out

- `Region::center_of_mass`, `Region::center_hex`, `draw_board` and everything in geometry, board rendering, highlights and UI: these are floating-point layout and drawing code, not game rules.
- `is_region_playable` and `possible_moves`: neither is defined in the files this model covers.
- `hex.rs` is not part of this model. `HexGrid.Neighbors` uses the six axial unit directions, which are the same for flat-topped and pointy-topped hexes.
- `SelectedRegion`'s `select` and `deselect` are not part of this model either. They are modelled as setting and clearing the one `region` field.
- The random number generators (`thread_rng`, `OsRng`, the tiered PRNG and its seeding) are replaced by the draw stream. So are the dice faces rolled by the physics plugin, which `DiceRollResult` receives as values.
- Audio, timers, entity spawning and despawning, visibility toggles and event plumbing are left out. `DiceRollsComplete` takes the number of timers that finished this frame.
- Generation.GenerateBoard: the source retries a slot forever until a seed is free and its patch touches the board. The model caps each slot at `maxAttempts` tries and then returns `GenerationFailed`.
- Generation.GenerateBoard: with zero players the source divides by zero and panics. The model returns `InvalidPlayerCount` instead.
- Generation.FindBorderHex: the scan at `src/game.rs:114-133` asks `choose_multiple` for all of the patch's hexes. That is reservoir sampling, which draws nothing when every item is requested and returns the hexes in iteration order. So the source always expands the earliest patch hex that has a free neighbour. The model visits the patch as a rotation that starts at a drawn position. This over-approximates the in-order scan, which is the rotation that starts at 0, so every property proved holds for the source's scan too.
- Generation.PlacePatch: the contract does not say that an unchanged board means the grown patch stayed at its seed hex. It only says that an appended region is a grown patch of at least two hexes.
- Events.Capture: the source subtracts `usize` values at `src/events.rs:192-193` and `203-204`. On underflow, a build with overflow checks (the default debug build) panics, and a default release build wraps around to a huge dice count. The model models neither. It requires, through `CanCapture`, that the winner's current dice cover the `k - 1` it gives up. `FreshSnapshotCapture` shows this holds whenever the snapshot matches the board.
- Events.CanCapture: it also requires both region ids to be below the number of regions. This excludes the index panics at `src/events.rs:188-204`. Region ids are indices on every generated board (`IdsMatch`), and play keeps them (`ResolveKeepsBoard`).
- Events.GameState.DiceRollResult: it requires a non-empty log whenever results arrive, and two dice sides per result. This excludes the `last_mut().unwrap()` panic at `src/events.rs:130` and the `values[0]` and `values[1]` index panics at `src/events.rs:134-135`. A roll result only follows a clash start, which appends a log entry, and the log never shrinks.
- Events.GameState.DiceRollsComplete: it requires a non-empty log when a timer finishes. This excludes the `last_mut().unwrap()` panic at `src/events.rs:156`. A dice-roll timer is only spawned together with a log entry (`src/events.rs:106-119`).
- Events.Sum: dice sums are unbounded integers, so `usize` overflow is not modelled.
- `board.hexes` is not updated when a region changes hands, in the source or in the model. So after play starts the owner map only records the generated owners. Only the footprint part of the board invariant (`Partition`, `Landmass`) is carried through play.
