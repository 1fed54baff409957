# Maze game rules in Dafny

A model of the rules of a small top-down maze game written as a Phaser scene
(`game.js`). The player moves through a fixed 13x16 tile maze in an 800x600
world, picks up three items, avoids three enemies, and wins by reaching the
exit once all three items are in hand. Touching an enemy loses. After a win
or a loss, the R key restarts the level.

The engine callbacks are lifted out as pure functions over an immutable
session:

- `World` (world.dfy) holds the constants: world size, tile size, the maze grid
  and the spawn table. It also turns the grid into wall positions, both as a
  functional definition (`WallCells`) and as the nested walk the scene
  performs (`PlaceWalls`).
- `Movement` (movement.dfy) picks the player's velocity from the four arrow
  keys and applies the world-wrap teleport.
- `Scoring` (scoring.dfy) removes a collected item from the item group and
  renders the score label `Items: n/3`.
- `GameSession` (session.dfy) is the session state machine.
  - Phases: `Playing`, `Won`, `Lost`.
  - `Step` takes one event: a frame tick, an item overlap, the exit overlap,
    an enemy contact, or the R key.
  - `Run` folds `Step` over a sequence of events.
  - `Valid` is the invariant every reachable session keeps.

The engine's pause is modelled as leaving `Playing`. After it, overlaps and
contacts arriving in later steps have no effect and the player is no longer moved. `update()` still
runs, though, so a frame still re-selects the velocity and re-applies the
wrap. The wrap is idempotent, so it leaves a paused player where it is. The
one-shot R listener becomes the `PressR` event, which only acts in `Won` or
`Lost`.

## Model

| member | source | states |
|---|---|---|
| Movement.SelectVelocity | game.js:121-126 | vx is 150 exactly when right is held, -150 exactly when left is held without right, and 0 exactly when neither is held. vy behaves the same way, with down beating up. |
| Movement.AxesIndependent | game.js:123-126 | Two key states that agree on left/right give the same vx. Two that agree on up/down give the same vy. |
| Movement.DiagonalsReachable | game.js:123-126 | Every diagonal (±150, ±150) is produced by some key state. |
| Movement.WrapAxis | game.js:129-139 | The result lies in [0, size]. A coordinate below 0 becomes size, one above size becomes 0, and one inside is unchanged. |
| Movement.Wrap | game.js:129-139 | The wrapped position lies inside 800x600. It equals the input exactly when the input was already inside. |
| Movement.WrapIdempotent | game.js:129-139 | Wrapping twice gives the same result as wrapping once. |
| Movement.WrapAxesIndependent | game.js:129-139 | The wrapped x depends only on x, and the wrapped y only on y. |
| World.Centre | game.js:68-72 | The wall position lies strictly inside its 50x50 tile, equally far from the tile's left and right edges and from its top and bottom edges. |
| World.CentreInjective | game.js:68-72 | Different tiles have different centres. |
| World.RowWalls | game.js:70-74 | A cell is listed exactly when it lies in this row, before the bound, and holds 1. Listed cells are in increasing column order. |
| World.GridWalls | game.js:69-75 | A cell is listed exactly when it lies in the first rows, within its row, and holds 1. The list is in strict row-major order, so it has no duplicates. |
| World.PlaceRow | game.js:70-74 | The walk over one row produces the centres of that row's 1-cells, in order. |
| World.PlaceWalls | game.js:52-75 | The walk over the grid produces one wall per 1-cell, at that cell's centre, in row-major order. No 0-cell's centre is a wall, and no two walls coincide. |
| World.WallsMatchGrid | game.js:69-75 | Any list of the wall cells' centres marks a tile centre exactly when that tile holds 1, and repeats no point. |
| World.MazeShape | game.js:52-66 | The grid has 13 rows of 16 cells, each cell 0 or 1. |
| Scoring.RemoveItem | game.js:147-148 | After the removal, the group holds exactly the items whose id differs from the removed one. Removing an absent id changes nothing. With unique ids, a present item's removal shortens the group by one and keeps the ids unique. |
| Scoring.Decimal | game.js:150 | The printed count is a non-empty string of digits with no leading zero. |
| Scoring.DecimalRoundTrip | game.js:150 | Reading the printed count back gives the count. |
| Scoring.ScoreTextInjective | game.js:150 | Two different counts never show the same label. |
| Scoring.ScoreTextValues | game.js:103-106 | The label reads `Items: 0/3`, `1/3`, `2/3` and `3/3` at the four possible counts. |
| GameSession.Initial | game.js:78-93 | A (re)start is in `Playing` with count 0 and already satisfies the session invariant: all 3 items are present with distinct identities, and the player spawns inside the world. |
| GameSession.InitialValid | game.js:26-27 | The start satisfies the invariant: count 0 plus 3 items present equals 3. |
| GameSession.StepValid | game.js:147-151 | Every event preserves the invariant. The count plus the items present is always 3, ids stay unique, only spawned items remain, and the player stays inside the world. |
| GameSession.RunValid | game.js:147-151 | Any sequence of events preserves the invariant. |
| GameSession.ScoreBounded | game.js:147-151 | In every run from the start, the count is at most 3, the remaining items number 3 minus the count, and the player is inside the world. |
| GameSession.FrameWithoutKeys | game.js:121 | A frame with no key held leaves velocity (0,0). |
| GameSession.FramePosition | game.js:120-139 | While playing, a frame puts the player at the wrapped engine position. While paused, it leaves the player in place. Either way the velocity comes from the keys, and nothing else in the session changes. |
| GameSession.CollectPresent | game.js:147-151 | Touching a present item removes exactly that item and raises the count by exactly one. Nothing else in the session changes: phase, player, enemies and exit stay as they were. |
| GameSession.CollectIdempotent | game.js:147-149 | Touching the same item a second time changes nothing, so no item is counted twice. |
| GameSession.ExitRule | game.js:153-156 | While playing, the exit changes nothing below a count of 3. At a count of 3 it moves to `Won` and changes nothing else. |
| GameSession.EnemyRule | game.js:168-169 | While playing, enemy contact moves to `Lost` whatever the count, and changes nothing else. |
| GameSession.RestartRule | game.js:161-164 | R in `Won` or `Lost` yields the fresh start with count 0. R while playing does nothing. |
| GameSession.TerminalFrozen | game.js:156 | In `Won` or `Lost`, no event other than R changes the phase, the count or the items. |
| GameSession.PhaseTransitions | game.js:153-178 | The phase changes in exactly three ways: `Playing` to `Won` at the exit with count 3, `Playing` to `Lost` on contact, and `Won`/`Lost` to the fresh start on R. |
| GameSession.ScoreMonotone | game.js:147-151 | While playing, no event lowers the count. The count only falls on R after a win or loss, and then to 0. |
| GameSession.RunWithoutRestartMonotone | game.js:149 | Over any run without R, the final count is at least the initial count. |
| GameSession.WinScenario | game.js:147-156 | From the start: one pickup shows `Items: 1/3`, three pickups empty the item group, and the exit then wins. |
| GameSession.LoseScenario | game.js:168-177 | After one pickup, contact loses. The exit no longer helps. R returns to the fresh start. |
| GameSession.WrapScenario | game.js:123-130 | With left held and the engine reporting x = -5, the player lands at x = 800 with velocity (-150, 0). |

## Left out

- Asset loading (`preload`, the spritesheet set-up): engine I/O with no rule in it.
- Rendering is not modelled: text styling, the win and game-over messages, and the graffiti animation. Only the score label's content is modelled, as a function of the count.
- Collision geometry is not modelled: wall colliders, and overlap and contact detection. These become the events `TouchItem`, `TouchExit` and `TouchEnemy`. If the engine reports several callbacks in one physics step, they are modelled as consecutive events. The model does not cover a second R listener being armed in that case.
- Callbacks later in the physics step that paused the world are not modelled as the engine runs them. `collectObject`, `finishGame` and `gameOver` have no phase test of their own (game.js:147-151, 153-154, 168-169); they go quiet only once the pause takes effect at the next world update. The model treats every callback after the pause as arriving late and ignores it. In the running game the item and exit overlaps (registered after the enemy collider, game.js:98-100) can still fire in the step in which `gameOver` paused, so the label can read one higher after Game Over, and at a count of 3 both the loss and the win branch can fire. `TerminalFrozen` and `PhaseTransitions` state the model's behaviour, not this same-step case.
- Position integration is not modelled. It is floating-point engine work. Instead, a frame takes the position the engine reports (`Frame.moved`).
- `setCollideWorldBounds` clamping is not modelled. With it on, the engine keeps the player inside the world, so in the running game the wrap branches are rarely if ever taken. The model states the wrap rule on whatever position it is given.
- Enemy pursuit is not modelled: `moveToObject` at speed 100 is normalised-vector float maths inside the engine. Enemy positions in the session are the spawn positions that a restart restores.
- The wall group is not part of the session. It is rebuilt the same way on every restart from the constant grid, so `PlaceWalls` describes every build.
- Keyboard polling and listener registration are not modelled. Keys are booleans in `Frame`, and the one-shot listener is the `PressR` event.
- Movement.WrapAxis: requires a non-negative extent. The game only calls it with 800 and 600.
- The model does not claim that walls lie inside the world. The bottom maze row's centres sit at y = 625, below the 600-unit world.
