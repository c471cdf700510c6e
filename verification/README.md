# Snake game-state engine in Dafny

This project models the game-state engine of a browser Snake game (`snake.js`).
The snake has a head cell, a heading and an ordered tail of parts. Each part
holds a cell and a heading. Every tick the engine does three things in order:

1. It moves the snake. The tail shifts one place towards the head and the head advances one cell.
2. It checks for a terminal collision: the head has left the board or stands on its own tail. A terminal collision restarts the snake in place at a random cell.
3. Otherwise it eats every apple under the head. Each eaten apple adds one tail part and moves the apple to a random cell.

The score is the tail length.

Everything is modelled as immutable datatypes and pure functions:

- `geometry.dfy` (module `Geometry`): the cell size, the board, and the grid-aligned random coordinate generator.
- `entities.dfy` (module `Entities`): headings, tail parts, the snake, apples, and their constructors and respawn.
- `engine.dfy` (module `Engine`): `move`, `eat` and `eatHimself`. It also holds a method that performs the tail shift as the source does, as a backward in-place loop, proved equal to the functional shift.
- `input.dfy` (module `Input`): the key handler's decision, which refuses reversals.
- `rules.dfy` (module `Rules`): `processCollision`, the score, and one tick of the game loop.
- `invariants.dfy` (module `Invariants`): grid alignment and the chain invariant, and their preservation by every operation.

Randomness is a parameter. `gen(min, max, scale)` computes
`floor(random * ((max - min) / scale)) * scale + min`. The model passes in the
floored index `k` instead. `IsDraw` states exactly which indices the floor can
produce: `k >= 0` with `k * scale < max - min`, or `k == 0`. The division is
real, so the board need not be a multiple of the cell size. A snake reset takes
a `SpawnDraw` (two coordinate indices and a heading index). Each apple takes a
`PlaceDraw`, which is used only if that apple is eaten.

Where the game's intended design and its code differ, the model follows the code:

- **Boundary test.** The code tests `x > width` and `y > height`. A head at exactly `x == width` is therefore not reset (see Findings).
- **Apple respawn.** The generator does not exclude the cell the apple was eaten on. The apple may reappear there (`Rules.AppleMayRespawnInPlace`).
- **Snake constructor.** The base constructor calls `genNewPosition`. That call dispatches to the snake's own version, which draws a heading. The constructor body then draws a second heading that replaces the first. `Entities.NewSnake` takes both draws.
- **Zero-size canvas.** On a canvas of width 0, `genRect` returns 0, which lies outside `[0, 0)`. `Geometry.Cell` admits this case explicitly.

## Model

| member | source | states |
|---|---|---|
| `Geometry.Gen` | snake.js:12-15 | a drawn coordinate lies in `[min, max)` and is `min` plus a multiple of `scale`; on an empty range it is `min` |
| `Geometry.GenRect` | snake.js:8-10 | `genRect(max)` is a grid-aligned coordinate in `[0, max)` (0 on a zero-size board) |
| `Geometry.GenDrawOfRoundTrip` | snake.js:12-15 | the draw that produced a coordinate is recovered from it: `DrawOf(Gen(k)) == k` |
| `Geometry.GenCovers` | snake.js:12-15 | every aligned value of `[min, max)` is produced by some admissible draw, so no cell is unreachable |
| `Geometry.GenInjective` | snake.js:12-15 | distinct draws yield distinct coordinates |
| `Geometry.DirectionDrawRange` | snake.js:48 | the draws `gen(0, 4)` admits are exactly 0..3, and each yields itself, so the result is exactly one of 0, 1, 2 and 3 |
| `Geometry.CellIsGenRect` | snake.js:8-15 | the cells `genRect` may return are exactly the aligned coordinates of the board |
| `Entities.DirectionOf` | snake.js:17-22 | the heading table: code `c` names the heading whose code is `c` |
| `Entities.Opposite` | snake.js:170-184 | the reverse of a heading is a different heading on the same axis |
| `Entities.OppositeInvolutive` | snake.js:170-184 | reversing a heading twice restores it |
| `Entities.StepOppositeCancels` | snake.js:95-108 | one cell forward then one cell along the reverse heading returns to the start |
| `Entities.DrawDirection` | snake.js:48 | a heading drawn with `gen(0, 4)` has the drawn code |
| `Entities.GenNewPosition` | snake.js:40-43 | a given coordinate is kept; an absent one is drawn as an aligned cell of the board |
| `Entities.Respawn` | snake.js:127-131 | a reset leaves an empty tail, a head on an aligned board cell and the drawn heading |
| `Entities.NewSnake` | snake.js:45-50 | a new snake has an empty tail, an aligned head on the board and the heading of the second draw |
| `Entities.NewApple` | snake.js:150-152 | an apple is placed on an aligned board cell |
| `Engine.Shifted` | snake.js:56-65 | the shifted tail has the same length; part 0 is the old head; part `i > 0` is old part `i - 1`; an empty tail stays empty |
| `Engine.ShiftTail` | snake.js:57-64 | the backward in-place loop followed by the write to part 0 yields exactly the shifted tail |
| `Engine.Move` | snake.js:55-81 | the tail shifts as above; the head moves one cell along its heading (Up: y − 20, Down: y + 20, Left: x − 20, Right: x + 20); the other coordinate and the heading are unchanged |
| `Engine.Eat` | snake.js:83-111 | the tail grows by exactly one part; existing parts and the head are unchanged; the new part has its source's heading and one step forward from it lands on the source (the last part, or the head if the tail is empty) |
| `Engine.Occupied` | snake.js:134-139 | the scan succeeds iff some part stands on the given cell |
| `Engine.EatsSelf` | snake.js:133-140 | true iff some tail part has the head's x and y; false on an empty tail |
| `Input.Turn` | snake.js:170-184 | a press never leaves the reverse of the previous heading; a non-arrow key changes nothing; an arrow key's heading is taken iff it is not the reverse |
| `Input.TurnChangesOnlyOnRequest` | snake.js:170-184 | the heading changes iff an arrow key asks for a heading that is neither the current one nor its reverse |
| `Input.TwoPressesReverse` | snake.js:170-184 | two presses between ticks (Up, then Left) do reverse a snake heading Right |
| `Rules.ApplesAt` | snake.js:192-198 | the number of apples on a cell is at most the number of apples, and 0 iff none stands there |
| `Rules.Feed` | snake.js:192-198 | the head and heading stay put; the tail keeps its parts and grows by one per apple under the head; eaten apples get a fresh cell and the other apples are untouched |
| `Rules.Resolve` | snake.js:186-199 | on a terminal collision: empty tail, head on an aligned board cell, drawn heading, apples untouched; otherwise the head stays, the tail grows by the number of apples under the head, and only those apples move, each to an aligned board cell |
| `Rules.ProcessCollision` | snake.js:186-201 | if the terminal test `Rules.Terminal` holds (`Rules.Escapes`, i.e. `x > W \|\| x < 0 \|\| y > H \|\| y < 0`, or `eatHimself()`), the score is 0, no apple is eaten and the snake is placed on an aligned board cell; otherwise the score rises by the number of apples under the head. The score `Rules.Score` is the tail length, as printed at snake.js:204 |
| `Rules.Tick` | snake.js:214-215 | one tick is a move followed by the rules: a reset after a terminal move, otherwise growth by the apples under the moved head |
| `Rules.TickOnBoard` | snake.js:186-188 | with the boundary test `x >= W \|\| y >= H`, the head is on the board after every tick |
| `Rules.FarEdgeIsNotTerminal` | snake.js:187-188 | the as-written test lets a head at `x == W` through: the tick leaves it off the board |
| `Rules.FarEdgeExample` | snake.js:187-188 | on a 400 × 400 board a snake at (380, 100) heading right ends the tick at (400, 100) with its score kept |
| `Rules.EatExample` | snake.js:214-215 | a snake at (100, 100) heading right onto an apple at (120, 100): the head reaches (120, 100), one tail part at (100, 100), score 1, apple respawned on the board |
| `Rules.LeaveBoardExample` | snake.js:186-190 | a snake at (0, 100) heading left steps off the board and is reset: empty tail, score 0, head inside the board |
| `Rules.AppleMayRespawnInPlace` | snake.js:196 | a respawned apple can land on the cell it was eaten on |
| `Invariants.InitialGameInvariants` | snake.js:158-159 | the game as first built (a new snake and one new apple) is grid-aligned and satisfies the chain invariant, the base case for the preservation lemmas |
| `Invariants.MovePreservesAlignment` | snake.js:55-81 | a move keeps every snake coordinate on the grid |
| `Invariants.EatPreservesAlignment` | snake.js:83-111 | eating keeps every snake coordinate on the grid |
| `Invariants.RespawnIsAlignedChain` | snake.js:127-131 | a reset snake is grid-aligned and satisfies the chain invariant |
| `Invariants.FeedPreservesAlignment` | snake.js:192-198 | the apple loop keeps the snake on the grid |
| `Invariants.ResolvePreservesAlignment` | snake.js:186-199 | the collision rules keep the snake and the apples on the grid |
| `Invariants.TickPreservesAlignment` | snake.js:214-215 | a whole tick, with either boundary test, keeps the snake and the apples on the grid |
| `Invariants.MovePreservesChain` | snake.js:55-81 | after a move, each segment is still one step ahead of the segment behind it, along that segment's heading |
| `Invariants.EatPreservesChain` | snake.js:83-111 | eating keeps the chain invariant |
| `Invariants.FeedPreservesChain` | snake.js:192-198 | the apple loop keeps the chain invariant |
| `Invariants.ResolvePreservesChain` | snake.js:186-199 | the collision rules keep the chain invariant |
| `Invariants.TickPreservesChain` | snake.js:214-215 | a whole tick, with either boundary test, keeps the chain invariant |
| `Invariants.TurnPreservesChain` | snake.js:170-184 | a key press keeps the chain invariant |
| `Invariants.ReversalBitesTail` | snake.js:55-81 | a snake with at least two parts that heads against its first part's heading collides with itself on the next move |
| `Invariants.SinglePressCannotReverse` | snake.js:170-184 | after a move, one key press cannot set the head against the first part's heading |
| `Invariants.TwoPressesBite` | snake.js:170-184 | two presses (Up, then Left) between ticks make a right-heading snake with at least two parts bite itself |

## Left out

- Drawing: the canvas and the `paint` and `clear` methods are rendering output with no state of their own.
- The score text and its element lookup in `printScore` are display output. Only the score value, the tail length, is kept (`Rules.Score`).
- The timer in `runGame` and `setInterval` is the host's event loop. Only one tick (`Rules.Tick`) is modelled.
- The global `gameObjects` array and `addGameObject` only list objects for drawing. The game state is an explicit `Rules.Game` value instead.
- Keyboard event capture is left out. Only the key-code decision (`Input.Turn`) is modelled.
- Colours and the `width`/`height` fields are left out. Both fields always equal the cell size, 20.
- `Math.random` is left out. Its real number is replaced by the floored cell index (`Geometry.IsDraw`), so which values are possible is modelled but not how often each comes up. The draw is not uniform over cells when the board size is not a multiple of 20. On a board 150 high, `floor(u * 7.5)` gives index 7 (cell 140) with probability 1/15 and each of 0..6 with probability 2/15.
- JavaScript numbers are doubles. Coordinates here are unbounded integers. The two agree for every coordinate a board can produce.
- A heading outside 0..3 is left out. The source's `switch` in `move` and `eat` would silently ignore one. Such a heading cannot arise, since `gen(0, 4)` and the key handler produce only 0..3, so the `Direction` datatype has just four values.
- `server.js` is a static-file HTTP server over an external library. It is not part of this model.

## Findings

| source | as written | input that shows it | evidently intended | confidence | as-written member | corrected member |
|---|---|---|---|---|---|---|
| snake.js:187-188 | the boundary test uses strict `x > widthBoard` and `y > heightBoard` | a 400 × 400 board, snake at (380, 100) heading right: after the tick the head is at (400, 100), outside the board and not drawn, and it is not reset | the board is `[0, width) × [0, height)`, the area `genRect` places objects in, so the test should be `x >= widthBoard` and `y >= heightBoard`; the head is then on the board after every tick | high (not executed) | `Rules.FarEdgeIsNotTerminal` | `Rules.TickOnBoard` |

The main model, `Rules.Tick`, keeps the code's test as written. The corrected
tick `Rules.TickOnBoard` shares `Rules.Resolve` with it. The invariant lemmas
(`Invariants.TickPreservesAlignment` and `Invariants.TickPreservesChain`) are
proved for both.
