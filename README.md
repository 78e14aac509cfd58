# Snake game engine

A Dafny model of the state-transition engine of a single-player snake game
on a 35 × 35 grid. A component holds one game: the snake (a heading and a
body of cells, head first), one food cell, a `running` flag and a score.
Four handlers change it:

- a new game. It does nothing once a body exists. Otherwise it stacks three
  segments on the start cell (17, 17) and puts the food at (17, 23).
- key input. An arrow key turns the snake unless it asks for the reverse of
  the current heading. Any key, arrow or not, sets `running`.
- food placement. It draws two buckets `0..10` and scales each one to the
  grid.
- the timer tick. In this order it does a food check (grow by one segment
  behind the tail, score + 1, new food), a wall check, a self check, and
  finally the move (a new head one step ahead, the tail dropped). Every
  check looks at the head as it was before the tick.

The project has three modules:

- `SnakeRules` (`rules.dfy`) states every handler as a function from the
  state before to the state after. Each function's `ensures` gives what the
  handler promises.
- `SnakeEngine` (`engine.dfy`) is the component as it runs. `Game` is a class
  whose methods update its fields in place. Segments and food are `Node`
  objects. A push or unshift allocates a fresh node, and the food node is
  overwritten field by field. Each method is proved to match its `SnakeRules`
  function through `Abs()`, the game as a value.
- `SnakeSessions` (`sessions.dfy`) replays whole sessions: the mount (a new
  game on the initial state) followed by any key presses and ticks. It proves
  what holds throughout, and checks the concrete scenarios with the default
  constants.

Two quirks of the source are kept as they are:

- **Stacked start.** The new snake is three copies of the same cell. The
  loop pushes `(START_X, START_Y)` every time; the `i` in its log message is
  never used.
- **Identity self check.** The self check compares node objects, not
  positions. `Game.Valid()` records what allocation guarantees: no node
  occurs twice in the body, and the food node is not a body node. Under that
  invariant, `Game.HeadNeverRepeated` proves the check never fires, so a
  snake that crosses itself keeps going. The value-level `Tick` therefore
  leaves the check out. `CellSelfCollision` is the coordinate-equality
  variant, kept apart and used by no handler. `CellCollisionAtStart` shows
  that after mount and any first key press, the state the first tick sees
  passes the food and wall checks and has a body cell on the head, so a
  coordinate check would stop every game on that tick. Adopting it would
  therefore change behaviour.

Two consequences of the key handling are easy to miss:

- `ArrowUp` while heading down is refused, because up is the reverse of
  down (src/Canvas.tsx:142-146). `ReversalScenario` proves the refusal, and
  `TurnScenario` shows a real turn with `ArrowLeft`.
- Any key sets `running` again, also after the game stopped at the wall.
  The next tick then stops again at the wall check, because the head never
  moved. `FrozenOffGrid` proves that such a snake stays where it is for the
  rest of the session.

## Model

| member | source | states |
|---|---|---|
| `SnakeRules.Opposite` | src/Canvas.tsx:141-165 | the direction a key may not switch to is never the current one |
| `SnakeRules.OppositeIsReverse` | src/Canvas.tsx:141-165 | the refused direction is the exact reverse: applying it twice gives the heading back, and a step back undoes a step |
| `SnakeRules.Step` | src/Canvas.tsx:215-231 | one move goes to a cell exactly one unit away along one axis |
| `SnakeRules.Behind` | src/Canvas.tsx:110-131 | the grown cell is one step behind the tail: moving it forward along the heading lands on the tail |
| `SnakeRules.ArrowDirection` | src/Canvas.tsx:141-168 | exactly the four arrow keys ask for a direction; every other key is ignored |
| `SnakeRules.Initial` | src/Canvas.tsx:35-46 | the component starts heading down, with no body, not running and score 0 |
| `SnakeRules.NewGame` | src/Canvas.tsx:59-78 | with a body, nothing changes; with none, exactly START_NODE_COUNT cells all on (START_X, START_Y), food START_NODE_COUNT * 2 below, heading and flags untouched |
| `SnakeRules.Quantize` | src/Canvas.tsx:49-53 | a scaled bucket lies in `0 .. size - 1`, bucket 0 gives 0 and bucket 10 gives `size - 1` |
| `SnakeRules.PlaceFood` | src/Canvas.tsx:48-57 | the food is the quantized pair of the two buckets, it lies on the grid, bucket 0 gives coordinate 0 and bucket 10 the last one, and nothing but the food changes |
| `SnakeRules.Grow` | src/Canvas.tsx:107-134 | the body gains exactly one cell, every old cell stays, the new last cell is one step behind the old tail against the heading, and the score goes up by exactly 1 |
| `SnakeRules.KeyDown` | src/Canvas.tsx:136-175 | `running` is set; body, food and score are untouched; the heading never becomes the reverse of the old one; a reversal key or a non-arrow key keeps the heading, and any other arrow key sets it |
| `SnakeRules.Move` | src/Canvas.tsx:210-236 | the length is kept, the new head is the old head one step ahead, and the rest is the old body without its last cell |
| `SnakeRules.Tick` | src/Canvas.tsx:177-236 | a stopped game is unchanged; an off-grid head stops the game without moving the body, and without food nothing else changes; otherwise the head steps ahead; without food the rest follows and length, score and food are kept; with food the length and score go up by 1, the food is redrawn, and the rest is the whole old body |
| `SnakeRules.QuantizeStrictlyIncreasing` | src/Canvas.tsx:49-53 | a larger bucket gives a strictly larger coordinate, so the eleven buckets give eleven distinct positions per axis |
| `SnakeRules.QuantizedColumns` | src/Canvas.tsx:49-53 | on the 35-cell grid, food coordinates are only 0, 3, 6, 10, 13, 17, 20, 23, 27, 30 and 34 |
| `SnakeRules.WallStopsOneTickLate` | src/Canvas.tsx:192-197 | a tick that steps the head off the grid still runs; only the next tick stops the game |
| `SnakeEngine.Node.constructor` | src/Canvas.tsx:16-19 | a new node holds the given position |
| `SnakeEngine.Game.constructor` | src/Canvas.tsx:35-46 | the fresh game is `Initial()`, with its own food node |
| `SnakeEngine.Game.HeadRepeated` | src/Canvas.tsx:200-204 | the identity test holds exactly when the head node occurs again later in the body, and then some node occurs twice, which breaks `Valid()` |
| `SnakeEngine.Game.HeadNeverRepeated` | src/Canvas.tsx:199-208 | with every node freshly allocated, no later segment is the head object, so the identity self check never fires |
| `SnakeEngine.Game.GenerateFood` | src/Canvas.tsx:48-57 | overwriting the food node in place gives `PlaceFood` of the old game; body nodes are untouched |
| `SnakeEngine.Game.OnNewGame` | src/Canvas.tsx:59-78 | the guard and the push loop give `NewGame` of the old game, with the same food node |
| `SnakeEngine.Game.GrowSnake` | src/Canvas.tsx:107-134 | pushing a fresh node gives `Grow` of the old game, and the old nodes stay in place |
| `SnakeEngine.Game.HandleKeyDown` | src/Canvas.tsx:136-175 | the key switch gives `KeyDown` of the old game; the body nodes and the food node are unchanged |
| `SnakeEngine.Game.MoveSnake` | src/Canvas.tsx:210-236 | unshifting a fresh head node and popping the tail gives `Move` of the old game |
| `SnakeEngine.Game.GameLoop` | src/Canvas.tsx:177-239 | the food check, the wall check, the identity self check and the move, run in place, give `Tick` of the old game |
| `SnakeSessions.Start` | src/Canvas.tsx:241-247 | after mount the snake has START_NODE_COUNT segments, score 0 and is not running |
| `SnakeSessions.Apply` | src/Canvas.tsx:241-255 | no key press or tick shortens the snake |
| `SnakeSessions.Replay` | src/Canvas.tsx:241-255 | no sequence of key presses and ticks shortens the snake |
| `SnakeSessions.ApplyKeepsConsistent` | src/Canvas.tsx:107-134 | one event keeps length = START_NODE_COUNT + score and the food on the grid, and never lowers the score |
| `SnakeSessions.ReplayKeepsConsistent` | src/Canvas.tsx:177-236 | any sequence of events keeps length = START_NODE_COUNT + score and the food on the grid, and never lowers the score |
| `SnakeSessions.SessionLengthIsScore` | src/Canvas.tsx:133 | in every session the score is the number of segments grown since the start |
| `SnakeSessions.FrozenOffGrid` | src/Canvas.tsx:192-197 | once the head is off the grid, no sequence of keys and ticks moves the body or changes score or food |
| `SnakeSessions.StoppedIgnoresTicks` | src/Canvas.tsx:177-180 | a stopped game is unchanged by any number of ticks |
| `SnakeSessions.StartLayout` | src/Canvas.tsx:64-75 | with the default constants the start is three cells on (17, 17), food at (17, 23), heading down |
| `SnakeSessions.NewGameIdempotent` | src/Canvas.tsx:59-62 | a second new game changes nothing |
| `SnakeSessions.FirstTickScenario` | src/Canvas.tsx:210-236 | after a non-arrow key, the first tick gives body (17,18), (17,17), (17,17) with food and score unchanged |
| `SnakeSessions.ReversalScenario` | src/Canvas.tsx:142-146 | ArrowUp on a snake heading down is refused; the next tick moves the head to (17, 18) |
| `SnakeSessions.TurnScenario` | src/Canvas.tsx:154-158 | ArrowLeft on a snake heading down turns it; the next tick moves the head to (16, 17) |
| `SnakeSessions.EatScenario` | src/Canvas.tsx:184-190 | seven ticks down from the start eat the food at (17, 23): score 1, four segments, food at the drawn buckets |
| `SnakeSessions.CellCollisionAtStart` | src/Canvas.tsx:200-204 | after mount and any key, the first tick's state passes the food and wall checks, and a coordinate self check would fire on it |

## Left out

- React plumbing (`useState`, `useRef`, `useEffect`, setState batching, stale closures): each handler is one synchronous in-place update. The mount effect is modelled only as "new game on the initial state" (`Start`).
- The key listener registration and the `useInterval` timer: their only job is to call the handlers, and the events of a session are a parameter of `Replay`. `useInterval` is not part of this model.
- `drawGame`, the canvas calls, the JSX layout, the styles and `console.log`: rendering and I/O.
- `Math.random` and floating-point `Math.round`: each draw is an integer bucket `0..10` passed in. The stray `Math.round;` statement does nothing.
- `SCALE_FACTOR`, `DELAY` and the colour constants: they only matter for drawing and timing.
- `SnakeEngine.Game.GameLoop`: requires a non-empty body while running. The source reads `body[0]` and would throw on an empty body. That cannot happen in the component, because the mount effect runs `onNewGame` before any key can set `running`. The wall check and the self check share one `if`, evaluated wall first. This is the same behaviour as the two separate checks that stop and return.
- `SnakeRules.Tick`: leaves out the self check, which compares object identities and cannot be stated on values. `SnakeEngine.Game.GameLoop` performs it, and `SnakeEngine.Game.HeadNeverRepeated` proves it never fires.
- Integer width: JavaScript numbers are doubles, but every coordinate stays far inside the exactly representable integers, so the model uses unbounded `int`.
