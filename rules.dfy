/**
 * The rules of the snake game, stated on immutable snapshots of the game.
 *
 * Every handler of the game component (new game, food placement, growth,
 * key input and the timer tick) has a function here that maps the snapshot
 * before the handler to the snapshot after it.  The class in SnakeEngine
 * performs the same updates in place and is proved against these functions.
 */
module SnakeRules {

  // ---------------------------------------------------------------------
  // Constants
  // ---------------------------------------------------------------------

  /** Grid width in cells (WIDTH). */
  const Width: int := 35
  /** Grid height in cells (HEIGHT). */
  const Height: int := 35
  /** Number of segments of a new snake (START_NODE_COUNT). */
  const StartNodeCount: int := 3
  /** START_X is floor(HEIGHT / 2): the source derives x from the height. */
  const StartX: int := Height / 2
  /** START_Y is floor(WIDTH / 2): the source derives y from the width. */
  const StartY: int := Width / 2
  /** Math.round(Math.random() * 10) yields one of the buckets 0..MaxBucket. */
  const MaxBucket: int := 10

  // ---------------------------------------------------------------------
  // Values
  // ---------------------------------------------------------------------

  /** A grid position (the coordinates of a `Node`). */
  datatype Cell = Cell(x: int, y: int)

  datatype Direction = Up | Down | Left | Right

  datatype Option<T> = None | Some(value: T)

  /**
   * The whole game status: the snake (heading and body, head first), the
   * food cell, and the `running` and `score` flags of the component.
   */
  datatype State = State(direction: Direction, body: seq<Cell>, food: Cell, running: bool, score: nat)

  predicate InGrid(c: Cell) {
    0 <= c.x < Width && 0 <= c.y < Height
  }

  predicate IsBucket(b: int) {
    0 <= b <= MaxBucket
  }

  function Opposite(d: Direction): (r: Direction)
    ensures r != d
  {
    match d
    case Up => Down
    case Down => Up
    case Left => Right
    case Right => Left
  }

  /** Opposite is the exact reverse: applying it twice is the identity, and a step back undoes a step. */
  lemma OppositeIsReverse(c: Cell, d: Direction)
    ensures Opposite(Opposite(d)) == d
    ensures Step(Step(c, d), Opposite(d)) == c
  {
  }

  /** Two cells one unit apart along one axis. */
  predicate Adjacent(a: Cell, b: Cell) {
    || (a.x == b.x && (b.y == a.y + 1 || b.y == a.y - 1))
    || (a.y == b.y && (b.x == a.x + 1 || b.x == a.x - 1))
  }

  /** The cell one unit from `c` in direction `d` (y grows downwards). */
  function Step(c: Cell, d: Direction): (r: Cell)
    ensures Adjacent(c, r)
  {
    match d
    case Up => Cell(c.x, c.y - 1)
    case Down => Cell(c.x, c.y + 1)
    case Left => Cell(c.x - 1, c.y)
    case Right => Cell(c.x + 1, c.y)
  }

  /** The cell a growing snake appends behind `tail` while heading `d`. */
  function Behind(tail: Cell, d: Direction): (r: Cell)
    ensures Step(r, d) == tail
  {
    match d
    case Up => Cell(tail.x, tail.y + 1)
    case Down => Cell(tail.x, tail.y - 1)
    case Left => Cell(tail.x + 1, tail.y)
    case Right => Cell(tail.x - 1, tail.y)
  }

  /** The direction an arrow key asks for; any other key asks for none. */
  function ArrowDirection(key: string): (r: Option<Direction>)
    ensures r.Some? <==> key in {"ArrowUp", "ArrowDown", "ArrowLeft", "ArrowRight"}
  {
    if key == "ArrowUp" then Some(Up)
    else if key == "ArrowDown" then Some(Down)
    else if key == "ArrowLeft" then Some(Left)
    else if key == "ArrowRight" then Some(Right)
    else None
  }

  // ---------------------------------------------------------------------
  // Handlers
  // ---------------------------------------------------------------------

  /** The state the component starts with, before the mount effect runs. */
  function Initial(): (s: State)
    ensures s.body == [] && !s.running && s.score == 0 && s.direction == Down
  {
    State(Down, [], Cell(0, 0), false, 0)
  }

  /** `n` segments, all on the start cell. */
  function Stacked(n: nat): (r: seq<Cell>)
    ensures |r| == n && forall i :: 0 <= i < n ==> r[i] == Cell(StartX, StartY)
  {
    seq(n, _ => Cell(StartX, StartY))
  }

  /** onNewGame: a no-op once a body exists, otherwise the stacked start. */
  function NewGame(s: State): (r: State)
    ensures |s.body| > 0 ==> r == s
    ensures |s.body| == 0 ==>
      && |r.body| == StartNodeCount
      && (forall i :: 0 <= i < |r.body| ==> r.body[i] == Cell(StartX, StartY))
      && r.food == Cell(StartX, StartY + 2 * StartNodeCount)
      && r.direction == s.direction && r.running == s.running && r.score == s.score
    ensures |r.body| > 0
  {
    if |s.body| > 0 then s
    else s.(food := Cell(StartX, StartY + StartNodeCount * 2), body := s.body + Stacked(StartNodeCount))
  }

  /** One food coordinate: floor(bucket * (size - 1) / 10). */
  function Quantize(bucket: int, size: int): (r: int)
    requires IsBucket(bucket) && size > 0
    ensures 0 <= r < size
    ensures bucket == 0 ==> r == 0
    ensures bucket == MaxBucket ==> r == size - 1
  {
    bucket * (size - 1) / MaxBucket
  }

  /** generateFood with the two random buckets passed in. */
  function PlaceFood(s: State, bucketX: int, bucketY: int): (r: State)
    requires IsBucket(bucketX) && IsBucket(bucketY)
    ensures InGrid(r.food)
    ensures r.food == Cell(Quantize(bucketX, Width), Quantize(bucketY, Height))
    ensures r == s.(food := r.food)
    ensures bucketX == 0 ==> r.food.x == 0
    ensures bucketX == MaxBucket ==> r.food.x == Width - 1
    ensures bucketY == 0 ==> r.food.y == 0
    ensures bucketY == MaxBucket ==> r.food.y == Height - 1
  {
    s.(food := Cell(Quantize(bucketX, Width), Quantize(bucketY, Height)))
  }

  /** growSnake: append a cell behind the tail, against the heading; score + 1. */
  function Grow(s: State): (r: State)
    requires |s.body| > 0
    ensures |r.body| == |s.body| + 1
    ensures r.body[..|s.body|] == s.body
    ensures Step(r.body[|s.body|], s.direction) == s.body[|s.body| - 1]
    ensures r.score == s.score + 1
    ensures r.direction == s.direction && r.food == s.food && r.running == s.running
  {
    s.(body := s.body + [Behind(s.body[|s.body| - 1], s.direction)], score := s.score + 1)
  }

  /** handleKeyDown: turn unless the key asks for a reversal; always arm `running`. */
  function KeyDown(s: State, key: string): (r: State)
    ensures r.running
    ensures r.body == s.body && r.food == s.food && r.score == s.score
    ensures r.direction != Opposite(s.direction)
    ensures ArrowDirection(key).None? ==> r.direction == s.direction
    ensures ArrowDirection(key) == Some(Opposite(s.direction)) ==> r.direction == s.direction
    ensures ArrowDirection(key).Some? && ArrowDirection(key).value != Opposite(s.direction) ==>
      r.direction == ArrowDirection(key).value
  {
    match ArrowDirection(key)
    case Some(d) =>
      if s.direction != Opposite(d) then s.(direction := d, running := true)
      else s.(running := true)
    case None => s.(running := true)
  }

  /** The move step of gameLoop: unshift the stepped head, pop the tail. */
  function Move(s: State): (r: State)
    requires |s.body| > 0
    ensures |r.body| == |s.body|
    ensures r.body[0] == Step(s.body[0], s.direction)
    ensures r.body[1..] == s.body[..|s.body| - 1]
    ensures r == s.(body := r.body)
  {
    s.(body := ([Step(s.body[0], s.direction)] + s.body)[..|s.body|])
  }

  /**
   * gameLoop: food check, wall check, (self check,) move, all against the
   * head as it was before the tick.  The self check compares node
   * identities; no two nodes of a body are ever the same object, so on
   * values it never fires and is left out here (SnakeEngine.Game.GameLoop
   * performs it and proves it dead).
   */
  function Tick(s: State, bucketX: int, bucketY: int): (r: State)
    requires s.running ==> |s.body| > 0
    requires IsBucket(bucketX) && IsBucket(bucketY)
    ensures !s.running ==> r == s
    ensures s.running ==> |r.body| == |s.body| + (if s.body[0] == s.food then 1 else 0)
    ensures s.running ==> r.direction == s.direction
    // wall: stop, and leave the body where it was
    ensures s.running && !InGrid(s.body[0]) ==> !r.running && r.body[..|s.body|] == s.body
    ensures s.running && !InGrid(s.body[0]) && s.body[0] != s.food ==> r == s.(running := false)
    // move: one step ahead, the rest follows
    ensures s.running && InGrid(s.body[0]) ==>
      r.running && r.body[0] == Step(s.body[0], s.direction)
    ensures s.running && InGrid(s.body[0]) && s.body[0] != s.food ==>
      r.body[1..] == s.body[..|s.body| - 1] && r.score == s.score && r.food == s.food
    // food: growth, score and new food, even when the tick then stops
    ensures s.running && s.body[0] == s.food ==>
      r.score == s.score + 1 && r.food == PlaceFood(s, bucketX, bucketY).food
    ensures s.running && InGrid(s.body[0]) && s.body[0] == s.food ==> r.body[1..] == s.body
  {
    if !s.running then s
    else
      var head := s.body[0];
      var fed := if head == s.food then PlaceFood(Grow(s), bucketX, bucketY) else s;
      if !InGrid(head) then fed.(running := false)
      else Move(fed)
  }

  /** Food coordinates grow strictly with the bucket: the eleven buckets give eleven distinct columns (rows). */
  lemma QuantizeStrictlyIncreasing(a: int, b: int, size: int)
    requires IsBucket(a) && IsBucket(b) && a < b && size > MaxBucket
    ensures Quantize(a, size) < Quantize(b, size)
  {
    var q := Quantize(a, size);
    assert q * MaxBucket <= a * (size - 1);
    assert b * (size - 1) >= a * (size - 1) + (size - 1);
  }

  /** On the default 35-cell grid food can only land on these eleven coordinates. */
  lemma QuantizedColumns(b: int)
    requires IsBucket(b)
    ensures Quantize(b, Width) in {0, 3, 6, 10, 13, 17, 20, 23, 27, 30, 34}
  {
  }

  /** The wall check looks at the head before the move, so a tick that steps off the grid still runs; the next one stops. */
  lemma WallStopsOneTickLate(s: State, bucketX: int, bucketY: int)
    requires s.running && |s.body| > 0 && IsBucket(bucketX) && IsBucket(bucketY)
    requires InGrid(s.body[0]) && !InGrid(Step(s.body[0], s.direction)) && s.body[0] != s.food
    ensures Tick(s, bucketX, bucketY).running
    ensures !InGrid(Tick(s, bucketX, bucketY).body[0])
    ensures !Tick(Tick(s, bucketX, bucketY), bucketX, bucketY).running
  {
  }

  /**
   * Self collision by COORDINATES: what the identity test at the self check
   * would be if it compared positions.  This is not what the game does; it
   * is kept apart to show what that change of behaviour would mean.
   */
  predicate CellSelfCollision(s: State)
    requires |s.body| > 0
  {
    exists i :: 1 <= i < |s.body| && s.body[i] == s.body[0]
  }
}
