/**
 * The game component as it runs: one mutable game whose handlers update the
 * snake, the food and the two flags in place.  Body segments and the food
 * are objects (the source's `Node` records); every segment is freshly
 * allocated when it is pushed or unshifted, and the food object is only ever
 * overwritten field by field.
 *
 * Each handler is proved against its function in SnakeRules through the
 * abstraction `Abs()`.
 */
module SnakeEngine {
  import opened SnakeRules

  /** A `Node`: one grid position, as a mutable object. */
  class Node {
    var x: int
    var y: int

    constructor (x: int, y: int)
      ensures this.x == x && this.y == y
    {
      this.x := x;
      this.y := y;
    }
  }

  class Game {
    var direction: Direction
    /** The snake's segments, head first. */
    var body: seq<Node>
    var food: Node
    var running: bool
    var score: nat

    /**
     * What allocation guarantees: no node occurs twice in the body, and the
     * food object is not a body segment.
     */
    ghost predicate Valid()
      reads this
    {
      && (forall i, j :: 0 <= i < j < |body| ==> body[i] != body[j])
      && food !in body
    }

    /** The positions of the body, head first. */
    ghost function Cells(): seq<Cell>
      reads this, body
    {
      seq(|body|, i reads this, body requires 0 <= i < |body| => Cell(body[i].x, body[i].y))
    }

    /** The game as a value. */
    ghost function Abs(): State
      reads this, body, food
    {
      State(direction, Cells(), Cell(food.x, food.y), running, score)
    }

    /** The self check of gameLoop: does a later segment IDENTICAL to the head exist? */
    function HeadRepeated(): (r: bool)
      reads this
      requires |body| > 0
      ensures r <==> body[0] in body[1..]
      ensures r ==> !Valid()
    {
      exists i :: 1 <= i < |body| && body[i] == body[0]
    }

    /** Since every node is allocated afresh, the self check never fires. */
    lemma HeadNeverRepeated()
      requires Valid() && |body| > 0
      ensures !HeadRepeated()
    {
    }

    /** The initial useState value: heading down, no body, food at (0, 0). */
    constructor ()
      ensures Valid() && Abs() == Initial()
      ensures fresh(food)
    {
      direction := Down;
      body := [];
      food := new Node(0, 0);
      running := false;
      score := 0;
    }

    /** generateFood: overwrite the food object with the quantized draw. */
    method GenerateFood(bucketX: int, bucketY: int)
      requires Valid() && IsBucket(bucketX) && IsBucket(bucketY)
      modifies food
      ensures Valid()
      ensures Abs() == PlaceFood(old(Abs()), bucketX, bucketY)
    {
      var foodX := bucketX * (Width - 1) / MaxBucket;
      var foodY := bucketY * (Height - 1) / MaxBucket;
      food.x := foodX;
      food.y := foodY;
    }

    /** onNewGame: unless a body exists, place the food and push the start nodes. */
    method OnNewGame()
      requires Valid()
      modifies this, food
      ensures Valid() && food == old(food)
      ensures Abs() == NewGame(old(Abs()))
    {
      if |body| > 0 {
        return;
      }
      food.x := StartX;
      food.y := StartY + StartNodeCount * 2;
      for i := 0 to StartNodeCount
        invariant Valid() && food == old(food)
        invariant food.x == StartX && food.y == StartY + StartNodeCount * 2
        invariant |body| == i && Cells() == Stacked(i)
        invariant direction == old(direction) && running == old(running) && score == old(score)
      {
        ghost var before := Cells();
        var node := new Node(StartX, StartY);
        body := body + [node];
        assert Cells() == before + [Cell(StartX, StartY)];
      }
    }

    /** growSnake: push a fresh node behind the tail, against the heading. */
    method GrowSnake()
      requires Valid() && |body| > 0
      modifies this
      ensures Valid() && food == old(food)
      ensures |body| == |old(body)| + 1 && body[..|old(body)|] == old(body)
      ensures Abs() == Grow(old(Abs()))
    {
      var tail := body[|body| - 1];
      var node: Node;
      match direction {
        case Up => node := new Node(tail.x, tail.y + 1);
        case Down => node := new Node(tail.x, tail.y - 1);
        case Left => node := new Node(tail.x + 1, tail.y);
        case Right => node := new Node(tail.x - 1, tail.y);
      }
      ghost var before := Cells();
      body := body + [node];
      score := score + 1;
      assert Cells() == before + [Behind(before[|before| - 1], direction)];
    }

    /** handleKeyDown: turn unless reversing; any key arms `running`. */
    method HandleKeyDown(key: string)
      requires Valid()
      modifies this
      ensures Valid() && food == old(food) && body == old(body)
      ensures Abs() == KeyDown(old(Abs()), key)
    {
      if key == "ArrowUp" {
        if direction != Down {
          direction := Up;
        }
      } else if key == "ArrowDown" {
        if direction != Up {
          direction := Down;
        }
      } else if key == "ArrowLeft" {
        if direction != Right {
          direction := Left;
        }
      } else if key == "ArrowRight" {
        if direction != Left {
          direction := Right;
        }
      }
      if !running {
        running := true;
      }
    }

    /**
     * gameLoop: one tick.  The food check, the wall check and the self check
     * all look at the head position read before anything changes.
     */
    method GameLoop(bucketX: int, bucketY: int)
      requires Valid() && IsBucket(bucketX) && IsBucket(bucketY)
      requires running ==> |body| > 0
      modifies this, food
      ensures Valid() && food == old(food)
      ensures Abs() == Tick(old(Abs()), bucketX, bucketY)
    {
      if !running {
        return;
      }
      ghost var before := Abs();
      var x, y := body[0].x, body[0].y;
      ghost var fed := if Cell(x, y) == before.food then PlaceFood(Grow(before), bucketX, bucketY) else before;

      // food
      if x == food.x && y == food.y {
        GrowSnake();
        GenerateFood(bucketX, bucketY);
      }
      assert Abs() == fed;

      // wall, then self: the self check compares node identities, so by
      // HeadNeverRepeated it is always false
      HeadNeverRepeated();
      if x >= Width || x < 0 || y >= Height || y < 0 || HeadRepeated() {
        running := false;
        assert Abs() == fed.(running := false);
        return;
      }

      // move
      MoveSnake();
    }

    /** The move step of gameLoop: unshift a fresh stepped head, pop the tail. */
    method MoveSnake()
      requires Valid() && |body| > 0
      modifies this
      ensures Valid() && food == old(food)
      ensures Abs() == Move(old(Abs()))
    {
      var headX, headY := body[0].x, body[0].y;
      var node: Node;
      match direction {
        case Up => node := new Node(headX, headY - 1);
        case Down => node := new Node(headX, headY + 1);
        case Left => node := new Node(headX - 1, headY);
        case Right => node := new Node(headX + 1, headY);
      }
      ghost var before := Cells();
      body := [node] + body;
      assert Cells() == [Step(before[0], direction)] + before;
      ghost var unshifted := Cells();
      body := body[..|body| - 1];
      assert Cells() == unshifted[..|before|];
    }
  }
}
