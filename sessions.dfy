/**
 * Whole sessions: the game after mount (a new game on the initial state)
 * followed by any sequence of key presses and timer ticks, and what stays
 * true along the way.
 */
module SnakeSessions {
  import opened SnakeRules

  /** An input to the game: a key press, or a timer tick with its food draw. */
  datatype Event = KeyPress(key: string) | TimerTick(bucketX: int, bucketY: int)

  predicate Drawable(evs: seq<Event>) {
    forall i :: 0 <= i < |evs| && evs[i].TimerTick? ==> IsBucket(evs[i].bucketX) && IsBucket(evs[i].bucketY)
  }

  lemma DrawableSuffix(evs: seq<Event>, n: nat)
    requires Drawable(evs) && n <= |evs|
    ensures Drawable(evs[n..])
  {
  }

  /** The state once the component is mounted: onNewGame on the initial state. */
  function Start(): (s: State)
    ensures |s.body| == StartNodeCount && s.score == 0 && !s.running
  {
    NewGame(Initial())
  }

  function Apply(s: State, e: Event): (r: State)
    requires |s.body| > 0
    requires e.TimerTick? ==> IsBucket(e.bucketX) && IsBucket(e.bucketY)
    ensures |r.body| >= |s.body|
  {
    match e
    case KeyPress(key) => KeyDown(s, key)
    case TimerTick(bx, bY) => Tick(s, bx, bY)
  }

  /** The state after handling `evs` in order. */
  function Replay(s: State, evs: seq<Event>): (r: State)
    requires |s.body| > 0 && Drawable(evs)
    ensures |r.body| >= |s.body|
    decreases |evs|
  {
    if evs == [] then s
    else
      DrawableSuffix(evs, 1);
      Replay(Apply(s, evs[0]), evs[1..])
  }

  /**
   * What holds of every reachable state: each food eaten added exactly one
   * segment to the start snake, and the food lies on the grid.
   */
  predicate Consistent(s: State) {
    |s.body| == StartNodeCount + s.score && InGrid(s.food)
  }

  lemma StartConsistent()
    ensures Consistent(Start())
  {
  }

  lemma {:induction false} ApplyKeepsConsistent(s: State, e: Event)
    requires Consistent(s)
    requires e.TimerTick? ==> IsBucket(e.bucketX) && IsBucket(e.bucketY)
    ensures Consistent(Apply(s, e)) && Apply(s, e).score >= s.score
  {
  }

  /** Score counts growth, food stays on the grid, and the score never drops. */
  lemma {:induction false} ReplayKeepsConsistent(s: State, evs: seq<Event>)
    requires Consistent(s) && Drawable(evs)
    ensures Consistent(Replay(s, evs))
    ensures Replay(s, evs).score >= s.score
    decreases |evs|
  {
    if evs != [] {
      ApplyKeepsConsistent(s, evs[0]);
      DrawableSuffix(evs, 1);
      ReplayKeepsConsistent(Apply(s, evs[0]), evs[1..]);
    }
  }

  /** In every session, the snake has START_NODE_COUNT segments plus one per point scored. */
  lemma SessionLengthIsScore(evs: seq<Event>)
    requires Drawable(evs)
    ensures |Replay(Start(), evs).body| == StartNodeCount + Replay(Start(), evs).score
    ensures InGrid(Replay(Start(), evs).food)
  {
    StartConsistent();
    ReplayKeepsConsistent(Start(), evs);
  }

  /**
   * Once the head is off the grid the snake never moves again: every tick
   * stops at the wall check before the move (food is always on the grid, so
   * it is never eaten out there), and a key press only turns and re-arms.
   */
  lemma {:induction false} FrozenOffGrid(s: State, evs: seq<Event>)
    requires Consistent(s) && Drawable(evs) && !InGrid(s.body[0])
    ensures Replay(s, evs).body == s.body
    ensures Replay(s, evs).score == s.score
    ensures Replay(s, evs).food == s.food
    decreases |evs|
  {
    if evs != [] {
      var next := Apply(s, evs[0]);
      assert next.body == s.body && next.score == s.score && next.food == s.food;
      DrawableSuffix(evs, 1);
      FrozenOffGrid(next, evs[1..]);
    }
  }

  /** A stopped game ignores ticks: nothing changes until a key re-arms it. */
  lemma {:induction false} StoppedIgnoresTicks(s: State, evs: seq<Event>)
    requires |s.body| > 0 && !s.running && Drawable(evs)
    requires forall i :: 0 <= i < |evs| ==> evs[i].TimerTick?
    ensures Replay(s, evs) == s
    decreases |evs|
  {
    if evs != [] {
      assert Apply(s, evs[0]) == s;
      DrawableSuffix(evs, 1);
      StoppedIgnoresTicks(s, evs[1..]);
    }
  }

  /** The start layout with the default constants. */
  lemma StartLayout()
    ensures Start().body == [Cell(17, 17), Cell(17, 17), Cell(17, 17)]
    ensures Start().food == Cell(17, 23)
    ensures Start().direction == Down
  {
  }

  /** A new game on a started game changes nothing. */
  lemma NewGameIdempotent(s: State)
    ensures NewGame(NewGame(s)) == NewGame(s)
  {
  }

  /** First tick after a non-arrow key: the head moves down, the tail leaves one stacked copy. */
  lemma FirstTickScenario()
    ensures Drawable([KeyPress("Enter"), TimerTick(0, 0)])
    ensures Replay(Start(), [KeyPress("Enter"), TimerTick(0, 0)]) ==
      State(Down, [Cell(17, 18), Cell(17, 17), Cell(17, 17)], Cell(17, 23), true, 0)
  {
  }

  /** ArrowUp on a snake heading down is a reversal: it is refused and the next tick still moves down. */
  lemma ReversalScenario()
    ensures Drawable([KeyPress("ArrowUp"), TimerTick(0, 0)])
    ensures Replay(Start(), [KeyPress("ArrowUp"), TimerTick(0, 0)]).direction == Down
    ensures Replay(Start(), [KeyPress("ArrowUp"), TimerTick(0, 0)]).body[0] == Cell(17, 18)
  {
  }

  /** ArrowLeft on a snake heading down turns it: the next tick moves the head left. */
  lemma TurnScenario()
    ensures Drawable([KeyPress("ArrowLeft"), TimerTick(0, 0)])
    ensures Replay(Start(), [KeyPress("ArrowLeft"), TimerTick(0, 0)]).direction == Left
    ensures Replay(Start(), [KeyPress("ArrowLeft"), TimerTick(0, 0)]).body[0] == Cell(16, 17)
  {
  }

  /** The start snake after `k` ticks straight down, before it reaches the food. */
  function DownState(k: int): (s: State)
    requires 0 <= k <= 6
    ensures |s.body| == 3 && s.body[0] == Cell(17, 17 + k) && s.running
  {
    State(Down, [Cell(17, 17 + k), Cell(17, if k < 1 then 17 else 16 + k), Cell(17, if k < 2 then 17 else 15 + k)],
          Cell(17, 23), true, 0)
  }

  lemma DownTick(k: int, t: Event)
    requires 0 <= k < 6 && t.TimerTick? && IsBucket(t.bucketX) && IsBucket(t.bucketY)
    ensures Apply(DownState(k), t) == DownState(k + 1)
  {
    assert DownState(k).body[0] != DownState(k).food;
  }

  /**
   * Seven ticks straight down from the start bring the head onto the start
   * food at (17, 23); the seventh tick eats it: one point, a fourth segment,
   * and the food moves to the drawn buckets.
   */
  lemma EatScenario(bx: int, bY: int)
    requires IsBucket(bx) && IsBucket(bY)
    ensures Drawable([KeyPress("Enter")] + seq(7, _ => TimerTick(bx, bY)))
    ensures Replay(Start(), [KeyPress("Enter")] + seq(7, _ => TimerTick(bx, bY))) ==
      State(Down, [Cell(17, 24), Cell(17, 23), Cell(17, 22), Cell(17, 21)],
            Cell(Quantize(bx, Width), Quantize(bY, Height)), true, 1)
  {
    var t := TimerTick(bx, bY);
    var evs := [KeyPress("Enter")] + seq(7, _ => t);
    assert Apply(Start(), evs[0]) == DownState(0);
    var k := 0;
    while k < 6
      invariant 0 <= k <= 6
      invariant Drawable(evs[1 + k..])
      invariant Replay(Start(), evs) == Replay(DownState(k), evs[1 + k..])
    {
      assert evs[1 + k] == t;
      DrawableSuffix(evs, 2 + k);
      assert evs[1 + k..][1..] == evs[2 + k..];
      DownTick(k, t);
      k := k + 1;
    }
    var fed := Apply(DownState(6), t);
    assert fed.body == [Cell(17, 24), Cell(17, 23), Cell(17, 22), Cell(17, 21)];
    assert Replay(DownState(6), evs[7..]) == Replay(fed, evs[8..]);
  }

  /**
   * The coordinate variant of the self check would end every game on its
   * first tick.  After mount the game only runs once a key is pressed; the
   * first tick then sees the stacked start snake, whose head is still in the
   * grid and off the food, so the food and wall checks pass and a
   * coordinate self check would fire.
   */
  lemma CellCollisionAtStart(key: string)
    ensures CellSelfCollision(Start())
    ensures var s := KeyDown(Start(), key);
      s.running && InGrid(s.body[0]) && s.body[0] != s.food && CellSelfCollision(s)
  {
    var s := KeyDown(Start(), key);
    assert s.body[1] == s.body[0];
  }
}
