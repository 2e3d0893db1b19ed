/**
 * The ball game of src/components/BallGame.tsx: a ball moved by the arrow keys
 * in steps of 75 pixels, and 75-pixel obstacles that rise under "gravity"
 * (every 200 ms), are spawned (every 1000 ms) and are collected by touching
 * the ball (checked every 100 ms). The three interval callbacks and the key
 * handler become the methods of `BallGame`; the `Math.random()` draws are
 * parameters.
 */
module BallGames {
  import opened Wrappers
  import JsMath
  import Entities

  /*
   * Numbers that may be NaN. Spawning after every obstacle is gone reads
   * `undefined?.x + offset`, which is NaN; every comparison with NaN is false
   * and NaN plus a number is NaN.
   */
  datatype Num = Finite(v: real) | NaN

  function Plus(a: Num, b: real): Num {
    match a
    case Finite(v) => Finite(v + b)
    case NaN => NaN
  }

  predicate Above(a: Num, b: real) {
    a.Finite? && a.v > b
  }

  predicate Below(a: Num, b: real) {
    a.Finite? && a.v < b
  }

  /** The ball's top-left corner. */
  datatype Position = Position(x: real, y: real)

  /** An obstacle's top-left corner; its x is NaN when it was spawned with no obstacle before it. */
  datatype Obstacle = Obstacle(x: Num, y: real)

  const Size := 75.0
  const Step := 75.0

  /** `randomIntFromInterval(min, max)`: `Math.floor(r * (max - min + 1) + min)` for a draw r. */
  function RandomIntFromInterval(min: int, max: int, r: real): (v: int)
    requires min <= max && 0.0 <= r < 1.0
    ensures min <= v <= max
  {
    var n := (max - min + 1) as real;
    assert 0.0 <= r * n < n by {
      assert r * n <= r * n + (1.0 - r) * n;
    }
    (r * n + min as real).Floor
  }

  /** Every value of the interval, both ends included, is drawn for some r. */
  lemma RandomIntReachesEveryValue(min: int, max: int, v: int)
    requires min <= v <= max
    ensures var n := (max - min + 1) as real;
      var r := (v - min) as real / n;
      0.0 <= r < 1.0 && RandomIntFromInterval(min, max, r) == v
  {
    var n := (max - min + 1) as real;
    var r := (v - min) as real / n;
    assert r * n == (v - min) as real;
    assert r * n + min as real == v as real;
  }

  /*
   * The keyboard. Each arrow key moves the ball one step of 75 pixels along
   * one axis.
   */
  datatype BallMove = Left | Right | Up | Down

  function KeyMove(key: Entities.Key): (m: Option<BallMove>)
    ensures m.None? <==> key == Entities.OtherKey
    ensures key == Entities.ArrowLeft <==> m == Some(Left)
    ensures key == Entities.ArrowRight <==> m == Some(Right)
    ensures key == Entities.ArrowUp <==> m == Some(Up)
    ensures key == Entities.ArrowDown <==> m == Some(Down)
  {
    match key
    case ArrowLeft => Some(Left)
    case ArrowRight => Some(Right)
    case ArrowUp => Some(Up)
    case ArrowDown => Some(Down)
    case OtherKey => None
  }

  function Move(p: Position, side: BallMove): (q: Position)
    ensures side == Left || side == Right ==> q.y == p.y && JsMath.Abs(q.x - p.x) == Step
    ensures side == Up || side == Down ==> q.x == p.x && JsMath.Abs(q.y - p.y) == Step
    ensures side == Left || side == Up ==> q.x + q.y < p.x + p.y
    ensures side == Right || side == Down ==> q.x + q.y > p.x + p.y
  {
    match side
    case Left => p.(x := p.x - Step)
    case Right => p.(x := p.x + Step)
    case Up => p.(y := p.y - Step)
    case Down => p.(y := p.y + Step)
  }

  function Opposite(side: BallMove): BallMove {
    match side
    case Left => Right
    case Right => Left
    case Up => Down
    case Down => Up
  }

  /** Every move is undone by the opposite key. */
  lemma MoveUndone(p: Position, side: BallMove)
    ensures Move(Move(p, side), Opposite(side)) == p
  {
  }

  /** `filter` */
  function Filter<T>(s: seq<T>, keep: T -> bool): seq<T> {
    if s == [] then []
    else (if keep(s[0]) then [s[0]] else []) + Filter(s[1..], keep)
  }

  /** `filter` never lengthens a list and keeps exactly the elements that pass. */
  lemma {:induction false} FilterKeeps<T>(s: seq<T>, keep: T -> bool)
    ensures |Filter(s, keep)| <= |s|
    ensures forall x | x in Filter(s, keep) :: x in s && keep(x)
    ensures forall x | x in s && keep(x) :: x in Filter(s, keep)
  {
    if s != [] {
      FilterKeeps(s[1..], keep);
    }
  }

  /** `filter` of a concatenation filters each part in place, so the kept elements stay in order. */
  lemma {:induction false} FilterAppend<T>(s: seq<T>, t: seq<T>, keep: T -> bool)
    ensures Filter(s + t, keep) == Filter(s, keep) + Filter(t, keep)
  {
    if s == [] {
      assert s + t == t;
    } else {
      var head := if keep(s[0]) then [s[0]] else [];
      assert (s + t)[0] == s[0] && (s + t)[1..] == s[1..] + t;
      assert Filter(s + t, keep) == head + Filter(s[1..] + t, keep);
      FilterAppend(s[1..], t, keep);
      assert head + (Filter(s[1..], keep) + Filter(t, keep)) == (head + Filter(s[1..], keep)) + Filter(t, keep);
    }
  }

  /** `filter` keeps each element at most as often as the input holds it. */
  lemma {:induction false} FilterSubMultiset<T>(s: seq<T>, keep: T -> bool)
    ensures multiset(Filter(s, keep)) <= multiset(s)
  {
    if s != [] {
      FilterSubMultiset(s[1..], keep);
      assert s == [s[0]] + s[1..];
    }
  }

  /** The indices from `from` on whose elements pass `keep`, in increasing order. */
  function PassingIndices<T>(s: seq<T>, keep: T -> bool, from: nat): seq<nat>
    decreases |s| - from
  {
    if from >= |s| then []
    else (if keep(s[from]) then [from] else []) + PassingIndices(s, keep, from + 1)
  }

  /**
   * `filter` keeps exactly the elements at the passing indices, in the order
   * of those indices: the result is the subsequence of the passing elements.
   */
  lemma {:induction false} FilterIsPassingSubsequence<T>(s: seq<T>, keep: T -> bool, from: nat)
    requires from <= |s|
    ensures var idx := PassingIndices(s, keep, from);
      var kept := Filter(s[from..], keep);
      && |idx| == |kept|
      && (forall j | 0 <= j < |idx| :: from <= idx[j] < |s| && keep(s[idx[j]]) && kept[j] == s[idx[j]])
      && (forall j, k | 0 <= j < k < |idx| :: idx[j] < idx[k])
      && (forall i | from <= i < |s| && keep(s[i]) :: i in idx)
    decreases |s| - from
  {
    if from < |s| {
      FilterIsPassingSubsequence(s, keep, from + 1);
      assert s[from..][1..] == s[from + 1..];
      assert s[from..][0] == s[from];
    } else {
      assert s[from..] == [];
    }
  }

  /** An element passes `keep` or `drop` exactly: the two filters split the sequence. */
  lemma {:induction false} FilterSplits<T>(s: seq<T>, keep: T -> bool, drop: T -> bool)
    requires forall x | x in s :: keep(x) != drop(x)
    ensures |Filter(s, keep)| + |Filter(s, drop)| == |s|
  {
    if s != [] {
      FilterSplits(s[1..], keep, drop);
    }
  }

  /** Two tests that agree on every element filter alike. */
  lemma {:induction false} FilterAgrees<T>(s: seq<T>, p: T -> bool, q: T -> bool)
    requires forall x | x in s :: p(x) == q(x)
    ensures Filter(s, p) == Filter(s, q)
  {
    if s != [] {
      FilterAgrees(s[1..], p, q);
    }
  }

  /*
   * Gravity: every obstacle moves up by ten pixels per obstacle present, and
   * obstacles that reach 75 pixels above the top are dropped, each costing a
   * life.
   */

  function Lowered(prev: seq<Obstacle>): (moved: seq<Obstacle>)
    ensures |moved| == |prev|
    ensures forall i | 0 <= i < |prev| :: moved[i].x == prev[i].x && moved[i].y == prev[i].y - 10.0 * |prev| as real
  {
    seq(|prev|, i requires 0 <= i < |prev| => prev[i].(y := prev[i].y - 10.0 * |prev| as real))
  }

  predicate OnScreen(o: Obstacle) {
    o.y > -Size
  }

  /** The new obstacle list and the number of `updateLives()` calls. */
  function GravityStep(prev: seq<Obstacle>): (seq<Obstacle>, nat) {
    var moved := Lowered(prev);
    var kept := Filter(moved, OnScreen);
    (kept, |Filter(moved, o => !OnScreen(o))|)
  }

  /**
   * One life is lost per obstacle dropped, every survivor is on screen and is
   * an obstacle moved up by 10 pixels per obstacle, every obstacle that stays
   * on screen survives, and the survivors keep their order: the j-th survivor
   * comes from the j-th index that stays on screen.
   */
  lemma GravityStepLosesOneLifePerDrop(prev: seq<Obstacle>)
    ensures var (kept, lost) := GravityStep(prev);
      && |kept| + lost == |prev|
      && (forall o | o in kept :: OnScreen(o) && exists i | 0 <= i < |prev| :: o == Obstacle(prev[i].x, prev[i].y - 10.0 * |prev| as real))
      && (forall i | 0 <= i < |prev| && prev[i].y - 10.0 * |prev| as real > -Size :: Obstacle(prev[i].x, prev[i].y - 10.0 * |prev| as real) in kept)
      && var idx := PassingIndices(Lowered(prev), OnScreen, 0);
        && |idx| == |kept|
        && (forall j | 0 <= j < |idx| :: idx[j] < |prev| && kept[j] == Obstacle(prev[idx[j]].x, prev[idx[j]].y - 10.0 * |prev| as real))
        && (forall j, k | 0 <= j < k < |idx| :: idx[j] < idx[k])
  {
    var moved := Lowered(prev);
    FilterIsPassingSubsequence(moved, OnScreen, 0);
    assert moved[0..] == moved;
    FilterKeeps(moved, OnScreen);
    FilterSplits(moved, OnScreen, o => !OnScreen(o));
    forall i | 0 <= i < |prev| && prev[i].y - 10.0 * |prev| as real > -Size
      ensures Obstacle(prev[i].x, prev[i].y - 10.0 * |prev| as real) in Filter(moved, OnScreen)
    {
      assert moved[i] == Obstacle(prev[i].x, prev[i].y - 10.0 * |prev| as real);
      assert moved[i] in moved;
    }
    forall o | o in Filter(moved, OnScreen)
      ensures exists i | 0 <= i < |prev| :: o == Obstacle(prev[i].x, prev[i].y - 10.0 * |prev| as real)
    {
      var i :| 0 <= i < |moved| && moved[i] == o;
      assert o == Obstacle(prev[i].x, prev[i].y - 10.0 * |prev| as real);
    }
  }

  /*
   * Spawning. The new obstacle goes at three quarters of the window height; its
   * x is meant to be the last obstacle's x moved by a random offset in
   * [-300, 300], or a fresh value in [300, 900] when that would leave the
   * window. Adding to an empty list is a win.
   */

  function LastX(prev: seq<Obstacle>): Num {
    if |prev| == 0 then NaN else prev[|prev| - 1].x
  }

  /**
   * The x the source computes: the bounds are tested with two offsets drawn
   * for the test (`testRight`, `testLeft`) and the x used takes a third,
   * independent offset (`used`).
   */
  function SpawnXAsWritten(prev: seq<Obstacle>, innerWidth: real, testRight: real, testLeft: real, used: real, freshDraw: real): Num
    requires 0.0 <= testRight < 1.0 && 0.0 <= testLeft < 1.0 && 0.0 <= used < 1.0 && 0.0 <= freshDraw < 1.0
  {
    var last := LastX(prev);
    if Above(Plus(last, RandomIntFromInterval(-300, 300, testRight) as real), innerWidth)
       || Below(Plus(last, RandomIntFromInterval(-300, 300, testLeft) as real), 0.0)
    then Finite(RandomIntFromInterval(300, 900, freshDraw) as real)
    else Plus(last, RandomIntFromInterval(-300, 300, used) as real)
  }

  /**
   * As written, the new x is NaN exactly when the last one is (in particular
   * when the list is empty); otherwise it is a fresh value in [300, 900] when
   * a test fires, and the last x moved by at most 300 pixels when none does.
   */
  lemma SpawnXAsWrittenStaysNear(prev: seq<Obstacle>, innerWidth: real, testRight: real, testLeft: real, used: real, freshDraw: real)
    requires 0.0 <= testRight < 1.0 && 0.0 <= testLeft < 1.0 && 0.0 <= used < 1.0 && 0.0 <= freshDraw < 1.0
    ensures var x := SpawnXAsWritten(prev, innerWidth, testRight, testLeft, used, freshDraw);
      && (LastX(prev).NaN? <==> x.NaN?)
      && (x.Finite? ==> (300.0 <= x.v <= 900.0) || JsMath.Abs(x.v - LastX(prev).v) <= 300.0)
  {
  }

  /** As written, the new obstacle can land outside the window: both tests pass with offset 0, the x used is 300 pixels left of it. */
  lemma SpawnXAsWrittenLeavesWindow()
    ensures SpawnXAsWritten([Obstacle(Finite(0.0), 0.0)], 1000.0, 0.5, 0.5, 0.0, 0.0) == Finite(-300.0)
  {
    assert RandomIntFromInterval(-300, 300, 0.5) == 0 by {
      assert 0.5 * 601.0 + -300.0 == 0.5;
    }
    assert RandomIntFromInterval(-300, 300, 0.0) == -300;
  }

  /** The evidently intended x: one offset, tested and then used. */
  function SpawnX(prev: seq<Obstacle>, innerWidth: real, offset: real, freshDraw: real): (x: Num)
    requires 0.0 <= offset < 1.0 && 0.0 <= freshDraw < 1.0
    ensures LastX(prev).NaN? <==> x.NaN?
  {
    var candidate := Plus(LastX(prev), RandomIntFromInterval(-300, 300, offset) as real);
    if Above(candidate, innerWidth) || Below(candidate, 0.0)
    then Finite(RandomIntFromInterval(300, 900, freshDraw) as real)
    else candidate
  }

  /** The x a finite obstacle may have: in the window, or in the freshDraw range [300, 900]. */
  predicate InBounds(x: Num, innerWidth: real) {
    x.NaN? || (0.0 <= x.v <= innerWidth) || (300.0 <= x.v <= 900.0)
  }

  /** With one offset the new obstacle stays in the window or takes a freshDraw x, and is at most 300 pixels from the last one when it stays. */
  lemma SpawnXStaysInBounds(prev: seq<Obstacle>, innerWidth: real, offset: real, freshDraw: real)
    requires 0.0 <= offset < 1.0 && 0.0 <= freshDraw < 1.0
    ensures var x := SpawnX(prev, innerWidth, offset, freshDraw);
      && InBounds(x, innerWidth)
      && (x.Finite? && LastX(prev).Finite? && !(300.0 <= x.v <= 900.0) ==> JsMath.Abs(x.v - LastX(prev).v) <= 300.0)
  {
  }

  /** The obstacle list after one spawn, and whether `winGame()` was called. */
  function SpawnStep(prev: seq<Obstacle>, innerWidth: real, innerHeight: real, offset: real, freshDraw: real): (seq<Obstacle>, bool)
    requires 0.0 <= offset < 1.0 && 0.0 <= freshDraw < 1.0
  {
    (prev + [Obstacle(SpawnX(prev, innerWidth, offset, freshDraw), innerHeight / 2.0 + innerHeight / 4.0)], |prev| == 0)
  }

  /** A spawn appends one obstacle at three quarters of the height; the game is won exactly when there was none, and then the new x is NaN. */
  lemma SpawnStepWinsOnEmpty(prev: seq<Obstacle>, innerWidth: real, innerHeight: real, offset: real, freshDraw: real)
    requires 0.0 <= offset < 1.0 && 0.0 <= freshDraw < 1.0
    ensures var (next, won) := SpawnStep(prev, innerWidth, innerHeight, offset, freshDraw);
      && next[..|prev|] == prev && |next| == |prev| + 1
      && next[|prev|].y == 0.75 * innerHeight
      && (won <==> prev == [])
      && (won ==> next[|prev|].x.NaN?)
  {
  }

  /** The obstacle list after one spawn as written, and whether `winGame()` was called. */
  function SpawnStepAsWritten(prev: seq<Obstacle>, innerWidth: real, innerHeight: real,
                              testRight: real, testLeft: real, used: real, freshDraw: real): (seq<Obstacle>, bool)
    requires 0.0 <= testRight < 1.0 && 0.0 <= testLeft < 1.0 && 0.0 <= used < 1.0 && 0.0 <= freshDraw < 1.0
  {
    var x := SpawnXAsWritten(prev, innerWidth, testRight, testLeft, used, freshDraw);
    (prev + [Obstacle(x, innerHeight / 2.0 + innerHeight / 4.0)], |prev| == 0)
  }

  /** The spawn as written appends one obstacle at three quarters of the height; the game is won exactly when there was none, and then the new x is NaN. */
  lemma SpawnStepAsWrittenWinsOnEmpty(prev: seq<Obstacle>, innerWidth: real, innerHeight: real,
                                      testRight: real, testLeft: real, used: real, freshDraw: real)
    requires 0.0 <= testRight < 1.0 && 0.0 <= testLeft < 1.0 && 0.0 <= used < 1.0 && 0.0 <= freshDraw < 1.0
    ensures var (next, won) := SpawnStepAsWritten(prev, innerWidth, innerHeight, testRight, testLeft, used, freshDraw);
      && next[..|prev|] == prev && |next| == |prev| + 1
      && next[|prev|].y == 0.75 * innerHeight
      && (won <==> prev == [])
      && (won ==> next[|prev|].x.NaN?)
  {
  }

  /*
   * Collisions: the ball and an obstacle touch when their 75-pixel squares
   * overlap strictly. A NaN coordinate never touches anything.
   */
  predicate Touches(ball: Position, o: Obstacle) {
    && Above(Plus(o.x, Size), ball.x)
    && Below(o.x, ball.x + Size)
    && ball.y < o.y + Size
    && ball.y + Size > o.y
  }

  /** Touching is being less than one size apart on both axes; an obstacle with a NaN x is never touched. */
  lemma TouchesIsCloseness(ball: Position, o: Obstacle)
    ensures Touches(ball, o) <==> o.x.Finite? && JsMath.Abs(ball.x - o.x.v) < Size && JsMath.Abs(ball.y - o.y) < Size
  {
  }

  /** Touching is symmetric: swapping the ball and a finite obstacle gives the same answer. */
  lemma TouchesIsSymmetric(ball: Position, ox: real, oy: real)
    ensures Touches(ball, Obstacle(Finite(ox), oy)) == Touches(Position(ox, oy), Obstacle(Finite(ball.x), ball.y))
  {
  }

  /**
   * `checkCollision`'s `forEach`: collect every obstacle the ball touches,
   * calling `updateScore()` once for each.
   */
  method TouchedObstacles(ball: Position, obstacles: seq<Obstacle>) returns (toRemove: seq<Obstacle>, scoreCalls: nat)
    ensures toRemove == Filter(obstacles, o => Touches(ball, o))
    ensures scoreCalls == |toRemove|
  {
    toRemove := [];
    scoreCalls := 0;
    var i := 0;
    while i < |obstacles|
      invariant 0 <= i <= |obstacles|
      invariant toRemove + Filter(obstacles[i..], o => Touches(ball, o)) == Filter(obstacles, o => Touches(ball, o))
      invariant scoreCalls == |toRemove|
    {
      assert obstacles[i..] == [obstacles[i]] + obstacles[i + 1..];
      var o := obstacles[i];
      if Above(Plus(o.x, Size), ball.x) && Below(o.x, ball.x + Size) && ball.y < o.y + Size && ball.y + Size > o.y {
        toRemove := toRemove + [o];
        scoreCalls := scoreCalls + 1;
      }
      i := i + 1;
    }
  }

  function Untouched(ball: Position, obstacles: seq<Obstacle>): seq<Obstacle> {
    Filter(obstacles, o => !Touches(ball, o))
  }

  /** Removing the touched obstacles by equality leaves exactly the untouched ones, and scores one per removal. */
  lemma {:induction false} CollisionLeavesUntouched(ball: Position, obstacles: seq<Obstacle>)
    ensures var toRemove := Filter(obstacles, o => Touches(ball, o));
      && Filter(obstacles, o => o !in toRemove) == Untouched(ball, obstacles)
      && |Filter(obstacles, o => o !in toRemove)| + |toRemove| == |obstacles|
  {
    var toRemove := Filter(obstacles, o => Touches(ball, o));
    FilterKeeps(obstacles, o => Touches(ball, o));
    FilterAgrees(obstacles, o => o !in toRemove, o => !Touches(ball, o));
    FilterSplits(obstacles, o => !Touches(ball, o), o => Touches(ball, o));
  }

  /** The component's state: the ball and the obstacle list (both `useState` values). */
  class BallGame {
    const innerWidth: real
    const innerHeight: real
    var ball: Position
    var obstacles: seq<Obstacle>

    /**
     * The window height is not negative, and every obstacle on the list is
     * on screen: gravity drops the others and spawning adds at three quarters
     * of the height.
     */
    predicate Valid()
      reads this
    {
      innerHeight >= 0.0 && forall o | o in obstacles :: OnScreen(o)
    }

    /** The ball 40 pixels left of the middle at y = 400; one obstacle at a freshDraw x and y = 800. */
    constructor(width: real, height: real, freshDraw: real)
      requires height >= 0.0 && 0.0 <= freshDraw < 1.0
      ensures Valid()
      ensures innerWidth == width && innerHeight == height
      ensures ball == Position(width - width / 2.0 - 40.0, 400.0)
      ensures |obstacles| == 1 && obstacles[0].y == 800.0 && obstacles[0].x.Finite?
      ensures 300.0 <= obstacles[0].x.v <= 900.0
    {
      innerWidth := width;
      innerHeight := height;
      ball := Position(width - width / 2.0 - 40.0, 400.0);
      obstacles := [Obstacle(Finite(RandomIntFromInterval(300, 900, freshDraw) as real), 800.0)];
    }

    /** `handleKeyDown`: an arrow key moves the ball one step; any other key does nothing. */
    method HandleKeyDown(key: Entities.Key)
      modifies this`ball
      ensures ball == match KeyMove(key) case Some(side) => Move(old(ball), side) case None => old(ball)
    {
      match KeyMove(key) {
        case Some(side) => ball := Move(ball, side);
        case None =>
      }
    }

    /** The gravity interval; returns the number of `updateLives()` calls. */
    method Gravity() returns (livesLost: nat)
      requires Valid()
      modifies this`obstacles
      ensures Valid()
      ensures (obstacles, livesLost) == GravityStep(old(obstacles))
      ensures |obstacles| + livesLost == |old(obstacles)|
    {
      GravityStepLosesOneLifePerDrop(obstacles);
      FilterKeeps(Lowered(obstacles), OnScreen);
      var prev := obstacles;
      obstacles, livesLost := GravityStep(obstacles).0, GravityStep(obstacles).1;
    }

    /**
     * The spawn interval as written: two offsets drawn for the bounds tests
     * and a third for the x used; returns whether `winGame()` was called.
     */
    method Spawn(testRight: real, testLeft: real, used: real, freshDraw: real) returns (won: bool)
      requires Valid()
      requires 0.0 <= testRight < 1.0 && 0.0 <= testLeft < 1.0 && 0.0 <= used < 1.0 && 0.0 <= freshDraw < 1.0
      modifies this`obstacles
      ensures Valid()
      ensures (obstacles, won) == SpawnStepAsWritten(old(obstacles), innerWidth, innerHeight, testRight, testLeft, used, freshDraw)
    {
      var x := SpawnXAsWritten(obstacles, innerWidth, testRight, testLeft, used, freshDraw);
      won := |obstacles| == 0;
      obstacles := obstacles + [Obstacle(x, innerHeight / 2.0 + innerHeight / 4.0)];
    }

    /** The collision interval; returns the number of `updateScore()` calls. */
    method CheckCollision() returns (scoreCalls: nat)
      requires Valid()
      modifies this`obstacles
      ensures Valid()
      ensures obstacles == Untouched(ball, old(obstacles))
      ensures |obstacles| + scoreCalls == |old(obstacles)|
    {
      var toRemove;
      toRemove, scoreCalls := TouchedObstacles(ball, obstacles);
      CollisionLeavesUntouched(ball, obstacles);
      FilterKeeps(obstacles, o => o !in toRemove);
      obstacles := Filter(obstacles, o => o !in toRemove);
    }
  }
}
