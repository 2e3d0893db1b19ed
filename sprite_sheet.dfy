/**
 * The reusable sprite-sheet animation clock (src/utils/createSpriteSheet.ts):
 * a `SpriteSheet` object whose `updateCurrentFrame` advances a frame index
 * cyclically through [initialFrame, lastFrame) once more than `spawnInterval`
 * milliseconds have passed since the last advance. Drawing is not modelled.
 */
module SpriteSheets {
  import opened Wrappers
  import JsMath
  import SheetInfo

  /**
   * The frame that follows `current` on a clock cycling through [initial, last),
   * computed as the source does: initial + ((current - initial + 1) % range)
   * with JavaScript's `%` and range = last - 1 - initial + 1.
   */
  function NextFrame(initial: int, last: int, current: int): (next: int)
    requires last != initial
    ensures initial <= current < last ==> initial <= next < last
    ensures initial <= current < last ==> next == if current + 1 < last then current + 1 else initial
  {
    var range := last - 1 - initial + 1;
    initial + JsMath.Rem(current - initial + 1, range)
  }

  /** The frame shown after `k` advances of a clock that started at `initial`. */
  function FrameAfter(initial: int, last: int, k: nat): int
    requires last > initial
  {
    if k == 0 then initial else NextFrame(initial, last, FrameAfter(initial, last, k - 1))
  }

  /** After k advances the clock shows initial + k mod range: it visits every frame in order and wraps. */
  lemma {:induction false} FrameAfterCycles(initial: int, last: int, k: nat)
    requires last > initial
    ensures FrameAfter(initial, last, k) == initial + k % (last - initial)
  {
    if k > 0 {
      FrameAfterCycles(initial, last, k - 1);
      ModSuccessor(k - 1, last - initial);
    }
  }

  /** (m + 1) % n steps up by one, or wraps to 0 from n - 1. */
  lemma ModSuccessor(m: nat, n: nat)
    requires n > 0
    ensures (m + 1) % n == if m % n + 1 < n then m % n + 1 else 0
  {
    var q, r := m / n, m % n;
    assert m == q * n + r;
    if r + 1 < n {
      assert m + 1 == q * n + (r + 1);
      DivModUnique(m + 1, n, q, r + 1);
    } else {
      assert m + 1 == (q + 1) * n + 0;
      DivModUnique(m + 1, n, q + 1, 0);
    }
  }

  lemma DivModUnique(a: nat, n: nat, q: int, r: int)
    requires n > 0 && 0 <= r < n && a == q * n + r
    ensures a % n == r
  {
    var q', r' := a / n, a % n;
    assert a == q' * n + r';
    var d := q - q';
    assert d * n == r' - r by {
      assert q * n - q' * n == (q - q') * n;
    }
    if d >= 1 {
      AtLeastOneMultiple(d, n);
    }
  }

  lemma AtLeastOneMultiple(d: int, n: nat)
    requires d >= 1
    ensures d * n >= n
  {
    assert d * n == (d - 1) * n + n;
  }

  /** The constructor's parameter object; `None` is an omitted optional field. */
  datatype Options = Options(
    url: string,
    spriteWidth: real,
    spriteHeight: real,
    totalCols: Option<int>,
    totalRows: Option<int>,
    spawnInterval: Option<real>,
    scale: Option<real>,
    currentFrame: Option<int>,
    lastFrameTime: Option<real>,
    movementSpeed: Option<real>,
    lastFrame: Option<int>)

  class SpriteSheet {
    var spritesheet: SheetInfo.Image
    var spriteWidth: real
    var spriteHeight: real
    var scale: real
    var spawnInterval: real
    var currentFrame: int
    var lastFrameTime: real
    var movementSpeed: real
    var totalCols: int
    var totalRows: int
    var initialFrame: int
    var lastFrame: int

    /** The frame index lies in the animated range [initialFrame, lastFrame). */
    predicate InCycle()
      reads this
    {
      initialFrame <= currentFrame < lastFrame
    }

    /** Fills every omitted option with its default; the first frame is remembered as `initialFrame`. */
    constructor(p: Options)
      ensures spritesheet == SheetInfo.Image(p.url)
      ensures spriteWidth == p.spriteWidth && spriteHeight == p.spriteHeight
      ensures scale == p.scale.GetOr(1.0)
      ensures spawnInterval == p.spawnInterval.GetOr(1000.0)
      ensures currentFrame == p.currentFrame.GetOr(0)
      ensures lastFrameTime == p.lastFrameTime.GetOr(0.0)
      ensures movementSpeed == p.movementSpeed.GetOr(1.0)
      ensures initialFrame == currentFrame
      ensures lastFrame == p.lastFrame.GetOr(0)
      ensures totalCols == p.totalCols.GetOr(0) && totalRows == p.totalRows.GetOr(0)
    {
      spritesheet := SheetInfo.Image(p.url);
      spriteWidth := p.spriteWidth;
      spriteHeight := p.spriteHeight;
      scale := p.scale.GetOr(1.0);
      spawnInterval := p.spawnInterval.GetOr(1000.0);
      currentFrame := p.currentFrame.GetOr(0);
      lastFrameTime := p.lastFrameTime.GetOr(0.0);
      movementSpeed := p.movementSpeed.GetOr(1.0);
      initialFrame := p.currentFrame.GetOr(0);
      lastFrame := p.lastFrame.GetOr(0);
      totalCols := p.totalCols.GetOr(0);
      totalRows := p.totalRows.GetOr(0);
    }

    /**
     * `updateCurrentFrame`: when strictly more than `spawnInterval` has elapsed,
     * move to the next frame of the cycle and restart the interval at
     * `currentTime`; otherwise nothing changes. Only the two clock fields are
     * written. An advance over an empty range (lastFrame == initialFrame) would
     * be `% 0`, which the source does not guard against.
     */
    method UpdateCurrentFrame(currentTime: real)
      requires currentTime - lastFrameTime > spawnInterval ==> lastFrame != initialFrame
      modifies this`currentFrame, this`lastFrameTime
      ensures old(currentTime - lastFrameTime > spawnInterval) ==>
        currentFrame == NextFrame(initialFrame, lastFrame, old(currentFrame)) && lastFrameTime == currentTime
      ensures old(currentTime - lastFrameTime <= spawnInterval) ==>
        currentFrame == old(currentFrame) && lastFrameTime == old(lastFrameTime)
      ensures old(InCycle()) ==> InCycle()
    {
      var timeElapsed := currentTime - lastFrameTime;
      if timeElapsed > spawnInterval {
        var range := lastFrame - 1 - initialFrame + 1;
        currentFrame := initialFrame + JsMath.Rem(currentFrame - initialFrame + 1, range);
        lastFrameTime := currentTime;
      }
    }
  }
}
