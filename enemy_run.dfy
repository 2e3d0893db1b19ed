/**
 * The enemy-dodging game of src/components/CanvasWithSprite.tsx: a fixed field
 * with a five-column path, enemies that fall along the path and are removed
 * (scoring a point) when they touch the player, and arrow keys that move the
 * player left and right. One call of `Game.Animate` is one
 * `animate(timestamp)` frame with its drawing left out.
 */
module EnemyRun {
  import JsMath
  import SpriteSheets
  import opened Intersection
  import opened Entities

  const FieldTileSize := 32.0
  const PathTile := 32
  const GrassTile := 37
  const PlayerWidth := 32.0
  const PlayerHeight := 32.0
  const PlayerTotalFrames := 24
  const FirstRunFrame := 18
  const PlayerFrameDelay := 100.0
  const PlayerStep := 38.0
  const EnemySize := 64.0
  const EnemyTotalFrames := 8
  const EnemySpeed := 2.0
  const EnemyAnimationSpeed := 100.0
  const EnemyAddInterval := 500.0
  const MaxEnemies := 10

  /** Column i of every field row: path in the five columns around the centre, grass elsewhere. */
  function FieldTile(i: int, centre: int): (t: int)
    ensures t == PathTile <==> centre - 2 <= i <= centre + 2
    ensures t == PathTile || t == GrassTile
  {
    if i >= centre - 2 && i <= centre + 2 then PathTile else GrassTile
  }

  /** The x positions new enemies are drawn from; the second position is listed twice. */
  function EnemyLanes(centre: int): seq<real> {
    [(centre - 2) as real * 34.0, (centre - 1) as real * 34.0, centre as real * 32.0, (centre - 1) as real * 34.0]
  }

  /** The x positions of the two enemies present at start-up. */
  function StartLanes(centre: int): seq<real> {
    [32.0 * (centre - 2) as real, 32.0 * (centre + 1) as real]
  }

  /** The lane of a new enemy, picked by a draw. */
  function EnemyLane(centre: int, r: real): (x: real)
    requires 0.0 <= r < 1.0
    ensures x in EnemyLanes(centre)
    ensures x == (centre - 1) as real * 34.0 <== JsMath.RandomIndex(r, 4) % 2 == 1
  {
    EnemyLanes(centre)[JsMath.RandomIndex(r, 4)]
  }

  /**
   * Half of all draws pick the second position: an index of 1 or 3 gives it,
   * and for every centre column but 17 no other index does.
   */
  lemma SecondLaneHalfTheDraws(centre: int, r: real)
    requires 0.0 <= r < 1.0
    requires centre != 17
    ensures EnemyLane(centre, r) == (centre - 1) as real * 34.0 <==> JsMath.RandomIndex(r, 4) % 2 == 1
  {
    var k := JsMath.RandomIndex(r, 4);
    if k == 2 {
      assert centre as real * 32.0 != (centre - 1) as real * 34.0;
    }
  }

  /** At centre column 17 the third position coincides with the second. */
  lemma CentreSeventeenMergesLanes()
    ensures EnemyLanes(17)[2] == EnemyLanes(17)[1]
  {
  }

  predicate IsEnemy(e: Entity, centre: int) {
    e.Enemy? && e.animationSpeed == EnemyAnimationSpeed && (e.x in EnemyLanes(centre) || e.x in StartLanes(centre))
  }

  /** The state the `useEffect` closure of CanvasWithSprite.tsx keeps between frames. */
  class Game {
    const width: real
    const height: real
    const centre: int
    const tilemap: seq<seq<int>>

    var playerX: real
    var playerY: real
    var playerCurrentFrame: int
    var lastPlayerFrameTime: real
    var enemies: seq<Entity>
    var enemyCurrentFrame: int
    var lastEnemyFrameTime: real
    var lastEnemyAddTime: real

    /** The player's x stays within one step of the two gates the arrow keys test. */
    predicate InCorridor(x: real)
      reads this
    {
      (centre - 1) as real * 32.0 - PlayerStep <= x <= centre as real * 32.0 + PlayerStep
    }

    /**
     * What holds between frames: at most ten enemies, every one in a lane,
     * both animation clocks in their cycles, the player in its corridor.
     */
    predicate Valid()
      reads this
    {
      && width >= 800.0 && height >= 800.0
      && centre == (width / FieldTileSize / 2.0).Floor
      && |enemies| <= MaxEnemies
      && (forall e | e in enemies :: IsEnemy(e, centre))
      && 0 <= enemyCurrentFrame < EnemyTotalFrames
      && FirstRunFrame <= playerCurrentFrame < PlayerTotalFrames
      && InCorridor(playerX)
    }

    /**
     * Start-up: a canvas of at least 800 by 800, a field of whole tiles with
     * the path around the centre column, two enemies 64 pixels from the top,
     * the player just left of the centre column, 128 pixels above the bottom,
     * and every clock at 0.
     */
    constructor(innerWidth: real, innerHeight: real)
      ensures Valid()
      ensures width == Viewport(innerWidth) && height == Viewport(innerHeight)
      ensures |tilemap| == (height / FieldTileSize).Floor
      ensures forall r | 0 <= r < |tilemap| :: |tilemap[r]| == (width / FieldTileSize).Floor
      ensures forall r, i | 0 <= r < |tilemap| && 0 <= i < |tilemap[r]| :: tilemap[r][i] == PathTile <==> centre - 2 <= i <= centre + 2
      ensures forall r, i | 0 <= r < |tilemap| && 0 <= i < |tilemap[r]| :: tilemap[r][i] == GrassTile <==> !(centre - 2 <= i <= centre + 2)
      ensures enemies == [Enemy(StartLanes(centre)[0], EnemySize, EnemyAnimationSpeed), Enemy(StartLanes(centre)[1], EnemySize, EnemyAnimationSpeed)]
      ensures playerX == 32.0 * centre as real - 1.0 && playerY == height - PlayerHeight * 4.0
      ensures playerCurrentFrame == FirstRunFrame && lastPlayerFrameTime == 0.0
      ensures enemyCurrentFrame == 0 && lastEnemyFrameTime == 0.0 && lastEnemyAddTime == 0.0
    {
      var w := Viewport(innerWidth);
      var h := Viewport(innerHeight);
      width := w;
      height := h;
      var c := (w / FieldTileSize / 2.0).Floor;
      centre := c;
      var rows: nat := (h / FieldTileSize).Floor;
      var cols: nat := (w / FieldTileSize).Floor;
      tilemap := seq(rows, _ => seq(cols, i => FieldTile(i, c)));
      playerCurrentFrame := FirstRunFrame;
      playerX := 32.0 * c as real - 1.0;
      playerY := h - PlayerHeight * 4.0;
      lastPlayerFrameTime := 0.0;
      enemies := [Enemy(32.0 * (c - 2) as real, EnemySize, EnemyAnimationSpeed),
                  Enemy(32.0 * (c + 1) as real, EnemySize, EnemyAnimationSpeed)];
      enemyCurrentFrame := 0;
      lastEnemyFrameTime := 0.0;
      lastEnemyAddTime := 0.0;
    }

    /** The enemies fall two pixels and leave below the canvas; the enemy clock ticks on the first enemy visited. */
    method AdvanceEnemies(timestamp: real)
      requires Valid()
      modifies this`enemies, this`enemyCurrentFrame, this`lastEnemyFrameTime
      ensures Valid()
      ensures enemies == FallAndCull(old(enemies), EnemySpeed, height)
      ensures var clock := FrameClock(old(enemyCurrentFrame), old(lastEnemyFrameTime));
        FrameClock(enemyCurrentFrame, lastEnemyFrameTime) ==
          if |old(enemies)| > 0 && timestamp - clock.lastTime > EnemyAnimationSpeed
          then FrameClock(SpriteSheets.NextFrame(0, EnemyTotalFrames, clock.frame), timestamp)
          else clock
    {
      var clock;
      enemies, clock := AnimatedFallAndCullPass(enemies, EnemySpeed, height, FrameClock(enemyCurrentFrame, lastEnemyFrameTime),
                                                 timestamp, EnemyTotalFrames, EnemyAnimationSpeed);
      enemyCurrentFrame := clock.frame;
      lastEnemyFrameTime := clock.lastTime;
      var c := centre;
      FallAndCullKeeps(old(enemies), EnemySpeed, height, e => IsEnemy(e, c));
      FallAndCullShrinks(old(enemies), 0, EnemySpeed, height);
    }

    /** Every 500 ms, while fewer than ten enemies fall, a new one appears 96 pixels above the canvas. */
    method SpawnEnemy(timestamp: real, laneDraw: real)
      requires Valid() && 0.0 <= laneDraw < 1.0
      modifies this`enemies, this`lastEnemyAddTime
      ensures Valid()
      ensures if old(timestamp - lastEnemyAddTime > EnemyAddInterval && |enemies| < MaxEnemies) then
          enemies == old(enemies) + [Enemy(EnemyLane(centre, laneDraw), -EnemySize * 1.5, EnemyAnimationSpeed)]
          && lastEnemyAddTime == timestamp
        else enemies == old(enemies) && lastEnemyAddTime == old(lastEnemyAddTime)
    {
      if timestamp - lastEnemyAddTime > EnemyAddInterval && |enemies| < MaxEnemies {
        enemies := enemies + [Enemy(EnemyLanes(centre)[JsMath.RandomIndex(laneDraw, 4)], -EnemySize * 1.5, EnemyAnimationSpeed)];
        lastEnemyAddTime := timestamp;
      }
    }

    /** The player's animation cycles through frames 18 to 23, one step per 100 ms. */
    method UpdatePlayerFrame(timestamp: real)
      requires Valid()
      modifies this`playerCurrentFrame, this`lastPlayerFrameTime
      ensures Valid()
      ensures if timestamp - old(lastPlayerFrameTime) > PlayerFrameDelay then
          playerCurrentFrame == SpriteSheets.NextFrame(FirstRunFrame, PlayerTotalFrames, old(playerCurrentFrame))
          && lastPlayerFrameTime == timestamp
        else playerCurrentFrame == old(playerCurrentFrame) && lastPlayerFrameTime == old(lastPlayerFrameTime)
    {
      if timestamp - lastPlayerFrameTime > PlayerFrameDelay {
        playerCurrentFrame := InlineFrame(playerCurrentFrame, PlayerTotalFrames, FirstRunFrame);
        lastPlayerFrameTime := timestamp;
      }
    }

    /** The collision test: the player's unscaled 32 x 32 box against an enemy's 64 x 64 box. */
    function EnemyBox(overlaps: (Rect, Rect) -> bool): HitBox
      reads this
    {
      HitBox(overlaps, Rect(playerX, playerY, PlayerWidth, PlayerHeight), EnemySize, EnemySize)
    }

    /**
     * Each enemy touching the player that the pass visits is removed and scores
     * one point; the enemy right after a removed one is not visited and waits
     * for the next frame.
     */
    method HitEnemies(overlaps: (Rect, Rect) -> bool) returns (scoreCalls: nat)
      requires Valid()
      modifies this`enemies
      ensures Valid()
      ensures (enemies, scoreCalls) == Collect(old(enemies), EnemyBox(overlaps))
      ensures |enemies| + scoreCalls == |old(enemies)|
      ensures (exists k | 0 <= k < |old(enemies)| :: EnemyBox(overlaps).Hits(old(enemies)[k])) ==> scoreCalls > 0
      ensures DistinctPositions(old(enemies)) ==> (enemies, scoreCalls) == RemoveHitsSkippingNext(old(enemies), EnemyBox(overlaps))
    {
      enemies, scoreCalls := CollectPass(enemies, EnemyBox(overlaps));
    }

    /**
     * One `animate(timestamp)` frame, in the source's order; returns the number
     * of `setScore()` calls. Drawing is not modelled; `overlaps` is the
     * rectangle test.
     */
    method Animate(timestamp: real, laneDraw: real, overlaps: (Rect, Rect) -> bool) returns (scoreCalls: nat)
      requires Valid() && 0.0 <= laneDraw < 1.0
      modifies this
      ensures Valid()
      ensures playerX == old(playerX) && playerY == old(playerY)
      ensures |enemies| <= MaxEnemies
      ensures var fallen := FallAndCull(old(enemies), EnemySpeed, height);
        var spawns := old(timestamp - lastEnemyAddTime) > EnemyAddInterval && |fallen| < MaxEnemies;
        var spawned := if spawns then fallen + [Enemy(EnemyLane(centre, laneDraw), -EnemySize * 1.5, EnemyAnimationSpeed)] else fallen;
        && (enemies, scoreCalls) == Collect(spawned, EnemyBox(overlaps))
        && lastEnemyAddTime == if spawns then timestamp else old(lastEnemyAddTime)
      ensures var clock := FrameClock(old(enemyCurrentFrame), old(lastEnemyFrameTime));
        FrameClock(enemyCurrentFrame, lastEnemyFrameTime) ==
          if |old(enemies)| > 0 && timestamp - clock.lastTime > EnemyAnimationSpeed
          then FrameClock(SpriteSheets.NextFrame(0, EnemyTotalFrames, clock.frame), timestamp)
          else clock
      ensures var clock := FrameClock(old(playerCurrentFrame), old(lastPlayerFrameTime));
        FrameClock(playerCurrentFrame, lastPlayerFrameTime) ==
          if timestamp - clock.lastTime > PlayerFrameDelay
          then FrameClock(SpriteSheets.NextFrame(FirstRunFrame, PlayerTotalFrames, clock.frame), timestamp)
          else clock
    {
      AdvanceEnemies(timestamp);
      SpawnEnemy(timestamp, laneDraw);
      UpdatePlayerFrame(timestamp);
      scoreCalls := HitEnemies(overlaps);
    }

    /**
     * ArrowLeft moves 38 pixels left while the player is right of column
     * centre - 1; ArrowRight moves 38 pixels right while it is left of the
     * centre column.
     */
    method HandleKeyDown(key: Key)
      requires Valid()
      modifies this`playerX
      ensures Valid()
      ensures playerX == LaneStep(old(playerX), key, PlayerStep, (centre - 1) as real * 32.0, centre as real * 32.0)
    {
      LaneStepStaysInCorridor(playerX, key, PlayerStep, (centre - 1) as real * 32.0, centre as real * 32.0);
      match key {
        case ArrowLeft =>
          if playerX > (centre - 1) as real * 32.0 {
            playerX := playerX - PlayerStep;
          }
        case ArrowRight =>
          if playerX < centre as real * 32.0 {
            playerX := playerX + PlayerStep;
          }
        case _ =>
      }
    }
  }
}
