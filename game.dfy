/**
 * The single-sprite demo of src/components/Game.tsx: a player that climbs
 * half a pixel per frame while in the bottom six sprite heights of the
 * canvas, animated by a `SpriteSheet` cycling through frames 18 to 23 every
 * 100 ms. Drawing is not modelled.
 */
module SpriteDemo {
  import opened Wrappers
  import SpriteSheets

  /** The options the component gives its player sprite sheet. */
  const PlayerOptions := SpriteSheets.Options(
    "/src/assets/player.png", 32.0, 32.0, Some(1), Some(24), Some(100.0), Some(1.0),
    Some(18), Some(0.0), Some(32.0), Some(24))

  /** The player cycles through frames 18 to 23: k advances from the start show frame 18 + k mod 6. */
  lemma PlayerCycle(k: nat)
    ensures SpriteSheets.FrameAfter(18, 24, k) == 18 + k % 6
    ensures 18 <= SpriteSheets.FrameAfter(18, 24, k) < 24
  {
    SpriteSheets.FrameAfterCycles(18, 24, k);
  }

  class Demo {
    var playerX: real
    var playerY: real
    var playerId: real
    var canvasHeight: real
    const sheet: SpriteSheets.SpriteSheet

    /** The sheet is the player's: frames 18 to 23, 32 pixels high, 100 ms per frame. */
    predicate Valid()
      reads this, sheet
    {
      && sheet.initialFrame == 18 && sheet.lastFrame == 24
      && sheet.InCycle()
      && sheet.spriteHeight == 32.0 && sheet.spawnInterval == 100.0
    }

    /**
     * The player starts in the middle of the window, 200 pixels above its
     * bottom, with the clock reading as its id; the canvas takes the window's
     * height.
     */
    constructor(innerWidth: real, innerHeight: real, now: real)
      ensures Valid()
      ensures playerX == innerWidth / 2.0 && playerY == innerHeight - 200.0 && playerId == now
      ensures canvasHeight == innerHeight
      ensures sheet.currentFrame == 18 && sheet.lastFrameTime == 0.0
    {
      playerX := innerWidth / 2.0;
      playerY := innerHeight - 200.0;
      playerId := now;
      canvasHeight := innerHeight;
      sheet := new SpriteSheets.SpriteSheet(PlayerOptions);
    }

    /** `update(timestamp)`: climb while low on the canvas, then let the sprite clock tick. */
    method Update(timestamp: real)
      requires Valid()
      modifies this`playerY, sheet`currentFrame, sheet`lastFrameTime
      ensures Valid()
      ensures playerY == if old(playerY) > canvasHeight - 32.0 * 6.0 then old(playerY) - 0.5 else old(playerY)
      ensures old(timestamp - sheet.lastFrameTime > 100.0) ==>
        sheet.currentFrame == (if old(sheet.currentFrame) == 23 then 18 else old(sheet.currentFrame) + 1) && sheet.lastFrameTime == timestamp
      ensures old(timestamp - sheet.lastFrameTime <= 100.0) ==>
        sheet.currentFrame == old(sheet.currentFrame) && sheet.lastFrameTime == old(sheet.lastFrameTime)
    {
      if playerY > canvasHeight - sheet.spriteHeight * 6.0 {
        playerY := playerY - 0.5;
      }
      sheet.UpdateCurrentFrame(timestamp);
    }
  }
}
