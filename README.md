# react-canvas-game: the per-tick game rules in Dafny

This project models the game logic of a small browser arcade toy: three canvas
games and one sprite demo, together with the utilities they share.

- **Runner** (`src/components/Canvas.tsx`). A coin runner on a scrolling tile
  field. Coins and boxes fall along three lanes and trees fall beside the path.
  Each coin touching the runner that the collision pass visits is collected for
  score; the coin right after a collected one waits for the next frame. Boxes
  hold the runner back.
  The arrow keys move it one lane at a time.
- **EnemyRun** (`src/components/CanvasWithSprite.tsx`). An enemy-dodging game.
  Enemies fall along the path. Each one touching the player that the collision
  pass visits is removed and scores a point; the enemy right after a removed one
  waits for the next frame.
- **BallGames** (`src/components/BallGame.tsx`). A ball moved by the arrow keys
  among 75-pixel obstacles. Three interval callbacks drive it:
  - gravity, which lifts the obstacles and costs a life per obstacle that leaves;
  - spawn, which adds an obstacle and wins the game on an empty board;
  - collision, which removes every touched obstacle and scores one per removal.
- **SpriteDemo** (`src/components/Game.tsx`). A single player sprite that climbs
  and cycles its animation frames.
- **SpriteSheets**, **SheetInfo** and **Intersection**
  (`src/utils/createSpriteSheet.ts`, `src/utils/generateSpriteSheetInformations.ts`,
  `src/utils/intersects.ts`):
  - the sprite-frame clock class;
  - the sprite-sheet metadata record;
  - the circle/rectangle intersection test.
- **Entities** holds what the two canvas games share:
  - their entity records;
  - the `forEach` passes that move entities and `splice` them out of the array
    being iterated;
  - the collision pass that removes an entity found by position;
  - the arrow-key lane step.
- **JsMath** states the JavaScript arithmetic the games rely on. This covers
  truncating `%`, `Math.floor(Math.random() * n)`, `Math.abs` and `Math.max`.

How the model works:

- One frame of a game is one method call on a class holding the state that the
  component's closure keeps between frames. Arrays that the source changes in
  place are `seq` fields that the methods reassign.
- Every value `Math.random()` would have produced is passed in as a real draw in
  [0, 1).
- Window sizes and the clock are parameters.
- The rectangle test `intersectsRect` is imported by the canvas games but is not
  part of this model. It is a function parameter `overlaps`.
- The utilities' `randomIntFromInterval` is not part of this model either. Its
  result is the parameter `treeRightX`.
- Positions are exact reals.

Behaviours kept from the source:

- `forEach` plus `splice` skips the element after a removed one. The
  specification functions `FallAndCullFrom` and `CollectFrom` keep that, and the
  imperative passes are proved equal to them.

## Model

| member | source | states |
|---|---|---|
| JsMath.Abs | src/utils/intersects.ts:6-7 | `Math.abs` is non-negative and is x or -x |
| JsMath.Max | src/components/Canvas.tsx:501-504 | `Math.max` is at least both arguments and is one of them |
| JsMath.Rem | src/utils/createSpriteSheet.ts:55-57 | JavaScript `%` truncates: the result has the dividend's sign, is smaller than the divisor in magnitude, and equals Euclidean `%` for a non-negative dividend |
| JsMath.RemPairsWithQuot | src/utils/createSpriteSheet.ts:55-57 | a == n × trunc(a / n) + a % n for every dividend, and a negative dividend's remainder is the negated remainder of its absolute value |
| JsMath.RandomIndex | src/components/Canvas.tsx:60 | `Math.floor(Math.random() * n)` is a valid index below n |
| JsMath.ScaledDrawBelow | src/components/Canvas.tsx:145-157 | a draw scaled by a positive m lies in [0, m), as for `Math.random() * minXTree` and `Math.random() * n` |
| SheetInfo.GenerateKeepsParameters | src/utils/generateSpriteSheetInformations.ts:20-39 | every supplied field comes back unchanged, the image points at the URL, and totalFrames is cols times rows |
| SheetInfo.GenerateDefaults | src/utils/generateSpriteSheetInformations.ts:14-17 | omitted fields default to 0 columns, 0 rows, a 1000 ms interval and scale 1 |
| SheetInfo.FramesExistIffBothCounts | src/utils/generateSpriteSheetInformations.ts:14-36 | with non-negative counts, a sheet has frames exactly when both counts are given and positive, so a default sheet has none |
| SpriteSheets.NextFrame | src/utils/createSpriteSheet.ts:54-57 | from a frame in [initial, last), the next frame stays in range and is frame + 1, or wraps from last - 1 to initial |
| SpriteSheets.FrameAfterCycles | src/utils/createSpriteSheet.ts:54-57 | after k advances from the initial frame, the frame is initial + k mod (last - initial) |
| SpriteSheets.ModSuccessor | src/utils/createSpriteSheet.ts:57 | (m + 1) mod n is m mod n + 1, or 0 at the wrap |
| SpriteSheets.SpriteSheet.constructor | src/utils/createSpriteSheet.ts:16-48 | defaults are scale 1, interval 1000, frame 0, last frame time 0, speed 1, last frame 0 and 0 cols/rows; initialFrame is the supplied currentFrame |
| SpriteSheets.SpriteSheet.UpdateCurrentFrame | src/utils/createSpriteSheet.ts:50-61 | it advances cyclically and stamps the time only when strictly more than the interval has elapsed; otherwise nothing changes; it writes only currentFrame and lastFrameTime and keeps the frame in [initialFrame, lastFrame); it requires a non-empty range when it advances |
| Intersection.Intersects | src/utils/intersects.ts:5-14 | it rejects when the x-distance exceeds width/2 + r or the y-distance exceeds height/2 + r |
| Intersection.IntersectsIsGeometric | src/utils/intersects.ts:5-26 | for r >= 0, the test holds iff the rectangle point nearest the centre is within r, so the closed disc and the rectangle meet |
| Intersection.CornerRegion | src/utils/intersects.ts:23-25 | in the corner region, the result is dx² + dy² <= r², boundary included, in both directions |
| Intersection.CentreInside | src/utils/intersects.ts:16-21 | a centre inside the rectangle always intersects when r >= 0 |
| Intersection.EdgeContact | src/utils/intersects.ts:9-21 | distX == width/2 + r with distY <= height/2 counts as a hit |
| Intersection.MirrorInvariant | src/utils/intersects.ts:6-7 | mirroring the centre about either centre line of the rectangle leaves the result unchanged |
| Intersection.GapOfTenMisses | src/utils/intersects.ts:9-11 | a radius-5 circle at the origin misses a 10x10 square whose left side is at x = 10 |
| Intersection.Clamp | src/utils/intersects.ts:6-7 | the nearest point of an interval lies in it, and is the point itself when inside |
| Entities.Viewport | src/components/Canvas.tsx:63-68 | the canvas side is `Math.max(inner, 800)`: at least 800 and at least the window, and one of the two |
| Entities.WithY | src/components/Canvas.tsx:349 | moving an entity changes only its y and keeps its kind and animation speed |
| Entities.WithYTwice | src/components/Canvas.tsx:349 | two moves equal the last one |
| Entities.FallAndCullShrinks | src/components/Canvas.tsx:343-355 | the move-and-cull pass never lengthens the array |
| Entities.FallAndCullKeepsAboveLimit | src/components/Canvas.tsx:350-354 | if every entity is at or above the limit, every survivor is too |
| Entities.FallAndCullOnlyMovesDown | src/components/Canvas.tsx:349-354 | every survivor is an input entity moved down by a non-negative amount, with nothing else changed |
| Entities.FallAndCullKeeps | src/components/Canvas.tsx:343-355 | any property that holds of every input entity and ignores y holds of every survivor |
| Entities.FallAndCullWithoutCulling | src/components/Canvas.tsx:349 | when nothing passes the limit, every entity is moved by exactly `speed` and none is removed |
| Entities.FallAndCullKeepsPrefix | src/components/Canvas.tsx:343-355 | slots before the current forEach index are never touched |
| Entities.CulledEntitysSuccessorIsSkipped | src/components/Canvas.tsx:350-354 | after entity i is spliced out, its successor slides into slot i unmoved; splice inside forEach skips it |
| Entities.FallAndCullPass | src/components/Canvas.tsx:367-374 | the in-place forEach/splice loop computes exactly FallAndCull |
| Entities.AnimatedFallAndCullPass | src/components/CanvasWithSprite.tsx:179-191 | the loop computes FallAndCull and advances the shared frame clock by (f + 1) % total once, only when the list is non-empty and elapsed > animationSpeed |
| Entities.FirstAt | src/components/CanvasWithSprite.tsx:283-285 | `findIndex` by position gives -1 or the first index holding that position |
| Entities.CollectCountsRemovals | src/components/CanvasWithSprite.tsx:280-290 | the score callback fires exactly once per entity removed |
| Entities.CollectRemovesOnlyHits | src/components/CanvasWithSprite.tsx:280-290 | the survivors are a sub-multiset of the input, and every entity that does not hit keeps its multiplicity |
| Entities.CollectKeepsMembers | src/components/Canvas.tsx:536-546 | every survivor of the collision pass was in the input |
| Entities.CollectScoresSomeHit | src/components/CanvasWithSprite.tsx:280-290 | whenever some entity from the current index on hits, the pass scores at least once |
| Entities.CollectIsRemoveHitsSkippingNext | src/components/CanvasWithSprite.tsx:280-290 | on entities at distinct positions the pass equals the reference reading: each visited hit is removed and scores, and the entity after it is passed over unvisited |
| Entities.RemoveHitsShrinks | src/components/CanvasWithSprite.tsx:280-290 | the reference reading never lengthens the list |
| Entities.FirstHitIsRemoved | src/components/CanvasWithSprite.tsx:280-290 | in the reference reading the first hit is removed and scores, the entities before it stay, and its successor takes its slot |
| Entities.CollectRemovesFirstHit | src/components/Canvas.tsx:520-547 | on entities at distinct positions the collision pass removes the first entity that hits, keeps those before it, moves its successor into its slot, and scores |
| Entities.CollectPass | src/components/Canvas.tsx:520-547 | the in-place collision loop computes exactly Collect; removals plus score calls equal the input length; some hit means some score; with distinct positions it is the reference reading |
| Entities.InlineFrame | src/components/Canvas.tsx:500-506 | `Math.max((f + 1) % total, first)` on [first, total) is the sprite clock's cycle from first to total |
| Entities.LaneStepStaysInCorridor | src/components/Canvas.tsx:583-596 | a position within one step of the gates stays there after any key |
| Entities.LaneStepMoves | src/components/CanvasWithSprite.tsx:298-311 | ArrowLeft moves one step left iff x is right of the left gate; ArrowRight moves one step right iff x is left of the right gate; other keys change nothing |
| Runner.TileCount | src/components/Canvas.tsx:266-267 | an `Array.from` length of size/32 truncates to floor(size/32) |
| Runner.RandomArrayValue | src/components/Canvas.tsx:46-61 | the value drawn is one of the options |
| Runner.Tile | src/components/Canvas.tsx:327-335 | columns centre±1 and centre hold 32, columns centre±2 hold a code in 32..62, and all others hold 0, 20 or 30 |
| Runner.NewRow | src/components/Canvas.tsx:327-335 | a new row has one tile per column and the path shape around the centre |
| Runner.LeftCoinLaneAlwaysClear | src/components/Canvas.tsx:397-419 | no box in a box lane blocks the left coin lane, so the coin-lane rejection loop can always stop |
| Runner.CoinLaneBlockedByItsBox | src/components/Canvas.tsx:405-432 | the middle and right coin lanes are blocked iff a box sits in the middle and right box lane respectively |
| Runner.FirstClearLaneFindsClearLane | src/components/Canvas.tsx:396-421 | the lane found is a coin lane that no box blocks, and one is found iff some draw picks a clear lane |
| Runner.Collides | src/components/Canvas.tsx:404-418 | the scan with `break` reports a collision iff some box strictly spans x |
| Runner.ChooseCoinLane | src/components/Canvas.tsx:396-421 | the loop returns the first drawn lane that no box blocks |
| Runner.PickDistinctPicksDistinctOptions | src/components/Canvas.tsx:434-444 | the box lanes chosen are distinct options, extend the earlier choices, and never exceed the number wanted |
| Runner.TwoDistinctPicksSuffice | src/components/Canvas.tsx:436-444 | two draws that pick different lanes let the loop choose two lanes |
| Runner.ChooseBoxLanes | src/components/Canvas.tsx:428-444 | the nested for/while loop chooses two distinct box lanes, exactly those PickDistinct gives |
| Runner.HoldStaysNearMiddle | src/components/Canvas.tsx:550-576 | the box pass keeps the runner's y in any interval that contains [height/2 - 0.5, height/2] |
| Runner.HoldClimbsToMiddle | src/components/Canvas.tsx:566-575 | with no box touching, the runner climbs 0.5 per box until it reaches the middle line, and then stays within half a pixel of it |
| Runner.Rise | src/components/Canvas.tsx:487-489 | the runner climbs half a pixel exactly when it is below height - 8 × 32, and otherwise keeps its y |
| Runner.Player.constructor | src/components/Canvas.tsx:20-24 | the player starts at the given position, with the clock as its id |
| Runner.Player.UpdateY | src/components/Canvas.tsx:26-28 | only y changes, to the given value |
| Runner.Player.UpdateX | src/components/Canvas.tsx:30-32 | only x changes, to the given value |
| Runner.Game.constructor | src/components/Canvas.tsx:36-276 | start-up gives an 800x800-or-larger canvas, the field `Field` builds from the row draws (path around the centre), no coins or boxes, the two trees StartTrees gives for the draws, scroll distance 0, and every clock at 0 (coin frame 0, player frame 18, all four stamps 0); the player starts at (400, screen height/2) |
| Runner.StartTrees | src/components/Canvas.tsx:137-150 | the two start-up trees: the first at x = draw·(innerWidth - maxXTree) - maxXTree/2 and three tree heights above the bottom, the second at x = draw·minXTree (so in [0, minXTree) when minXTree > 0) and four heights above the bottom, each with a tree look drawn from the two options |
| Runner.Game.ScrollField | src/components/Canvas.tsx:283-340 | the distance grows by elapsed/1000 × 98; at one tile height the bottom row is popped, a new path row is unshifted and the distance drops by 32; the row count is unchanged |
| Runner.Game.AdvanceCoins | src/components/Canvas.tsx:343-365 | coins fall 1.64 and are culled below the canvas, never more than 10; the coin clock advances at most once |
| Runner.Game.AdvanceBoxes | src/components/Canvas.tsx:367-387 | boxes fall 1.64 and are culled 128 px below the canvas, staying in box lanes |
| Runner.Game.SpawnCoinAndBoxes | src/components/Canvas.tsx:392-453 | only when more than 800 ms have passed and fewer than 10 coins exist: one coin is added in a clear lane, plus two boxes in different lanes, and the time is stamped; the coin is NewCoin and the boxes NewBoxes of the draws; otherwise nothing changes |
| Runner.Game.AddCoin | src/components/Canvas.tsx:393-426 | exactly one coin is appended, at y = -24, in the first drawn clear lane |
| Runner.Game.AddBoxes | src/components/Canvas.tsx:428-451 | exactly two boxes are appended, at y = -124, in two distinct box lanes |
| Runner.Game.AdvanceTrees | src/components/Canvas.tsx:456-484 | trees fall 1.65 and are culled 256 px below the canvas; after more than 50 ms exactly one tree is prepended and the time is stamped |
| Runner.NewTree | src/components/Canvas.tsx:153-159 | the spawned tree is a tree (look from the two options), and on an odd count it lies in [0, minXTree) when minXTree > 0 |
| Runner.Game.SpawnTree | src/components/Canvas.tsx:153-197 | exactly one tree is put in front, one tree height above the canvas, right of the path for an even count and left of it for an odd count |
| Runner.Game.RisePlayer | src/components/Canvas.tsx:487-489 | the runner climbs 0.5 only while below height - 8 × 32 |
| Runner.Game.UpdatePlayerFrame | src/components/Canvas.tsx:500-506 | after more than 100 ms the frame cycles 18..23, wrapping 23 to 18; otherwise nothing changes |
| Runner.Game.CollectCoins | src/components/Canvas.tsx:520-547 | the coins become Collect's: each touching coin the pass visits is removed with one `setScore(1)`, the coin after a removed one waits for the next frame; some touching coin means some score; with distinct positions it is the reference reading |
| Runner.Game.HoldAtBoxes | src/components/Canvas.tsx:550-576 | the box loop sets the runner's y exactly as HoldFrom says |
| Runner.Game.AdvanceEntities | src/components/Canvas.tsx:343-484 | coins and boxes fall and are culled, a coin and two boxes spawn when due, and trees fall and spawn, in the source's order; the coin clock, the coin spawn stamp and the tree spawn stamp are given |
| Runner.Game.RunnerStep | src/components/Canvas.tsx:486-576 | the runner's half of a frame: y becomes Rise of the old y, `endGame` is called iff the risen runner is off the canvas, the player clock advances through 18..23 after > 100 ms, the coins and score calls are Collect's at the risen runner's 32×32 box, and y ends at HoldFrom over the boxes |
| Runner.Game.Animate | src/components/Canvas.tsx:279-580 | one frame in the source's order: the field scrolls, coins, boxes and trees fall and spawn, `endGame` is called iff the risen runner is off the canvas, the spawned coins pass through Collect at the risen runner with its score calls, the boxes then hold it as HoldFrom says; the scrolled distance, the tilemap, the trees, both spawn stamps and both frame clocks are given, the player keeps its x and id, and the invariant holds |
| Runner.Game.HandleKeyDown | src/components/Canvas.tsx:583-596 | ArrowLeft moves -32 only if x > (c-1)·32, ArrowRight moves +32 only if x < (c+1)·32, and other keys change nothing |
| EnemyRun.FieldTile | src/components/CanvasWithSprite.tsx:45-49 | a tile is path (32) iff its column is within 2 of the centre, and grass (37) otherwise |
| EnemyRun.EnemyLane | src/components/CanvasWithSprite.tsx:206-211 | a new enemy's x is one of the four listed positions, and odd indices give the second |
| EnemyRun.SecondLaneHalfTheDraws | src/components/CanvasWithSprite.tsx:206-211 | for centre ≠ 17, the second position is picked iff the index drawn is odd |
| EnemyRun.CentreSeventeenMergesLanes | src/components/CanvasWithSprite.tsx:207-209 | at centre 17 the third listed position equals the second |
| EnemyRun.Game.constructor | src/components/CanvasWithSprite.tsx:17-89 | start-up gives the field of whole tiles, each row floor(width/32) long, path tiles exactly within 2 of the centre column and grass everywhere else, two enemies at y 64, the player at 32·c - 1, frame 18 and every clock at 0 (both frame stamps and the enemy spawn stamp) |
| EnemyRun.Game.AdvanceEnemies | src/components/CanvasWithSprite.tsx:179-201 | enemies fall 2 and are culled below the canvas; the frame clock advances (f+1) % 8 at most once, only when elapsed > 100 |
| EnemyRun.Game.SpawnEnemy | src/components/CanvasWithSprite.tsx:203-216 | only after more than 500 ms with fewer than 10 enemies: exactly one enemy is appended at y = -96 and the time is stamped; otherwise nothing changes |
| EnemyRun.Game.UpdatePlayerFrame | src/components/CanvasWithSprite.tsx:243-250 | after more than 100 ms the frame cycles 18..23, wrapping 23 to 18 |
| EnemyRun.Game.HitEnemies | src/components/CanvasWithSprite.tsx:263-291 | the enemies become Collect's: each touching enemy the pass visits is removed with one `setScore`, the enemy after a removed one waits for the next frame; some touching enemy means some score; with distinct positions it is the reference reading |
| EnemyRun.Game.Animate | src/components/CanvasWithSprite.tsx:116-295 | one frame: the enemies fall and are culled, one spawns when due and stamps the spawn time, and the result passes through Collect with its score calls; both animation clocks advance as their step methods say; the invariant holds and the player never moves |
| EnemyRun.Game.HandleKeyDown | src/components/CanvasWithSprite.tsx:298-311 | ArrowLeft moves -38 only if x > (c-1)·32, ArrowRight moves +38 only if x < c·32, and the player stays in its corridor |
| BallGames.RandomIntFromInterval | src/components/BallGame.tsx:16-19 | for min <= max and a draw in [0, 1), the result is an integer in [min, max] |
| BallGames.RandomIntReachesEveryValue | src/components/BallGame.tsx:16-19 | every integer in [min, max] is produced by some draw |
| BallGames.KeyMove | src/components/BallGame.tsx:74-87 | exactly the four arrow keys give a move, and ArrowLeft, ArrowRight, ArrowUp and ArrowDown each give Left, Right, Up and Down respectively (both directions) |
| BallGames.Move | src/components/BallGame.tsx:37-71 | left/right change only x and up/down only y, by exactly 75, with left and up decreasing the coordinate and right and down increasing it |
| BallGames.MoveUndone | src/components/BallGame.tsx:37-71 | the opposite move undoes a move |
| BallGames.FilterKeeps | src/components/BallGame.tsx:95-99 | `filter` never lengthens the list and keeps exactly the elements that pass the test |
| BallGames.FilterAppend | src/components/BallGame.tsx:95-99 | `filter` of a concatenation is the concatenation of the filters, so kept elements stay in order |
| BallGames.FilterSubMultiset | src/components/BallGame.tsx:95-99 | `filter` keeps each element at most as often as the input holds it |
| BallGames.FilterIsPassingSubsequence | src/components/BallGame.tsx:95-99 | the filtered list is exactly the elements at the passing indices, in increasing index order, and every passing index is included |
| BallGames.FilterSplits | src/components/BallGame.tsx:95-99 | for two complementary tests, the kept and the dropped together number as many as the input |
| BallGames.Lowered | src/components/BallGame.tsx:89-94 | every obstacle's y drops by 10 × the list length, and x is unchanged |
| BallGames.GravityStepLosesOneLifePerDrop | src/components/BallGame.tsx:88-101 | one `updateLives` per dropped obstacle; survivors are on screen, each is a moved input, every obstacle still on screen survives, and the survivors keep their order (the j-th survivor is the j-th on-screen index, moved) |
| BallGames.SpawnXAsWrittenLeavesWindow | src/components/BallGame.tsx:105-110 | as written, both tests can pass with offset 0 while the x used is 300 px left of the window |
| BallGames.SpawnXAsWrittenStaysNear | src/components/BallGame.tsx:105-110 | as written, the new x is NaN exactly when the last x is (so on an empty list), and a finite one is in [300, 900] or within 300 of the last x |
| BallGames.SpawnStepAsWrittenWinsOnEmpty | src/components/BallGame.tsx:103-122 | as written, exactly one obstacle is appended at y = 3/4 of the height, `winGame` is called iff the list was empty, and then the new x is NaN |
| BallGames.SpawnX | src/components/BallGame.tsx:105-110 | with one offset, the new x is NaN exactly when the last x is NaN (in particular when the list is empty) |
| BallGames.SpawnXStaysInBounds | src/components/BallGame.tsx:105-110 | with one offset, a new x is in the window or in [300, 900], and is within 300 of the last x when it stays |
| BallGames.SpawnStepWinsOnEmpty | src/components/BallGame.tsx:103-122 | with one offset, exactly one obstacle is appended at y = 3/4 of the height, and `winGame` is called iff the list was empty |
| BallGames.TouchesIsCloseness | src/components/BallGame.tsx:140-145 | touching is a strict overlap of 75x75 squares (less than 75 apart on both axes); a NaN x never touches |
| BallGames.TouchesIsSymmetric | src/components/BallGame.tsx:140-145 | swapping the ball and an obstacle gives the same answer |
| BallGames.TouchedObstacles | src/components/BallGame.tsx:138-149 | the forEach collects exactly the touched obstacles, in order, with one `updateScore` each |
| BallGames.CollisionLeavesUntouched | src/components/BallGame.tsx:150-152 | filtering out the collected obstacles leaves exactly the untouched ones |
| BallGames.BallGame.constructor | src/components/BallGame.tsx:26-36 | the ball starts at (W - W/2 - 40, 400), with one obstacle at y 800 and x in [300, 900] |
| BallGames.BallGame.HandleKeyDown | src/components/BallGame.tsx:74-87 | an arrow key moves the ball by Move, and any other key does nothing |
| BallGames.BallGame.Gravity | src/components/BallGame.tsx:88-101 | the obstacles become GravityStep's, every survivor is on screen, and lives lost plus survivors equal the old count |
| BallGames.BallGame.Spawn | src/components/BallGame.tsx:103-122 | the obstacles become SpawnStepAsWritten's (two offsets tested, a third used) and every obstacle stays on screen |
| BallGames.BallGame.CheckCollision | src/components/BallGame.tsx:137-153 | the obstacles become the untouched ones, and score calls plus survivors equal the old count |
| SpriteDemo.PlayerCycle | src/components/Game.tsx:20-32 | with frames 18..24 the player shows frame 18 + k mod 6 after k advances |
| SpriteDemo.Demo.constructor | src/components/Game.tsx:12-69 | the player starts at (W/2, H - 200) with the clock as id; the sheet starts at frame 18 with an empty clock |
| SpriteDemo.Demo.Update | src/components/Game.tsx:34-44 | y drops by exactly 0.5 iff y > height - 6 × 32, x never changes, and the sheet clock is fed the timestamp |

## Left out

- Drawing and asset loading are not modelled: `ctx.drawImage`, `clearRect`, `drawSprite`, `SpriteSheet.draw`, the `Promise.all` load gate and the walls drawn beside the path.
- Scheduling is not modelled: `requestAnimationFrame`, `setInterval` and their cancellation. One tick is one method call.
- BallGame runs three independent intervals whose interleaving is not modelled. Its stale React closures are not modelled either: `CheckCollision` uses the current ball and obstacles.
- React hooks, state setters and event-listener registration are reduced to their updater bodies. The BallGame mousedown handler only prevents the default action and is left out.
- `console.log` is left out.
- `intersectsRect` is imported from `src/utils/intersects.ts` but is not part of this model. It is the parameter `overlaps`, with no semantics assumed.
- The utilities' `randomIntFromInterval`, used by `spawnTree`, is not part of this model. Its result is the parameter `treeRightX`.
- `Math.random()` and `Date.now()` are parameters.
  - `TickDraws` groups one frame's draws into one stream per purpose.
  - The interleaving of draws across purposes is not modelled.
- Runner.Game.AddCoin: the coin-lane rejection loop can in principle draw forever. The model requires the draws to include a pick of the left lane, which `LeftCoinLaneAlwaysClear` shows is always clear. The loop therefore ends on the draws given.
- Runner.Game.AddBoxes: the box-lane loop requires the draws to include two different lanes. Here too, only loops that end are modelled.
- Runner.Game.AddBoxes: the source interleaves choosing the second lane with pushing the first box. The model chooses both lanes first, then pushes both boxes. The outcome is the same because the box-look draws are independent.
- The `while (!safeToSpawn)` loop in `spawnTree` never runs, because the flag starts true. Its body is left out, and `SpawnTree` always adds a tree.
- Floating-point rounding is not modelled; positions and times are exact reals.
  - In the source, 0.5 × 601 - 300 rounds exactly as in the reals, and the findings row depends on that.
  - The BallGame `NaN` x of a spawn on an empty list is modelled explicitly, as `Num.NaN`.
- SpriteSheets.SpriteSheet.UpdateCurrentFrame requires a non-empty frame range whenever it advances. The source would compute `% 0` and store `NaN`, which the model does not represent.
- BallGames.BallGame.CheckCollision removes obstacles by value equality, where the source's `includes` compares object references. Two obstacles with identical coordinates get the same `Touches` answer, so filtering the list that was scanned gives the same result either way; object identity itself is not modelled.
- SpriteDemo.Demo: the canvas height is the window height set in `useEffect`. The React element's default height before that is not modelled.
- EnemyRun: the player scale 1.5 only affects drawing, since collisions use the unscaled 32x32 box. It is left out.
- Entities.CollectPass, Runner.Game.CollectCoins, EnemyRun.Game.HitEnemies: the equality with the reference reading `RemoveHitsSkippingNext` is stated only for entities at distinct positions. When two entities share a position, `findIndex` removes the earlier one; `Collect` models that, the reference reading does not.
- BallGames.BallGame: the class no longer promises that every obstacle's x lies in the window or in [300, 900]. The spawn as written can place one outside both (see the Findings). The invariant it keeps is that every obstacle is on screen.
- BallGames.BallGame.constructor: requires a non-negative window height, which a browser window always has. The on-screen invariant depends on it.
- Intersection: a circle of radius 5 at the origin and a 10x10 rectangle whose left side is at x = 10 do not intersect under the code (`GapOfTenMisses`). The model follows the code.
- `src/components/EndGameText.tsx`, `src/App.tsx`, `src/utils/index.ts` and `src/utils/createInstance.ts` are UI, wiring, storage I/O or a singleton helper with no game logic, and are left out.

## Findings

| source | as written | input that shows it | evidently intended | confidence | as-written member | corrected member |
|---|---|---|---|---|---|---|
| src/components/BallGame.tsx:105-110 | The right and left bounds are tested with two separately drawn offsets, and the x used adds a third independent offset. | last x = 0 and window width 1000, with draws 0.5, 0.5, 0.0 (offsets 0, 0, -300): both tests pass and x = -300, outside the window | draw one offset, test it, and use it | not executed; medium | BallGames.SpawnXAsWrittenLeavesWindow | BallGames.SpawnXStaysInBounds |
