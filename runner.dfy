/**
 * The coin-runner game of src/components/Canvas.tsx: a field of tiles that
 * scrolls down under a runner, coins and box obstacles that fall along three
 * lanes, trees that fall beside the path, coins collected for score, boxes
 * that hold the runner back, and arrow keys that move the runner between
 * lanes. One call of `Runner.Animate` is one `animate(timestamp)` frame with
 * its drawing left out; the values `Math.random()` would have produced are
 * passed in as draws.
 */
module Runner {
  import opened Wrappers
  import JsMath
  import SheetInfo
  import SpriteSheets
  import opened Intersection
  import opened Entities

  /** The five sprite sheets, as the component asks for them at start-up. */
  const FieldSheet := SheetInfo.Generate(SheetInfo.Params("/src/assets/field.png", 32.0, 32.0, Some(8), None, None, None))
  const BoxSheet := SheetInfo.Generate(SheetInfo.Params("/src/assets/props.png", 32.0, 32.0, Some(8), None, None, None))
  const TreeSheet := SheetInfo.Generate(SheetInfo.Params("/src/assets/assets.png", 140.0, 160.0, None, None, Some(50.0), None))
  const PlayerSheet := SheetInfo.Generate(SheetInfo.Params("/src/assets/player.png", 32.0, 32.0, Some(1), Some(24), Some(100.0), Some(1.0)))
  const CoinSheet := SheetInfo.Generate(SheetInfo.Params("/src/assets/coin.png", 16.0, 16.0, Some(1), Some(8), None, Some(1.25)))

  /** Grass tiles drawn outside the path (0 is "no tile"). */
  const GrassTiles: seq<int> := [0, 0, 0, 20, 30, 0, 0, 0]
  /** `Array.from({ length: 31 }, (_, i) => i + 32)`: the 31 path-edge tiles. */
  const PathEdgeTiles: seq<int> := [32, 33, 34, 35, 36, 37, 38, 39, 40, 41, 42, 43, 44, 45, 46, 47, 48, 49, 50, 51, 52, 53, 54, 55, 56, 57, 58, 59, 60, 61, 62]
  /** The plain path tile. */
  const PathTile := 32
  /** Source x offsets of the two tree looks, and the one box look. */
  const TreeLooks: seq<int> := [0, 128 + 12]
  const BoxLooks: seq<int> := [0]

  const ScrollSpeed := 98.0
  const FallSpeed := 1.64
  const TreeSpeed := 1.65
  const CoinAddInterval := 800.0
  const MaxCoins := 10
  const CoinAnimationSpeed := 100.0
  const PlayerStep := 32.0
  const FirstRunFrame := 18

  /** `Array.from({ length: size / 32 })`: a fractional length is truncated. */
  function TileCount(size: real): (n: nat)
    requires size >= 0.0
    ensures n as real <= size / 32.0 < n as real + 1.0
  {
    (size / 32.0).Floor
  }

  predicate DrawsOk(draws: seq<real>) {
    forall k | 0 <= k < |draws| :: 0.0 <= draws[k] < 1.0
  }

  /** `getRandomArrayValue`: one of the options, picked by a draw. */
  function RandomArrayValue(options: seq<int>, r: real): (v: int)
    requires |options| > 0 && 0.0 <= r < 1.0
    ensures v in options
  {
    options[JsMath.RandomIndex(r, |options|)]
  }

  /*
   * The field. Column i of a freshly generated row is the plain path tile in
   * the three centre columns, a random path-edge tile in the two columns beside
   * them, and a random grass tile everywhere else.
   */

  /** What every row of the field looks like around the centre column. */
  predicate PathRow(row: seq<int>, centre: int) {
    forall i | 0 <= i < |row| ::
      && (centre - 1 <= i <= centre + 1 ==> row[i] == PathTile)
      && (i == centre - 2 || i == centre + 2 ==> 32 <= row[i] <= 62)
      && (i < centre - 2 || i > centre + 2 ==> row[i] == 0 || row[i] == 20 || row[i] == 30)
  }

  function Tile(i: int, centre: int, r: real): (t: int)
    requires 0.0 <= r < 1.0
    ensures centre - 1 <= i <= centre + 1 ==> t == PathTile
    ensures i == centre - 2 || i == centre + 2 ==> 32 <= t <= 62
    ensures i < centre - 2 || i > centre + 2 ==> t == 0 || t == 20 || t == 30
  {
    if i >= centre - 2 && i <= centre + 2 then
      if i >= centre - 1 && i <= centre + 1 then PathTile
      else PathEdgeTiles[JsMath.RandomIndex(r, 31)]
    else RandomArrayValue(GrassTiles, r)
  }

  /** A new row, one draw per column. */
  function NewRow(draws: seq<real>, centre: int): (row: seq<int>)
    requires DrawsOk(draws)
    ensures |row| == |draws|
    ensures PathRow(row, centre)
  {
    seq(|draws|, i requires 0 <= i < |draws| => Tile(i, centre, draws[i]))
  }

  /** The start-up field: one new row per list of draws. */
  function Field(rowDraws: seq<seq<real>>, centre: int): (field: seq<seq<int>>)
    requires forall r | 0 <= r < |rowDraws| :: DrawsOk(rowDraws[r])
    ensures |field| == |rowDraws|
    ensures forall r | 0 <= r < |field| :: |field[r]| == |rowDraws[r]| && PathRow(field[r], centre)
  {
    seq(|rowDraws|, r requires 0 <= r < |rowDraws| => NewRow(rowDraws[r], centre))
  }

  /**
   * The two trees on the field at start-up: one at a drawn x left of the
   * path's right edge, three tree heights above the bottom, and one at a
   * drawn x left of the path, four tree heights above the bottom.
   */
  function StartTrees(innerWidth: real, height: real, minXTree: real, maxXTree: real,
                      xDraws: (real, real), lookDraws: (real, real)): (ts: seq<Entity>)
    requires 0.0 <= xDraws.0 < 1.0 && 0.0 <= xDraws.1 < 1.0
    requires 0.0 <= lookDraws.0 < 1.0 && 0.0 <= lookDraws.1 < 1.0
    ensures |ts| == 2 && IsTree(ts[0]) && IsTree(ts[1])
    ensures ts[0].x == xDraws.0 * (innerWidth - maxXTree) - maxXTree / 2.0
    ensures ts[1].x == xDraws.1 * minXTree
    ensures 0.0 <= ts[1].x < minXTree || minXTree <= 0.0
    ensures ts[0].y == height - 3.0 * TreeSheet.spriteHeight && ts[1].y == height - 4.0 * TreeSheet.spriteHeight
    ensures ts[0].sx == RandomArrayValue(TreeLooks, lookDraws.0) && ts[1].sx == RandomArrayValue(TreeLooks, lookDraws.1)
  {
    JsMath.ScaledDrawBelow(xDraws.1, minXTree);
    [Tree(xDraws.0 * (innerWidth - maxXTree) - maxXTree / 2.0, height - 3.0 * TreeSheet.spriteHeight,
          RandomArrayValue(TreeLooks, lookDraws.0), 0),
     Tree(xDraws.1 * minXTree, height - 4.0 * TreeSheet.spriteHeight,
          RandomArrayValue(TreeLooks, lookDraws.1), 0)]
  }

  /** `tilemap.pop()`: drop the bottom row, if any. */
  function Pop<T>(s: seq<T>): seq<T> {
    if |s| == 0 then s else s[..|s| - 1]
  }

  /*
   * Lanes. Coins fall at the x positions of `CoinLanes`, boxes at those of
   * `BoxLanes`; a coin lane is free when no box's span (x, x + 32) strictly
   * contains it.
   */

  function CoinLanes(centre: int): seq<real> {
    [(centre - 1) as real * 32.0, (centre as real + 0.25) * 32.0, (centre as real + 1.5) * 32.0]
  }

  function BoxLanes(centre: int): seq<real> {
    [(centre - 1) as real * 32.0, centre as real * 32.0, (centre + 1) as real * 32.0]
  }

  predicate Blocks(box: Entity, x: real) {
    x > box.x && x < box.x + BoxSheet.spriteWidth
  }

  predicate LaneClear(boxes: seq<Entity>, x: real) {
    forall b | b in boxes :: !Blocks(b, x)
  }

  /** What every coin, box and tree of the game is. */
  predicate IsCoin(e: Entity, centre: int) {
    e.Coin? && e.animationSpeed == CoinAnimationSpeed && e.x in CoinLanes(centre)
  }

  predicate IsBox(e: Entity, centre: int) {
    e.Obstacle? && e.x in BoxLanes(centre) && e.sy in BoxLooks
  }

  predicate IsTree(e: Entity) {
    e.Tree? && e.sx in TreeLooks && e.sy == 0
  }

  /** The left coin lane sits exactly on a box lane's left edge, so no box in a box lane blocks it. */
  lemma LeftCoinLaneAlwaysClear(boxes: seq<Entity>, centre: int)
    requires forall b | b in boxes :: IsBox(b, centre)
    ensures LaneClear(boxes, CoinLanes(centre)[0])
  {
    forall b | b in boxes ensures !Blocks(b, CoinLanes(centre)[0]) {
      assert IsBox(b, centre);
    }
  }

  /** The middle and right coin lanes are blocked exactly by a box in the middle and right box lanes. */
  lemma {:induction false} CoinLaneBlockedByItsBox(boxes: seq<Entity>, centre: int, lane: nat)
    requires forall b | b in boxes :: IsBox(b, centre)
    requires 1 <= lane <= 2
    ensures !LaneClear(boxes, CoinLanes(centre)[lane]) <==> exists b | b in boxes :: b.x == BoxLanes(centre)[lane]
  {
    var x := CoinLanes(centre)[lane];
    if !LaneClear(boxes, x) {
      var b :| b in boxes && Blocks(b, x);
      assert IsBox(b, centre);
      assert b.x == BoxLanes(centre)[lane];
    }
    if exists b | b in boxes :: b.x == BoxLanes(centre)[lane] {
      var b :| b in boxes && b.x == BoxLanes(centre)[lane];
      assert Blocks(b, x);
    }
  }

  /**
   * The coin-lane rejection loop: the first drawn lane that is clear, or None
   * if the draws run out first.
   */
  function FirstClearLane(boxes: seq<Entity>, lanes: seq<real>, draws: seq<real>): Option<real>
    requires |lanes| > 0 && DrawsOk(draws)
  {
    if draws == [] then None
    else
      var x := lanes[JsMath.RandomIndex(draws[0], |lanes|)];
      if LaneClear(boxes, x) then Some(x) else FirstClearLane(boxes, lanes, draws[1..])
  }

  /** The lane found is one of the lanes and is clear; one is found whenever some draw picks a clear lane. */
  lemma {:induction false} FirstClearLaneFindsClearLane(boxes: seq<Entity>, lanes: seq<real>, draws: seq<real>)
    requires |lanes| > 0 && DrawsOk(draws)
    ensures var found := FirstClearLane(boxes, lanes, draws);
      && (found.Some? ==> found.value in lanes && LaneClear(boxes, found.value))
      && (found.Some? <==> exists k | 0 <= k < |draws| :: LaneClear(boxes, lanes[JsMath.RandomIndex(draws[k], |lanes|)]))
  {
    if draws != [] {
      FirstClearLaneFindsClearLane(boxes, lanes, draws[1..]);
      var pick := (k: int) requires 0 <= k < |draws| => lanes[JsMath.RandomIndex(draws[k], |lanes|)];
      if exists k | 0 <= k < |draws| :: LaneClear(boxes, pick(k)) {
        var k :| 0 <= k < |draws| && LaneClear(boxes, pick(k));
        if k > 0 {
          assert draws[1..][k - 1] == draws[k];
        }
      }
      if exists k | 0 <= k < |draws| - 1 :: LaneClear(boxes, lanes[JsMath.RandomIndex(draws[1..][k], |lanes|)]) {
        var k :| 0 <= k < |draws| - 1 && LaneClear(boxes, lanes[JsMath.RandomIndex(draws[1..][k], |lanes|)]);
        assert draws[1..][k] == draws[k + 1];
      }
    }
  }

  /** The inner `for (const obstacle of obstacles)` scan with its `break`: is x blocked by some box? */
  method Collides(boxes: seq<Entity>, x: real) returns (colliding: bool)
    ensures colliding <==> !LaneClear(boxes, x)
  {
    colliding := false;
    var k := 0;
    while k < |boxes|
      invariant 0 <= k <= |boxes|
      invariant !colliding
      invariant forall j | 0 <= j < k :: !Blocks(boxes[j], x)
    {
      if x > boxes[k].x && x < boxes[k].x + BoxSheet.spriteWidth {
        assert boxes[k] in boxes && Blocks(boxes[k], x);
        colliding := true;
        break;
      }
      k := k + 1;
    }
  }

  /**
   * The new coin's x: draw a lane, and draw again while some box blocks it.
   * The source keeps drawing until a lane is clear; the draws given must hold
   * one such lane.
   */
  method ChooseCoinLane(boxes: seq<Entity>, centre: int, draws: seq<real>) returns (x: real)
    requires DrawsOk(draws)
    requires exists k | 0 <= k < |draws| :: LaneClear(boxes, CoinLanes(centre)[JsMath.RandomIndex(draws[k], 3)])
    ensures FirstClearLane(boxes, CoinLanes(centre), draws) == Some(x)
    ensures x in CoinLanes(centre) && LaneClear(boxes, x)
  {
    var lanes := CoinLanes(centre);
    FirstClearLaneFindsClearLane(boxes, lanes, draws);
    var k := 0;
    x := lanes[JsMath.RandomIndex(draws[0], 3)];
    var isColliding := true;
    while isColliding
      invariant 0 <= k < |draws|
      invariant x == lanes[JsMath.RandomIndex(draws[k], 3)]
      invariant isColliding ==> FirstClearLane(boxes, lanes, draws[k..]) == FirstClearLane(boxes, lanes, draws)
      invariant !isColliding ==> FirstClearLane(boxes, lanes, draws) == Some(x)
      decreases |draws| - k, if isColliding then 1 else 0
    {
      assert draws[k..][0] == draws[k];
      isColliding := false;
      var blocked := Collides(boxes, x);
      if blocked {
        assert draws[k..][1..] == draws[k + 1..];
        FirstClearLaneFindsClearLane(boxes, lanes, draws[k + 1..]);
        isColliding := true;
        k := k + 1;
        x := lanes[JsMath.RandomIndex(draws[k], 3)];
      }
    }
    FirstClearLaneFindsClearLane(boxes, lanes, draws);
  }

  /**
   * The box-lane loop: draw lanes, keeping each lane not yet chosen, until
   * `want` distinct lanes are chosen or the draws run out.
   */
  function PickDistinct(options: seq<real>, draws: seq<real>, chosen: seq<real>, want: nat): seq<real>
    requires |options| > 0 && DrawsOk(draws)
  {
    if |chosen| >= want || draws == [] then chosen
    else
      var x := options[JsMath.RandomIndex(draws[0], |options|)];
      PickDistinct(options, draws[1..], if x in chosen then chosen else chosen + [x], want)
  }

  predicate Distinct(s: seq<real>) {
    forall i, j | 0 <= i < j < |s| :: s[i] != s[j]
  }

  /** The lanes picked are distinct options, extend what was chosen, and never number more than wanted. */
  lemma {:induction false} PickDistinctPicksDistinctOptions(options: seq<real>, draws: seq<real>, chosen: seq<real>, want: nat)
    requires |options| > 0 && DrawsOk(draws)
    requires Distinct(chosen) && (forall x | x in chosen :: x in options)
    requires |chosen| <= want
    ensures var r := PickDistinct(options, draws, chosen, want);
      && Distinct(r) && (forall x | x in r :: x in options)
      && |chosen| <= |r| <= want && r[..|chosen|] == chosen
    decreases |draws|
  {
    if |chosen| < want && draws != [] {
      var x := options[JsMath.RandomIndex(draws[0], |options|)];
      var next := if x in chosen then chosen else chosen + [x];
      PickDistinctPicksDistinctOptions(options, draws[1..], next, want);
      var r := PickDistinct(options, draws, chosen, want);
      assert r[..|next|] == next;
      assert r[..|chosen|] == next[..|chosen|];
    }
  }

  /** Two draws that pick different lanes are enough to finish the loop for two boxes. */
  lemma {:induction false} TwoDistinctPicksSuffice(options: seq<real>, draws: seq<real>, chosen: seq<real>)
    requires |options| > 0 && DrawsOk(draws)
    requires |chosen| <= 2
    requires |chosen| == 1 ==> exists k | 0 <= k < |draws| :: options[JsMath.RandomIndex(draws[k], |options|)] != chosen[0]
    requires |chosen| == 0 ==> exists j, k | 0 <= j < k < |draws| ::
      options[JsMath.RandomIndex(draws[j], |options|)] != options[JsMath.RandomIndex(draws[k], |options|)]
    ensures |PickDistinct(options, draws, chosen, 2)| == 2
    decreases |draws|
  {
    if |chosen| < 2 {
      var x := options[JsMath.RandomIndex(draws[0], |options|)];
      var next := if x in chosen then chosen else chosen + [x];
      var rest := draws[1..];
      if |chosen| == 0 {
        var j, k :| 0 <= j < k < |draws| &&
          options[JsMath.RandomIndex(draws[j], |options|)] != options[JsMath.RandomIndex(draws[k], |options|)];
        if options[JsMath.RandomIndex(draws[k], |options|)] != x {
          assert rest[k - 1] == draws[k];
        } else {
          assert rest[j - 1] == draws[j];
        }
      } else if x in chosen {
        var k :| 0 <= k < |draws| && options[JsMath.RandomIndex(draws[k], |options|)] != chosen[0];
        assert rest[k - 1] == draws[k];
      }
      TwoDistinctPicksSuffice(options, rest, next);
    }
  }

  /**
   * The two box lanes of one spawn: `for (i = 0; i < 2; i++)` a `while` loop
   * that draws until it finds a lane not yet used. The draws given must hold
   * two different lanes.
   */
  method ChooseBoxLanes(centre: int, draws: seq<real>) returns (chosen: seq<real>)
    requires DrawsOk(draws)
    requires |PickDistinct(BoxLanes(centre), draws, [], 2)| == 2
    ensures chosen == PickDistinct(BoxLanes(centre), draws, [], 2)
    ensures |chosen| == 2 && chosen[0] != chosen[1] && chosen[0] in BoxLanes(centre) && chosen[1] in BoxLanes(centre)
  {
    var options := BoxLanes(centre);
    chosen := [];
    var k := 0;
    for i := 0 to 2
      invariant 0 <= k <= |draws|
      invariant |chosen| == i
      invariant Distinct(chosen) && forall x | x in chosen :: x in options
      invariant PickDistinct(options, draws[k..], chosen, 2) == PickDistinct(options, draws, [], 2)
    {
      var isValid := false;
      while !isValid
        invariant 0 <= k <= |draws|
        invariant |chosen| == if isValid then i + 1 else i
        invariant Distinct(chosen) && forall x | x in chosen :: x in options
        invariant PickDistinct(options, draws[k..], chosen, 2) == PickDistinct(options, draws, [], 2)
        decreases |draws| - k, if isValid then 0 else 1
      {
        PickDistinctPicksDistinctOptions(options, draws[k..], chosen, 2);
        assert draws[k..][0] == draws[k];
        assert draws[k..][1..] == draws[k + 1..];
        var x := options[JsMath.RandomIndex(draws[k], 3)];
        k := k + 1;
        if x !in chosen {
          chosen := chosen + [x];
          isValid := true;
        }
      }
    }
    assert draws[k..][..0] == [];
    PickDistinctPicksDistinctOptions(options, draws, [], 2);
  }

  /*
   * The runner's vertical position. Each tick it climbs half a pixel while it
   * is in the bottom 256 pixels; then every box, one after the other, either
   * holds it where it is (the box overlaps its body) or lets it climb another
   * half pixel, snapping it to the middle of the canvas once it is there.
   */

  /** The runner's body for the box test: the middle half of its sprite. */
  function BodyRect(x: real, y: real): Rect {
    Rect(x + (PlayerSheet.spriteWidth - PlayerSheet.spriteWidth / 2.0) / 2.0, y,
         PlayerSheet.spriteWidth / 2.0, PlayerSheet.spriteHeight * PlayerSheet.scale)
  }

  function BoxRect(b: Entity): Rect {
    Rect(b.x, b.y, BoxSheet.spriteWidth, BoxSheet.spriteWidth)
  }

  /** One box's effect on the runner's y. */
  function HoldStep(overlaps: (Rect, Rect) -> bool, b: Entity, x: real, y: real, height: real): real {
    if overlaps(BodyRect(x, y), BoxRect(b)) then y
    else if y > height / 2.0 then y - 0.5
    else height / 2.0
  }

  /** The runner's y after boxes[i..] have had their effect. */
  function HoldFrom(overlaps: (Rect, Rect) -> bool, boxes: seq<Entity>, i: nat, x: real, y: real, height: real): real
    decreases |boxes| - i
  {
    if i >= |boxes| then y
    else HoldFrom(overlaps, boxes, i + 1, x, HoldStep(overlaps, boxes[i], x, y, height), height)
  }

  /**
   * The boxes never push the runner down, except onto the middle line, and
   * never let it climb more than half a pixel past that line.
   */
  lemma {:induction false} HoldStaysNearMiddle(overlaps: (Rect, Rect) -> bool, boxes: seq<Entity>, i: nat, x: real, y: real, height: real, lo: real, hi: real)
    requires lo <= height / 2.0 - 0.5 && height / 2.0 <= hi
    requires lo <= y <= hi
    ensures lo <= HoldFrom(overlaps, boxes, i, x, y, height) <= hi
    decreases |boxes| - i
  {
    if i < |boxes| {
      HoldStaysNearMiddle(overlaps, boxes, i + 1, x, HoldStep(overlaps, boxes[i], x, y, height), height, lo, hi);
    }
  }

  /** With no box touching it, the runner climbs half a pixel per box until it reaches the middle line. */
  lemma {:induction false} HoldClimbsToMiddle(overlaps: (Rect, Rect) -> bool, boxes: seq<Entity>, i: nat, x: real, y: real, height: real)
    requires i <= |boxes|
    requires forall y' :: forall b | b in boxes :: !overlaps(BodyRect(x, y'), BoxRect(b))
    requires y >= height / 2.0
    ensures var n := (|boxes| - i) as real;
      var y' := HoldFrom(overlaps, boxes, i, x, y, height);
      if n == 0.0 || y - 0.5 * (n - 1.0) > height / 2.0 then y' == y - 0.5 * n
      else height / 2.0 - 0.5 <= y' <= height / 2.0
    decreases |boxes| - i
  {
    if i < |boxes| {
      var y1 := HoldStep(overlaps, boxes[i], x, y, height);
      assert !overlaps(BodyRect(x, y), BoxRect(boxes[i]));
      if y > height / 2.0 && y1 >= height / 2.0 {
        HoldClimbsToMiddle(overlaps, boxes, i + 1, x, y1, height);
      } else {
        HoldStaysNearMiddle(overlaps, boxes, i + 1, x, y1, height, height / 2.0 - 0.5, height / 2.0);
      }
    }
  }

  /*
   * What one frame adds and where the runner ends up, as values, so that a
   * whole frame can be stated in one contract.
   */

  /** The runner's height after the frame's climb: half a pixel up while in the bottom eight sprite heights. */
  function Rise(y: real, height: real): (y': real)
    ensures y' == y || y' == y - 0.5
    ensures y' < y <==> y > height - PlayerSheet.spriteHeight * 8.0
  {
    if y > height - PlayerSheet.spriteHeight * 8.0 then y - 0.5 else y
  }

  /** The coin test for a runner at (x, y): its whole scaled sprite against a coin's scaled sprite. */
  function CoinBoxAt(overlaps: (Rect, Rect) -> bool, x: real, y: real): HitBox {
    HitBox(overlaps, Rect(x, y, PlayerSheet.spriteWidth * PlayerSheet.scale, PlayerSheet.spriteHeight * PlayerSheet.scale),
           CoinSheet.spriteWidth * CoinSheet.scale, CoinSheet.spriteHeight * CoinSheet.scale)
  }

  /** The coin a spawn adds: on top of the first drawn lane no box blocks. */
  function NewCoin(boxes: seq<Entity>, centre: int, draws: seq<real>): Entity
    requires DrawsOk(draws)
  {
    Coin(FirstClearLane(boxes, CoinLanes(centre), draws).GetOr(CoinLanes(centre)[0]), -CoinSheet.spriteHeight * 1.5, CoinAnimationSpeed)
  }

  /** The boxes a spawn adds: one per lane picked, 100 pixels above the new coin. */
  function NewBoxes(centre: int, draws: seq<real>): seq<Entity>
    requires DrawsOk(draws)
  {
    var lanes := PickDistinct(BoxLanes(centre), draws, [], 2);
    seq(|lanes|, k requires 0 <= k < |lanes| => Obstacle(lanes[k], -CoinSheet.spriteHeight * 1.5 - 100.0, 0))
  }

  /**
   * The tree a spawn adds, one tree height above the canvas: right of the path
   * (at `rightX`) when the number of trees is even, left of it when odd.
   */
  function NewTree(count: nat, rightX: real, leftDraw: real, lookDraw: real, minXTree: real): (t: Entity)
    requires 0.0 <= leftDraw < 1.0 && 0.0 <= lookDraw < 1.0
    ensures IsTree(t)
    ensures count % 2 == 1 && minXTree > 0.0 ==> 0.0 <= t.x < minXTree
  {
    JsMath.ScaledDrawBelow(leftDraw, minXTree);
    Tree(if count % 2 == 0 then rightX else leftDraw * minXTree, -TreeSheet.spriteHeight, RandomArrayValue(TreeLooks, lookDraw), 0)
  }

  /** The player object of Canvas.tsx. */
  class Player {
    var x: real
    var y: real
    var id: real

    /** `new Player(x, y)`; the id is the clock reading `Date.now()`. */
    constructor(x0: real, y0: real, now: real)
      ensures x == x0 && y == y0 && id == now
    {
      x := x0;
      y := y0;
      id := now;
    }

    method UpdateY(y': real)
      modifies this`y
      ensures y == y'
    {
      y := y';
    }

    method UpdateX(x': real)
      modifies this`x
      ensures x == x'
    {
      x := x';
    }
  }

  /** The random draws one frame consumes; `treeRightX` is what `randomIntFromInterval` returned. */
  datatype TickDraws = TickDraws(
    row: seq<real>,
    coinLane: seq<real>,
    boxLanes: seq<real>,
    boxLooks: seq<real>,
    treeRightX: real,
    treeLeft: real,
    treeLook: real)

  /** The state the `useEffect` closure of Canvas.tsx keeps between frames. */
  class Game {
    const width: real
    const height: real
    const rowLength: nat
    const rowCount: nat
    const centre: int
    const minXTree: real
    const maxXTree: real
    const player: Player

    var lastTimestamp: real
    var accumulatedDistance: real
    var tilemap: seq<seq<int>>
    var coins: seq<Entity>
    var coinCurrentFrame: int
    var lastCoinFrameTime: real
    var lastCoinAddTime: real
    var boxes: seq<Entity>
    var trees: seq<Entity>
    var lastTreeSpawnTime: real
    var playerCurrentFrame: int
    var lastPlayerFrameTime: real

    /**
     * What holds between frames: the field keeps its size and its path, at most
     * ten coins fall, every coin is in a coin lane and every box in a box lane,
     * and both animation clocks show a frame of their cycle.
     */
    predicate Valid()
      reads this
    {
      && width >= 800.0 && height >= 800.0
      && rowLength == TileCount(width) && rowCount == TileCount(height)
      && centre == (width / 32.0 / 2.0).Floor
      && minXTree == 32.0 * (centre - 6) as real && maxXTree == 32.0 * (centre + 6) as real
      && |tilemap| == rowCount
      && (forall r | 0 <= r < |tilemap| :: |tilemap[r]| == rowLength && PathRow(tilemap[r], centre))
      && |coins| <= MaxCoins
      && (forall c | c in coins :: IsCoin(c, centre))
      && (forall b | b in boxes :: IsBox(b, centre))
      && (forall t | t in trees :: IsTree(t))
      && 0 <= coinCurrentFrame < CoinSheet.totalFrames
      && FirstRunFrame <= playerCurrentFrame < PlayerSheet.totalFrames
    }

    predicate TickDrawsOk(d: TickDraws)
      reads this
    {
      && |d.row| == rowLength && DrawsOk(d.row)
      && DrawsOk(d.coinLane) && DrawsOk(d.boxLanes) && DrawsOk(d.boxLooks)
      && |d.boxLooks| == 2 && 0.0 <= d.treeLeft < 1.0 && 0.0 <= d.treeLook < 1.0
      && (exists k | 0 <= k < |d.coinLane| :: JsMath.RandomIndex(d.coinLane[k], 3) == 0)
      && (exists j, k | 0 <= j < k < |d.boxLanes| :: JsMath.RandomIndex(d.boxLanes[j], 3) != JsMath.RandomIndex(d.boxLanes[k], 3))
    }

    /**
     * Start-up: the player at (400, screen height / 2), a canvas of at least
     * 800 by 800, a full field, no coins or boxes, two trees and every clock
     * at 0 (the player's animation at frame 18).
     */
    constructor(innerWidth: real, innerHeight: real, screenHeight: real, now: real,
                fieldDraws: seq<seq<real>>, treeXDraws: (real, real), treeLookDraws: (real, real))
      requires |fieldDraws| == TileCount(Viewport(innerHeight))
      requires forall r | 0 <= r < |fieldDraws| :: |fieldDraws[r]| == TileCount(Viewport(innerWidth)) && DrawsOk(fieldDraws[r])
      requires 0.0 <= treeXDraws.0 < 1.0 && 0.0 <= treeXDraws.1 < 1.0
      requires 0.0 <= treeLookDraws.0 < 1.0 && 0.0 <= treeLookDraws.1 < 1.0
      ensures Valid()
      ensures fresh(player) && player.x == 400.0 && player.y == screenHeight / 2.0 && player.id == now
      ensures width == Viewport(innerWidth) && height == Viewport(innerHeight)
      ensures tilemap == Field(fieldDraws, centre)
      ensures coins == [] && boxes == []
      ensures trees == StartTrees(innerWidth, height, minXTree, maxXTree, treeXDraws, treeLookDraws)
      ensures lastTimestamp == 0.0 && accumulatedDistance == 0.0
      ensures coinCurrentFrame == 0 && lastCoinFrameTime == 0.0 && lastCoinAddTime == 0.0
      ensures lastTreeSpawnTime == 0.0
      ensures playerCurrentFrame == FirstRunFrame && lastPlayerFrameTime == 0.0
    {
      player := new Player(800.0 / 2.0, screenHeight / 2.0, now);
      var w := Viewport(innerWidth);
      var h := Viewport(innerHeight);
      width := w;
      height := h;
      rowLength := TileCount(w);
      rowCount := TileCount(h);
      var c := (w / 32.0 / 2.0).Floor;
      centre := c;
      var minX := 32.0 * (c - 6) as real;
      var maxX := 32.0 * (c + 6) as real;
      minXTree := minX;
      maxXTree := maxX;
      lastTimestamp := 0.0;
      accumulatedDistance := 0.0;
      tilemap := Field(fieldDraws, c);
      coins := [];
      coinCurrentFrame := 0;
      lastCoinFrameTime := 0.0;
      lastCoinAddTime := 0.0;
      boxes := [];
      trees := StartTrees(innerWidth, h, minX, maxX, treeXDraws, treeLookDraws);
      lastTreeSpawnTime := 0.0;
      playerCurrentFrame := FirstRunFrame;
      lastPlayerFrameTime := 0.0;
    }

    /**
     * Scroll the field by the distance covered since the last frame (98 pixels
     * a second); once a whole tile row has scrolled past, drop the bottom row
     * and put a new one on top. At most one row is replaced per frame.
     */
    method ScrollField(timestamp: real, rowDraws: seq<real>)
      requires Valid()
      requires |rowDraws| == rowLength && DrawsOk(rowDraws)
      modifies this`lastTimestamp, this`accumulatedDistance, this`tilemap
      ensures Valid()
      ensures lastTimestamp == timestamp
      ensures var d := old(accumulatedDistance) + (timestamp - old(lastTimestamp)) / 1000.0 * ScrollSpeed;
        if d >= FieldSheet.spriteHeight then
          tilemap == [NewRow(rowDraws, centre)] + old(tilemap)[..|old(tilemap)| - 1] && accumulatedDistance == d - FieldSheet.spriteHeight
        else
          tilemap == old(tilemap) && accumulatedDistance == d
    {
      var deltaTime := timestamp - lastTimestamp;
      lastTimestamp := timestamp;
      var distanceToMove := deltaTime / 1000.0 * ScrollSpeed;
      accumulatedDistance := accumulatedDistance + distanceToMove;
      if accumulatedDistance >= FieldSheet.spriteHeight {
        var rest := Pop(tilemap);
        var newRow := NewRow(rowDraws, centre);
        tilemap := [newRow] + rest;
        accumulatedDistance := accumulatedDistance - FieldSheet.spriteHeight;
      }
    }

    /** The coins fall and leave below the canvas; the coin animation clock ticks on the first coin visited. */
    method AdvanceCoins(timestamp: real)
      requires Valid()
      modifies this`coins, this`coinCurrentFrame, this`lastCoinFrameTime
      ensures Valid()
      ensures coins == FallAndCull(old(coins), FallSpeed, height)
      ensures var clock := FrameClock(old(coinCurrentFrame), old(lastCoinFrameTime));
        FrameClock(coinCurrentFrame, lastCoinFrameTime) ==
          if |old(coins)| > 0 && timestamp - clock.lastTime > CoinAnimationSpeed
          then FrameClock(SpriteSheets.NextFrame(0, CoinSheet.totalFrames, clock.frame), timestamp)
          else clock
    {
      var clock;
      coins, clock := AnimatedFallAndCullPass(coins, FallSpeed, height, FrameClock(coinCurrentFrame, lastCoinFrameTime),
                                               timestamp, CoinSheet.totalFrames, CoinAnimationSpeed);
      coinCurrentFrame := clock.frame;
      lastCoinFrameTime := clock.lastTime;
      var c := centre;
      FallAndCullKeeps(old(coins), FallSpeed, height, e => IsCoin(e, c));
      FallAndCullShrinks(old(coins), 0, FallSpeed, height);
    }

    /** The boxes fall the same way and leave 128 pixels below the canvas. */
    method AdvanceBoxes()
      requires Valid()
      modifies this`boxes
      ensures Valid()
      ensures boxes == FallAndCull(old(boxes), FallSpeed, height + 128.0)
    {
      boxes := FallAndCullPass(boxes, FallSpeed, height + 128.0);
      var c := centre;
      FallAndCullKeeps(old(boxes), FallSpeed, height + 128.0, e => IsBox(e, c));
    }

    /**
     * Every 800 ms, while fewer than ten coins fall: a coin at the top of a
     * lane no box blocks, and two boxes above it in two different box lanes.
     */
    method SpawnCoinAndBoxes(timestamp: real, d: TickDraws)
      requires Valid() && TickDrawsOk(d)
      modifies this`coins, this`boxes, this`lastCoinAddTime
      ensures Valid()
      ensures if old(timestamp - lastCoinAddTime > CoinAddInterval && |coins| < MaxCoins) then
          && |coins| == |old(coins)| + 1 && coins[..|old(coins)|] == old(coins)
          && coins[|old(coins)|].y == -CoinSheet.spriteHeight * 1.5
          && LaneClear(old(boxes), coins[|old(coins)|].x)
          && |boxes| == |old(boxes)| + 2 && boxes[..|old(boxes)|] == old(boxes)
          && boxes[|old(boxes)|].x != boxes[|old(boxes)| + 1].x
          && boxes[|old(boxes)|].y == boxes[|old(boxes)| + 1].y == -CoinSheet.spriteHeight * 1.5 - 100.0
          && lastCoinAddTime == timestamp
          && coins == old(coins) + [NewCoin(old(boxes), centre, d.coinLane)]
          && boxes == old(boxes) + NewBoxes(centre, d.boxLanes)
        else coins == old(coins) && boxes == old(boxes) && lastCoinAddTime == old(lastCoinAddTime)
    {
      if timestamp - lastCoinAddTime > CoinAddInterval && |coins| < MaxCoins {
        AddCoin(d.coinLane);
        AddBoxes(d.boxLanes, d.boxLooks);
        lastCoinAddTime := timestamp;
      }
    }

    /** A new coin on top of a lane, drawn again while a box blocks the lane. */
    method AddCoin(draws: seq<real>)
      requires Valid() && |coins| < MaxCoins && DrawsOk(draws)
      requires exists k | 0 <= k < |draws| :: JsMath.RandomIndex(draws[k], 3) == 0
      modifies this`coins
      ensures Valid()
      ensures |coins| == |old(coins)| + 1 && coins[..|old(coins)|] == old(coins)
      ensures var c := coins[|old(coins)|];
        c == Coin(c.x, -CoinSheet.spriteHeight * 1.5, CoinAnimationSpeed) && FirstClearLane(boxes, CoinLanes(centre), draws) == Some(c.x)
      ensures LaneClear(boxes, coins[|old(coins)|].x)
    {
      LeftCoinLaneAlwaysClear(boxes, centre);
      var k :| 0 <= k < |draws| && JsMath.RandomIndex(draws[k], 3) == 0;
      assert LaneClear(boxes, CoinLanes(centre)[JsMath.RandomIndex(draws[k], 3)]);
      var x := ChooseCoinLane(boxes, centre, draws);
      coins := coins + [Coin(x, -CoinSheet.spriteHeight * 1.5, CoinAnimationSpeed)];
    }

    /** Two boxes above the new coin, in two different box lanes. */
    method AddBoxes(laneDraws: seq<real>, lookDraws: seq<real>)
      requires Valid() && DrawsOk(laneDraws) && DrawsOk(lookDraws) && |lookDraws| == 2
      requires exists j, k | 0 <= j < k < |laneDraws| :: JsMath.RandomIndex(laneDraws[j], 3) != JsMath.RandomIndex(laneDraws[k], 3)
      modifies this`boxes
      ensures Valid()
      ensures var lanes := PickDistinct(BoxLanes(centre), laneDraws, [], 2);
        |lanes| == 2 && lanes[0] != lanes[1] &&
        boxes == old(boxes) + [Obstacle(lanes[0], -CoinSheet.spriteHeight * 1.5 - 100.0, 0),
                               Obstacle(lanes[1], -CoinSheet.spriteHeight * 1.5 - 100.0, 0)]
    {
      TwoDistinctPicksSuffice(BoxLanes(centre), laneDraws, []);
      var lanes := ChooseBoxLanes(centre, laneDraws);
      var i := 0;
      while i < 2
        invariant 0 <= i <= 2
        invariant boxes == old(boxes) + seq(i, j requires 0 <= j < i => Obstacle(lanes[j], -CoinSheet.spriteHeight * 1.5 - 100.0, 0))
        invariant forall b | b in boxes :: IsBox(b, centre)
      {
        var look := RandomArrayValue(BoxLooks, lookDraws[i]);
        boxes := boxes + [Obstacle(lanes[i], -CoinSheet.spriteHeight * 1.5 - 100.0, look)];
        i := i + 1;
      }
    }

    /** The trees fall and leave 256 pixels below the canvas; every 50 ms a new tree appears on top. */
    method AdvanceTrees(timestamp: real, d: TickDraws)
      requires Valid() && 0.0 <= d.treeLeft < 1.0 && 0.0 <= d.treeLook < 1.0
      modifies this`trees, this`lastTreeSpawnTime
      ensures Valid()
      ensures var fallen := FallAndCull(old(trees), TreeSpeed, height + 256.0);
        if timestamp - old(lastTreeSpawnTime) > TreeSheet.spawnInterval then
          && |trees| == |fallen| + 1 && trees[1..] == fallen
          && trees[0].y == -TreeSheet.spriteHeight
          && trees[0].x == (if |fallen| % 2 == 0 then d.treeRightX else d.treeLeft * minXTree)
          && trees == [NewTree(|fallen|, d.treeRightX, d.treeLeft, d.treeLook, minXTree)] + fallen
          && lastTreeSpawnTime == timestamp
        else trees == fallen && lastTreeSpawnTime == old(lastTreeSpawnTime)
    {
      trees := FallAndCullPass(trees, TreeSpeed, height + 256.0);
      FallAndCullKeeps(old(trees), TreeSpeed, height + 256.0, IsTree);
      if timestamp - lastTreeSpawnTime > TreeSheet.spawnInterval {
        SpawnTree(d.treeRightX, d.treeLeft, d.treeLook);
        lastTreeSpawnTime := timestamp;
      }
    }

    /**
     * `spawnTree`: the new tree goes in front, right of the path when the number
     * of trees is even and left of it when odd, one tree height above the canvas.
     */
    method SpawnTree(rightX: real, leftDraw: real, lookDraw: real)
      requires Valid() && 0.0 <= leftDraw < 1.0 && 0.0 <= lookDraw < 1.0
      modifies this`trees
      ensures Valid()
      ensures trees == [NewTree(|old(trees)|, rightX, leftDraw, lookDraw, minXTree)] + old(trees)
      ensures |old(trees)| % 2 == 1 && minXTree > 0.0 ==> 0.0 <= trees[0].x < minXTree
    {
      var randomX := if |trees| % 2 == 0 then rightX else leftDraw * minXTree;
      var randomY := -TreeSheet.spriteHeight;
      var randomSx := RandomArrayValue(TreeLooks, lookDraw);
      var tree := Tree(randomX, randomY, randomSx, 0);
      assert tree == NewTree(|trees|, rightX, leftDraw, lookDraw, minXTree);
      trees := [tree] + trees;
      assert trees[0] == tree;
    }

    /** The runner climbs half a pixel per frame while in the bottom eight sprite heights of the canvas. */
    method RisePlayer()
      modifies player`y
      ensures player.y == Rise(old(player.y), height)
    {
      if player.y > height - PlayerSheet.spriteHeight * 8.0 {
        player.UpdateY(player.y - 0.5);
      }
    }

    /** Whether `endGame` is called: the runner has left the canvas. */
    predicate OffScreen(x: real, y: real)
      reads this
    {
      x < -PlayerSheet.spriteWidth || x > width || y < -PlayerSheet.spriteHeight || y > height
    }

    /** The runner's animation cycles through frames 18 to 23, one step per 100 ms. */
    method UpdatePlayerFrame(timestamp: real)
      requires Valid()
      modifies this`playerCurrentFrame, this`lastPlayerFrameTime
      ensures Valid()
      ensures if timestamp - old(lastPlayerFrameTime) > PlayerSheet.spawnInterval then
          playerCurrentFrame == SpriteSheets.NextFrame(FirstRunFrame, PlayerSheet.totalFrames, old(playerCurrentFrame))
          && lastPlayerFrameTime == timestamp
        else playerCurrentFrame == old(playerCurrentFrame) && lastPlayerFrameTime == old(lastPlayerFrameTime)
    {
      if timestamp - lastPlayerFrameTime > PlayerSheet.spawnInterval {
        playerCurrentFrame := InlineFrame(playerCurrentFrame, PlayerSheet.totalFrames, FirstRunFrame);
        lastPlayerFrameTime := timestamp;
      }
    }

    /** The test for a coin touching the runner's whole sprite. */
    function CoinBox(overlaps: (Rect, Rect) -> bool): HitBox
      reads this, player
    {
      CoinBoxAt(overlaps, player.x, player.y)
    }

    /**
     * Each coin touching the runner that the pass visits is removed and scores
     * one point; the coin right after a removed one is not visited and waits
     * for the next frame.
     */
    method CollectCoins(overlaps: (Rect, Rect) -> bool) returns (scoreCalls: nat)
      requires Valid()
      modifies this`coins
      ensures Valid()
      ensures (coins, scoreCalls) == Collect(old(coins), CoinBox(overlaps))
      ensures |coins| + scoreCalls == |old(coins)|
      ensures (exists k | 0 <= k < |old(coins)| :: CoinBox(overlaps).Hits(old(coins)[k])) ==> scoreCalls > 0
      ensures DistinctPositions(old(coins)) ==> (coins, scoreCalls) == RemoveHitsSkippingNext(old(coins), CoinBox(overlaps))
    {
      coins, scoreCalls := CollectPass(coins, CoinBox(overlaps));
    }

    /** Each box in turn holds the runner or lets it climb toward the middle line. */
    method HoldAtBoxes(overlaps: (Rect, Rect) -> bool)
      modifies player`y
      ensures player.y == HoldFrom(overlaps, boxes, 0, player.x, old(player.y), height)
    {
      var i := 0;
      while i < |boxes|
        invariant 0 <= i <= |boxes|
        invariant HoldFrom(overlaps, boxes, i, player.x, player.y, height) == HoldFrom(overlaps, boxes, 0, player.x, old(player.y), height)
      {
        var b := boxes[i];
        var isColliding := overlaps(BodyRect(player.x, player.y), BoxRect(b));
        if isColliding {
          player.UpdateY(player.y);
        } else if player.y > height / 2.0 {
          player.UpdateY(player.y - 0.5);
        } else {
          player.UpdateY(height / 2.0);
        }
        i := i + 1;
      }
    }

    /** The falling part of a frame: coins, then boxes, then the spawn of both, then trees. */
    method AdvanceEntities(timestamp: real, d: TickDraws)
      requires Valid() && TickDrawsOk(d)
      modifies this`coins, this`coinCurrentFrame, this`lastCoinFrameTime, this`boxes, this`lastCoinAddTime
      modifies this`trees, this`lastTreeSpawnTime
      ensures Valid()
      ensures var fallen := FallAndCull(old(coins), FallSpeed, height);
        var boxesFallen := FallAndCull(old(boxes), FallSpeed, height + 128.0);
        var spawns := old(timestamp - lastCoinAddTime) > CoinAddInterval && |fallen| < MaxCoins;
        && coins == (if spawns then fallen + [NewCoin(boxesFallen, centre, d.coinLane)] else fallen)
        && boxes == boxesFallen + (if spawns then NewBoxes(centre, d.boxLanes) else [])
      ensures var fallenTrees := FallAndCull(old(trees), TreeSpeed, height + 256.0);
        trees == if timestamp - old(lastTreeSpawnTime) > TreeSheet.spawnInterval
          then [NewTree(|fallenTrees|, d.treeRightX, d.treeLeft, d.treeLook, minXTree)] + fallenTrees
          else fallenTrees
      ensures lastCoinAddTime ==
        if old(timestamp - lastCoinAddTime) > CoinAddInterval && |FallAndCull(old(coins), FallSpeed, height)| < MaxCoins
        then timestamp else old(lastCoinAddTime)
      ensures lastTreeSpawnTime == if timestamp - old(lastTreeSpawnTime) > TreeSheet.spawnInterval then timestamp else old(lastTreeSpawnTime)
      ensures var clock := FrameClock(old(coinCurrentFrame), old(lastCoinFrameTime));
        FrameClock(coinCurrentFrame, lastCoinFrameTime) ==
          if |old(coins)| > 0 && timestamp - clock.lastTime > CoinAnimationSpeed
          then FrameClock(SpriteSheets.NextFrame(0, CoinSheet.totalFrames, clock.frame), timestamp)
          else clock
    {
      AdvanceCoins(timestamp);
      AdvanceBoxes();
      SpawnCoinAndBoxes(timestamp, d);
      AdvanceTrees(timestamp, d);
    }

    /**
     * The runner's part of a frame: it climbs, `endGame` is called if it has
     * left the canvas, its animation advances, it collects the coins it
     * touches and the boxes hold it; returns the score calls and `endGame`.
     */
    method RunnerStep(timestamp: real, overlaps: (Rect, Rect) -> bool) returns (scoreCalls: nat, endGame: bool)
      requires Valid()
      modifies this`coins, this`playerCurrentFrame, this`lastPlayerFrameTime, player`y
      ensures Valid()
      ensures var y := Rise(old(player.y), height);
        && endGame == OffScreen(player.x, y)
        && (coins, scoreCalls) == Collect(old(coins), CoinBoxAt(overlaps, player.x, y))
        && player.y == HoldFrom(overlaps, boxes, 0, player.x, y, height)
      ensures var clock := FrameClock(old(playerCurrentFrame), old(lastPlayerFrameTime));
        FrameClock(playerCurrentFrame, lastPlayerFrameTime) ==
          if timestamp - clock.lastTime > PlayerSheet.spawnInterval
          then FrameClock(SpriteSheets.NextFrame(FirstRunFrame, PlayerSheet.totalFrames, clock.frame), timestamp)
          else clock
    {
      RisePlayer();
      endGame := OffScreen(player.x, player.y);
      UpdatePlayerFrame(timestamp);
      scoreCalls := CollectCoins(overlaps);
      HoldAtBoxes(overlaps);
    }

    /**
     * One `animate(timestamp)` frame, in the source's order; returns the number
     * of `setScore(1)` calls and whether `endGame()` was called. Drawing is not
     * modelled; `overlaps` is the rectangle test.
     */
    method Animate(timestamp: real, d: TickDraws, overlaps: (Rect, Rect) -> bool) returns (scoreCalls: nat, endGame: bool)
      requires Valid() && TickDrawsOk(d)
      modifies this, player
      ensures Valid()
      ensures lastTimestamp == timestamp
      ensures |coins| <= MaxCoins
      ensures player.x == old(player.x)
      ensures var fallen := FallAndCull(old(coins), FallSpeed, height);
        var boxesFallen := FallAndCull(old(boxes), FallSpeed, height + 128.0);
        var spawns := old(timestamp - lastCoinAddTime) > CoinAddInterval && |fallen| < MaxCoins;
        var spawned := if spawns then fallen + [NewCoin(boxesFallen, centre, d.coinLane)] else fallen;
        var y := Rise(old(player.y), height);
        && endGame == OffScreen(old(player.x), y)
        && (coins, scoreCalls) == Collect(spawned, CoinBoxAt(overlaps, old(player.x), y))
        && boxes == boxesFallen + (if spawns then NewBoxes(centre, d.boxLanes) else [])
        && player.y == HoldFrom(overlaps, boxes, 0, old(player.x), y, height)
      ensures var fallenTrees := FallAndCull(old(trees), TreeSpeed, height + 256.0);
        trees == if timestamp - old(lastTreeSpawnTime) > TreeSheet.spawnInterval
          then [NewTree(|fallenTrees|, d.treeRightX, d.treeLeft, d.treeLook, minXTree)] + fallenTrees
          else fallenTrees
      ensures var distance := old(accumulatedDistance) + (timestamp - old(lastTimestamp)) / 1000.0 * ScrollSpeed;
        tilemap == if distance >= FieldSheet.spriteHeight then [NewRow(d.row, centre)] + old(tilemap)[..|old(tilemap)| - 1] else old(tilemap)
      ensures var distance := old(accumulatedDistance) + (timestamp - old(lastTimestamp)) / 1000.0 * ScrollSpeed;
        accumulatedDistance == if distance >= FieldSheet.spriteHeight then distance - FieldSheet.spriteHeight else distance
      ensures lastCoinAddTime ==
        if old(timestamp - lastCoinAddTime) > CoinAddInterval && |FallAndCull(old(coins), FallSpeed, height)| < MaxCoins
        then timestamp else old(lastCoinAddTime)
      ensures lastTreeSpawnTime == if timestamp - old(lastTreeSpawnTime) > TreeSheet.spawnInterval then timestamp else old(lastTreeSpawnTime)
      ensures var clock := FrameClock(old(coinCurrentFrame), old(lastCoinFrameTime));
        FrameClock(coinCurrentFrame, lastCoinFrameTime) ==
          if |old(coins)| > 0 && timestamp - clock.lastTime > CoinAnimationSpeed
          then FrameClock(SpriteSheets.NextFrame(0, CoinSheet.totalFrames, clock.frame), timestamp)
          else clock
      ensures var clock := FrameClock(old(playerCurrentFrame), old(lastPlayerFrameTime));
        FrameClock(playerCurrentFrame, lastPlayerFrameTime) ==
          if timestamp - clock.lastTime > PlayerSheet.spawnInterval
          then FrameClock(SpriteSheets.NextFrame(FirstRunFrame, PlayerSheet.totalFrames, clock.frame), timestamp)
          else clock
      ensures player.id == old(player.id)
    {
      ScrollField(timestamp, d.row);
      AdvanceEntities(timestamp, d);
      scoreCalls, endGame := RunnerStep(timestamp, overlaps);
    }

    /** The arrow keys move the runner one lane (32 pixels) within the three lanes around the centre. */
    method HandleKeyDown(key: Key)
      modifies player`x
      ensures player.x == LaneStep(old(player.x), key, PlayerStep, (centre - 1) as real * 32.0, (centre + 1) as real * 32.0)
    {
      match key {
        case ArrowLeft =>
          if player.x > (centre - 1) as real * 32.0 {
            player.UpdateX(player.x - PlayerStep);
          }
        case ArrowRight =>
          if player.x < (centre + 1) as real * 32.0 {
            player.UpdateX(player.x + PlayerStep);
          }
        case _ =>
      }
    }
  }
}
