/**
 * What the two canvas games (src/components/Canvas.tsx and
 * src/components/CanvasWithSprite.tsx) share: their moving entities, the
 * `forEach` passes that move them and `splice` them out of the array being
 * iterated, the collision pass that removes an entity found by its position,
 * the inline player-frame formula and the lane-bounded arrow-key step.
 */
module Entities {
  import JsMath
  import SpriteSheets
  import opened Intersection

  /** `Math.max(inner, 800)`: both canvas games size the canvas from the window, never gets smaller than 800 pixels. */
  function Viewport(inner: real): (size: real)
    ensures size >= 800.0 && size >= inner
    ensures size == inner || size == 800.0
  {
    if inner < 800.0 then 800.0 else inner
  }

  /** Every entity has a position; the rest is what its variant carries. */
  datatype Entity =
    | Coin(x: real, y: real, animationSpeed: real)
    | Obstacle(x: real, y: real, sy: int)
    | Tree(x: real, y: real, sx: int, sy: int)
    | Enemy(x: real, y: real, animationSpeed: real)

  /** The same entity placed at height y. */
  function WithY(e: Entity, y: real): (e': Entity)
    ensures e'.x == e.x && e'.y == y
    ensures e'.Coin? == e.Coin? && e'.Obstacle? == e.Obstacle? && e'.Tree? == e.Tree? && e'.Enemy? == e.Enemy?
    ensures (e.Coin? || e.Enemy?) ==> e'.animationSpeed == e.animationSpeed
  {
    match e
    case Coin(x, _, a) => Coin(x, y, a)
    case Obstacle(x, _, sy) => Obstacle(x, y, sy)
    case Tree(x, _, sx, sy) => Tree(x, y, sx, sy)
    case Enemy(x, _, a) => Enemy(x, y, a)
  }

  /*
   * The move-and-cull pass: `list.forEach(e => { e.y += speed; if (e.y > limit)
   * list.splice(index of e, 1) })`. `forEach` visits index i = 0, 1, ... while i
   * is below the array's current length, so when the entity at i is spliced out
   * its successor slides into slot i and is not visited (nor moved) this tick.
   */

  /** The array after the pass has visited indices i, i + 1, ... of `s`. */
  function FallAndCullFrom(s: seq<Entity>, i: nat, speed: real, limit: real): seq<Entity>
    decreases |s| - i
  {
    if i >= |s| then s
    else
      var moved := WithY(s[i], s[i].y + speed);
      if moved.y > limit then FallAndCullFrom(s[..i] + s[i + 1..], i + 1, speed, limit)
      else FallAndCullFrom(s[i := moved], i + 1, speed, limit)
  }

  /** One whole pass over the array. */
  function FallAndCull(s: seq<Entity>, speed: real, limit: real): seq<Entity> {
    FallAndCullFrom(s, 0, speed, limit)
  }

  /** The pass never lengthens the array. */
  lemma {:induction false} FallAndCullShrinks(s: seq<Entity>, i: nat, speed: real, limit: real)
    ensures |FallAndCullFrom(s, i, speed, limit)| <= |s|
    decreases |s| - i
  {
    if i < |s| {
      var moved := WithY(s[i], s[i].y + speed);
      if moved.y > limit {
        FallAndCullShrinks(s[..i] + s[i + 1..], i + 1, speed, limit);
      } else {
        FallAndCullShrinks(s[i := moved], i + 1, speed, limit);
      }
    }
  }

  /** If every entity is above the cull line before the pass, every survivor is above it after. */
  lemma {:induction false} FallAndCullKeepsAboveLimit(s: seq<Entity>, i: nat, speed: real, limit: real)
    requires forall e | e in s :: e.y <= limit
    ensures forall e | e in FallAndCullFrom(s, i, speed, limit) :: e.y <= limit
    decreases |s| - i
  {
    if i < |s| {
      var moved := WithY(s[i], s[i].y + speed);
      if moved.y > limit {
        var rest := s[..i] + s[i + 1..];
        assert forall e | e in rest :: e in s;
        FallAndCullKeepsAboveLimit(rest, i + 1, speed, limit);
      } else {
        FallAndCullKeepsAboveLimit(s[i := moved], i + 1, speed, limit);
      }
    }
  }

  /** An entity that has "only moved down" from some entity of s. */
  ghost predicate DescendsFrom(e: Entity, s: seq<Entity>) {
    exists e' | e' in s :: e == WithY(e', e.y) && e'.y <= e.y
  }

  /**
   * Every survivor is an input entity that has only moved down: its other
   * fields, x included, are those of the input entity, and its y is no smaller.
   */
  lemma {:induction false} FallAndCullOnlyMovesDown(s: seq<Entity>, i: nat, speed: real, limit: real)
    requires speed >= 0.0
    ensures forall e | e in FallAndCullFrom(s, i, speed, limit) :: DescendsFrom(e, s)
    decreases |s| - i
  {
    var r := FallAndCullFrom(s, i, speed, limit);
    if i >= |s| {
      forall e | e in r ensures DescendsFrom(e, s) {
        WithYSame(e);
      }
    } else {
      var moved := WithY(s[i], s[i].y + speed);
      var next := if moved.y > limit then s[..i] + s[i + 1..] else s[i := moved];
      assert r == FallAndCullFrom(next, i + 1, speed, limit);
      FallAndCullOnlyMovesDown(next, i + 1, speed, limit);
      OneStepDescends(s, i, speed, limit, next);
      forall e | e in r ensures DescendsFrom(e, s) {
        DescendsTransitive(e, next, s);
      }
    }
  }

  /** Every entity of the array after one visit has only moved down from an entity before it. */
  lemma OneStepDescends(s: seq<Entity>, i: nat, speed: real, limit: real, next: seq<Entity>)
    requires speed >= 0.0 && i < |s|
    requires var moved := WithY(s[i], s[i].y + speed);
      next == if moved.y > limit then s[..i] + s[i + 1..] else s[i := moved]
    ensures forall e | e in next :: DescendsFrom(e, s)
  {
    forall e | e in next ensures DescendsFrom(e, s) {
      var k :| 0 <= k < |next| && next[k] == e;
      var moved := WithY(s[i], s[i].y + speed);
      if moved.y <= limit && k == i {
        assert s[i] in s && e == WithY(s[i], e.y) && s[i].y <= e.y;
      } else {
        var k' := if moved.y > limit && k >= i then k + 1 else k;
        assert next[k] == s[k'];
        WithYSame(e);
        assert s[k'] in s && e == WithY(s[k'], e.y) && s[k'].y <= e.y;
      }
    }
  }

  /** Moving down twice is moving down once. */
  lemma DescendsTransitive(e: Entity, t: seq<Entity>, s: seq<Entity>)
    requires DescendsFrom(e, t)
    requires forall e'' | e'' in t :: DescendsFrom(e'', s)
    ensures DescendsFrom(e, s)
  {
    var e'' :| e'' in t && e == WithY(e'', e.y) && e''.y <= e.y;
    var e' :| e' in s && e'' == WithY(e', e''.y) && e'.y <= e''.y;
    WithYTwice(e', e''.y, e.y);
    assert e' in s && e == WithY(e', e.y) && e'.y <= e.y;
  }

  lemma WithYSame(e: Entity)
    ensures WithY(e, e.y) == e
  {
  }

  lemma WithYTwice(e: Entity, a: real, b: real)
    ensures WithY(WithY(e, a), b) == WithY(e, b)
  {
  }

  /**
   * Any property of entities that does not depend on height holds of every
   * survivor of the pass when it holds of every input entity.
   */
  lemma FallAndCullKeeps(s: seq<Entity>, speed: real, limit: real, P: Entity -> bool)
    requires speed >= 0.0
    requires forall e | e in s :: P(e)
    requires forall e: Entity, y: real :: P(e) ==> P(WithY(e, y))
    ensures forall e | e in FallAndCull(s, speed, limit) :: P(e)
  {
    FallAndCullOnlyMovesDown(s, 0, speed, limit);
    forall e | e in FallAndCull(s, speed, limit) ensures P(e) {
      var e' :| e' in s && e == WithY(e', e.y) && e'.y <= e.y;
    }
  }

  /** When no visited entity crosses the cull line, the pass just moves every visited entity down by `speed`. */
  lemma {:induction false} FallAndCullWithoutCulling(s: seq<Entity>, i: nat, speed: real, limit: real)
    requires i <= |s|
    requires forall k | i <= k < |s| :: s[k].y + speed <= limit
    ensures var r := FallAndCullFrom(s, i, speed, limit);
      && |r| == |s|
      && (forall k | 0 <= k < i :: r[k] == s[k])
      && (forall k | i <= k < |s| :: r[k] == WithY(s[k], s[k].y + speed))
    decreases |s| - i
  {
    if i < |s| {
      FallAndCullWithoutCulling(s[i := WithY(s[i], s[i].y + speed)], i + 1, speed, limit);
    }
  }

  /** The pass leaves the slots before its starting index alone. */
  lemma {:induction false} FallAndCullKeepsPrefix(s: seq<Entity>, i: nat, speed: real, limit: real)
    requires i <= |s|
    ensures var r := FallAndCullFrom(s, i, speed, limit); |r| >= i && r[..i] == s[..i]
    decreases |s| - i
  {
    if i < |s| {
      var moved := WithY(s[i], s[i].y + speed);
      if moved.y > limit {
        var rest := s[..i] + s[i + 1..];
        if i + 1 <= |rest| {
          FallAndCullKeepsPrefix(rest, i + 1, speed, limit);
          assert rest[..i] == s[..i];
        }
      } else {
        FallAndCullKeepsPrefix(s[i := moved], i + 1, speed, limit);
      }
    }
  }

  /** The skip: when the entity at i is culled, its successor takes slot i unmoved, whatever its position. */
  lemma {:induction false} CulledEntitysSuccessorIsSkipped(s: seq<Entity>, i: nat, speed: real, limit: real)
    requires i + 1 < |s|
    requires s[i].y + speed > limit
    ensures var r := FallAndCullFrom(s, i, speed, limit); |r| > i && r[i] == s[i + 1]
  {
    var rest := s[..i] + s[i + 1..];
    FallAndCullKeepsPrefix(rest, i + 1, speed, limit);
    assert rest[i] == s[i + 1];
  }

  /** The move-and-cull `forEach` as the source runs it, on a copy of the array's contents. */
  method FallAndCullPass(s: seq<Entity>, speed: real, limit: real) returns (r: seq<Entity>)
    ensures r == FallAndCull(s, speed, limit)
  {
    r := s;
    var i := 0;
    while i < |r|
      invariant FallAndCullFrom(r, i, speed, limit) == FallAndCull(s, speed, limit)
      decreases |r| - i
    {
      var e := r[i];
      e := WithY(e, e.y + speed);
      if e.y > limit {
        r := r[..i] + r[i + 1..];
      } else {
        r := r[i := e];
      }
      i := i + 1;
    }
  }

  /** A shared animation clock: the frame shown and when it last advanced. */
  datatype FrameClock = FrameClock(frame: int, lastTime: real)

  /**
   * The move-and-cull `forEach` of animated entities (coins, enemies): each
   * visit first advances the shared clock `(frame + 1) % total` when more than
   * the entity's `animationSpeed` has passed since the clock last advanced.
   * With one delay for every entity the clock advances at most once per pass:
   * at the first visit, if the delay has elapsed.
   */
  method AnimatedFallAndCullPass(s: seq<Entity>, speed: real, limit: real,
                                 clock: FrameClock, timestamp: real, total: int, delay: real)
    returns (r: seq<Entity>, clock': FrameClock)
    requires 0 <= clock.frame < total
    requires delay >= 0.0
    requires forall e | e in s :: (e.Coin? || e.Enemy?) && e.animationSpeed == delay
    ensures r == FallAndCull(s, speed, limit)
    ensures clock' == if |s| > 0 && timestamp - clock.lastTime > delay
                      then FrameClock(SpriteSheets.NextFrame(0, total, clock.frame), timestamp)
                      else clock
  {
    r := s;
    clock' := clock;
    var i := 0;
    while i < |r|
      invariant FallAndCullFrom(r, i, speed, limit) == FallAndCull(s, speed, limit)
      invariant i == 0 ==> r == s
      invariant s == [] ==> i == 0
      invariant forall e | e in r :: (e.Coin? || e.Enemy?) && e.animationSpeed == delay
      invariant clock' == if i > 0 && timestamp - clock.lastTime > delay
                          then FrameClock(SpriteSheets.NextFrame(0, total, clock.frame), timestamp)
                          else clock
      decreases |r| - i
    {
      var e := r[i];
      if timestamp - clock'.lastTime > e.animationSpeed {
        clock' := FrameClock(JsMath.Rem(clock'.frame + 1, total), timestamp);
      }
      e := WithY(e, e.y + speed);
      if e.y > limit {
        r := r[..i] + r[i + 1..];
      } else {
        r := r[i := e];
      }
      i := i + 1;
    }
  }

  /*
   * The collision pass: `list.forEach(e => { if (hit(e)) { j = list.findIndex(o
   * => o.x === e.x && o.y === e.y); if (j > -1) list.splice(j, 1); score() } })`.
   * The entity removed is the first one at the hit entity's position, which is
   * never later than the hit entity itself; the visit after a removal skips one
   * entity, as in the move-and-cull pass.
   */

  /** The intersection test between the player's box and an entity's box (the test itself is a parameter). */
  datatype HitBox = HitBox(overlaps: (Rect, Rect) -> bool, player: Rect, width: real, height: real) {
    predicate Hits(e: Entity) {
      overlaps(player, Rect(e.x, e.y, width, height))
    }
  }

  /** `findIndex` of the first entity at position (x, y), or -1. */
  function FirstAt(s: seq<Entity>, x: real, y: real): (j: int)
    ensures -1 <= j < |s|
    ensures j >= 0 ==> s[j].x == x && s[j].y == y
    ensures forall k | 0 <= k < |s| && s[k].x == x && s[k].y == y :: 0 <= j <= k
  {
    if s == [] then -1
    else if s[0].x == x && s[0].y == y then 0
    else
      var j := FirstAt(s[1..], x, y);
      if j < 0 then -1 else j + 1
  }

  /**
   * The array and the number of score calls after the collision pass has
   * visited indices i, i + 1, ... of `s`.
   */
  function CollectFrom(s: seq<Entity>, i: nat, box: HitBox): (seq<Entity>, nat)
    decreases |s| - i
  {
    if i >= |s| then (s, 0)
    else if box.Hits(s[i]) then
      var j := FirstAt(s, s[i].x, s[i].y);
      var r := CollectFrom(s[..j] + s[j + 1..], i + 1, box);
      (r.0, r.1 + 1)
    else CollectFrom(s, i + 1, box)
  }

  /** One whole collision pass. */
  function Collect(s: seq<Entity>, box: HitBox): (seq<Entity>, nat) {
    CollectFrom(s, 0, box)
  }

  /** The score callback fires exactly once per entity removed. */
  lemma {:induction false} CollectCountsRemovals(s: seq<Entity>, i: nat, box: HitBox)
    ensures var r := CollectFrom(s, i, box); |r.0| + r.1 == |s|
    decreases |s| - i
  {
    if i < |s| {
      if box.Hits(s[i]) {
        var j := FirstAt(s, s[i].x, s[i].y);
        CollectCountsRemovals(s[..j] + s[j + 1..], i + 1, box);
      } else {
        CollectCountsRemovals(s, i + 1, box);
      }
    }
  }

  /** Only entities that hit the player are removed: every other entity keeps its multiplicity. */
  lemma {:induction false} CollectRemovesOnlyHits(s: seq<Entity>, i: nat, box: HitBox)
    ensures var r := CollectFrom(s, i, box);
      && multiset(r.0) <= multiset(s)
      && forall e | !box.Hits(e) :: multiset(r.0)[e] == multiset(s)[e]
    decreases |s| - i
  {
    if i < |s| {
      if box.Hits(s[i]) {
        var j := FirstAt(s, s[i].x, s[i].y);
        var rest := s[..j] + s[j + 1..];
        var r := CollectFrom(rest, i + 1, box);
        assert CollectFrom(s, i, box).0 == r.0;
        SpliceOutMultiset(s, j);
        assert box.Hits(s[j]);
        CollectRemovesOnlyHits(rest, i + 1, box);
        forall e | !box.Hits(e) ensures multiset(r.0)[e] == multiset(s)[e] {
          assert e != s[j];
        }
      } else {
        CollectRemovesOnlyHits(s, i + 1, box);
      }
    }
  }

  /** Splicing out index j removes one copy of s[j] and nothing else. */
  lemma SpliceOutMultiset(s: seq<Entity>, j: int)
    requires 0 <= j < |s|
    ensures multiset(s) == multiset(s[..j] + s[j + 1..]) + multiset{s[j]}
  {
    assert s == s[..j] + [s[j]] + s[j + 1..];
  }

  /** The pass scores at least once whenever some entity from index i on hits. */
  lemma {:induction false} CollectScoresSomeHit(s: seq<Entity>, i: nat, box: HitBox)
    requires exists k | i <= k < |s| :: box.Hits(s[k])
    ensures CollectFrom(s, i, box).1 > 0
    decreases |s| - i
  {
    if !box.Hits(s[i]) {
      var k :| i <= k < |s| && box.Hits(s[k]);
      assert k != i;
      CollectScoresSomeHit(s, i + 1, box);
    }
  }

  /** No two entities share a position, so `findIndex` by position finds the entity itself. */
  predicate DistinctPositions(s: seq<Entity>) {
    forall a, b | 0 <= a < b < |s| :: s[a].x != s[b].x || s[a].y != s[b].y
  }

  /**
   * A reference reading of the collision pass on entities at distinct
   * positions: an entity that hits is removed and scores, and the entity right
   * after it is passed over (kept, unvisited) this frame.
   */
  function RemoveHitsSkippingNext(t: seq<Entity>, box: HitBox): (seq<Entity>, nat) {
    if t == [] then ([], 0)
    else if !box.Hits(t[0]) then
      var r := RemoveHitsSkippingNext(t[1..], box);
      ([t[0]] + r.0, r.1)
    else if |t| == 1 then ([], 1)
    else
      var r := RemoveHitsSkippingNext(t[2..], box);
      ([t[1]] + r.0, r.1 + 1)
  }

  /** With distinct positions the collision pass is exactly the reference reading on the unvisited suffix. */
  lemma {:induction false} CollectIsRemoveHitsSkippingNext(s: seq<Entity>, i: nat, box: HitBox)
    requires i <= |s| && DistinctPositions(s)
    ensures var r := RemoveHitsSkippingNext(s[i..], box);
      CollectFrom(s, i, box) == (s[..i] + r.0, r.1)
    decreases |s| - i
  {
    if i == |s| {
      assert s[i..] == [] && s[..i] + [] == s;
    } else if box.Hits(s[i]) {
      FindsItself(s, i);
      var s' := s[..i] + s[i + 1..];
      if i + 1 == |s| {
        LastHit(s, i, box);
      } else {
        RemovalKeepsDistinct(s, i);
        CollectIsRemoveHitsSkippingNext(s', i + 1, box);
        HitStep(s, i, box);
        var r := CollectFrom(s', i + 1, box);
        assert CollectFrom(s, i, box) == (r.0, r.1 + 1);
      }
    } else {
      CollectIsRemoveHitsSkippingNext(s, i + 1, box);
      MissStep(s, i, box);
      assert CollectFrom(s, i, box) == CollectFrom(s, i + 1, box);
    }
  }

  /** A hit on the last entity removes it and scores once, in both readings. */
  lemma LastHit(s: seq<Entity>, i: nat, box: HitBox)
    requires i + 1 == |s| && box.Hits(s[i]) && FirstAt(s, s[i].x, s[i].y) == i
    ensures var r := RemoveHitsSkippingNext(s[i..], box);
      CollectFrom(s, i, box) == (s[..i] + r.0, r.1)
  {
    var s' := s[..i] + s[i + 1..];
    assert s' == s[..i] && s[i..] == [s[i]];
    assert CollectFrom(s', i + 1, box) == (s', 0);
    assert CollectFrom(s, i, box) == (s', 1);
    assert RemoveHitsSkippingNext(s[i..], box) == ([], 1);
    assert s[..i] + [] == s';
  }

  /** `findIndex` by position finds the entity itself when positions are distinct. */
  lemma FindsItself(s: seq<Entity>, i: nat)
    requires i < |s| && DistinctPositions(s)
    ensures FirstAt(s, s[i].x, s[i].y) == i
  {
  }

  /** Splicing one entity out keeps the positions distinct. */
  lemma RemovalKeepsDistinct(s: seq<Entity>, i: nat)
    requires i < |s| && DistinctPositions(s)
    ensures DistinctPositions(s[..i] + s[i + 1..])
  {
    var s' := s[..i] + s[i + 1..];
    forall a, b | 0 <= a < b < |s'| ensures s'[a].x != s'[b].x || s'[a].y != s'[b].y {
      var a' := if a < i then a else a + 1;
      var b' := if b < i then b else b + 1;
      assert s'[a] == s[a'] && s'[b] == s[b'];
    }
  }

  /** Splicing out a hit at i and resuming at i + 1 unfolds one hitting step of the reference reading. */
  lemma HitStep(s: seq<Entity>, i: nat, box: HitBox)
    requires i + 1 < |s| && box.Hits(s[i])
    ensures var s' := s[..i] + s[i + 1..];
      var rest := RemoveHitsSkippingNext(s'[i + 1..], box);
      var r := RemoveHitsSkippingNext(s[i..], box);
      s'[..i + 1] + rest.0 == s[..i] + r.0 && rest.1 + 1 == r.1
  {
    var s' := s[..i] + s[i + 1..];
    var t := s[i..];
    assert t[0] == s[i] && t[1] == s[i + 1];
    assert s'[..i + 1] == s[..i] + [s[i + 1]];
    assert s'[i + 1..] == t[2..];
  }

  /** Moving past an entity that misses unfolds one missing step of the reference reading. */
  lemma MissStep(s: seq<Entity>, i: nat, box: HitBox)
    requires i < |s| && !box.Hits(s[i])
    ensures var rest := RemoveHitsSkippingNext(s[i + 1..], box);
      var r := RemoveHitsSkippingNext(s[i..], box);
      s[..i + 1] + rest.0 == s[..i] + r.0 && rest.1 == r.1
  {
    var t := s[i..];
    assert t[0] == s[i];
    assert s[..i + 1] == s[..i] + [s[i]];
    assert s[i + 1..] == t[1..];
  }

  /**
   * In the reference reading, the entities before the first hit stay put, the
   * first hit is removed and scores, and its successor takes its slot.
   */
  lemma {:induction false} FirstHitIsRemoved(t: seq<Entity>, box: HitBox, k: nat)
    requires k < |t| && box.Hits(t[k])
    requires forall m | 0 <= m < k :: !box.Hits(t[m])
    ensures var r := RemoveHitsSkippingNext(t, box);
      && r.1 > 0 && k <= |r.0| < |t| && r.0[..k] == t[..k]
      && (k + 1 < |t| ==> |r.0| > k && r.0[k] == t[k + 1])
  {
    if k > 0 {
      assert !box.Hits(t[0]);
      FirstHitIsRemoved(t[1..], box, k - 1);
      var r := RemoveHitsSkippingNext(t[1..], box);
      assert t[..k] == [t[0]] + t[1..][..k - 1];
    } else if |t| > 1 {
      RemoveHitsShrinks(t[2..], box);
    }
  }

  /** The reference reading never lengthens the list. */
  lemma {:induction false} RemoveHitsShrinks(t: seq<Entity>, box: HitBox)
    ensures |RemoveHitsSkippingNext(t, box).0| <= |t|
  {
    if t != [] {
      if !box.Hits(t[0]) {
        RemoveHitsShrinks(t[1..], box);
      } else if |t| > 1 {
        RemoveHitsShrinks(t[2..], box);
      }
    }
  }

  /**
   * On entities at distinct positions the collision pass removes the first
   * entity that hits and scores for it; the entities before it stay, and the
   * one after it moves into its slot.
   */
  lemma CollectRemovesFirstHit(s: seq<Entity>, box: HitBox, k: nat)
    requires DistinctPositions(s)
    requires k < |s| && box.Hits(s[k])
    requires forall m | 0 <= m < k :: !box.Hits(s[m])
    ensures var r := Collect(s, box);
      && r.1 > 0 && k <= |r.0| < |s| && r.0[..k] == s[..k]
      && (k + 1 < |s| ==> |r.0| > k && r.0[k] == s[k + 1])
  {
    CollectIsRemoveHitsSkippingNext(s, 0, box);
    assert s[0..] == s && s[..0] + RemoveHitsSkippingNext(s, box).0 == RemoveHitsSkippingNext(s, box).0;
    FirstHitIsRemoved(s, box, k);
  }

  /** Survivors of the collision pass are entities of the input. */
  lemma CollectKeepsMembers(s: seq<Entity>, box: HitBox)
    ensures forall e | e in Collect(s, box).0 :: e in s
  {
    CollectRemovesOnlyHits(s, 0, box);
    var r := Collect(s, box).0;
    forall e | e in r ensures e in s {
      assert e in multiset(r);
    }
  }

  /**
   * The collision `forEach` as the source runs it. `findIndex` always finds
   * the visited entity or an earlier one at the same position, so the branch
   * guarded by `j > -1` is always taken: the score callback that Canvas.tsx
   * calls before that guard and CanvasWithSprite.tsx calls inside it fire alike.
   */
  method CollectPass(s: seq<Entity>, box: HitBox) returns (r: seq<Entity>, scoreCalls: nat)
    ensures (r, scoreCalls) == Collect(s, box)
    ensures |r| + scoreCalls == |s|
    ensures forall e | e in r :: e in s
    ensures (exists k | 0 <= k < |s| :: box.Hits(s[k])) ==> scoreCalls > 0
    ensures DistinctPositions(s) ==> (r, scoreCalls) == RemoveHitsSkippingNext(s, box)
  {
    r := s;
    scoreCalls := 0;
    var i := 0;
    while i < |r|
      invariant var rest := CollectFrom(r, i, box); (rest.0, rest.1 + scoreCalls) == Collect(s, box)
      decreases |r| - i
    {
      var e := r[i];
      if box.Hits(e) {
        var j := FirstAt(r, e.x, e.y);
        if j > -1 {
          r := r[..j] + r[j + 1..];
          scoreCalls := scoreCalls + 1;
        }
      }
      i := i + 1;
    }
    CollectCountsRemovals(s, 0, box);
    CollectKeepsMembers(s, box);
    if exists k | 0 <= k < |s| :: box.Hits(s[k]) {
      CollectScoresSomeHit(s, 0, box);
    }
    if DistinctPositions(s) {
      CollectIsRemoveHitsSkippingNext(s, 0, box);
      assert s[0..] == s && s[..0] + RemoveHitsSkippingNext(s, box).0 == RemoveHitsSkippingNext(s, box).0;
    }
  }

  /**
   * The player frame formula both canvas games inline,
   * `Math.max((frame + 1) % total, first)`: on [first, total) it is the
   * sprite-sheet clock cycling through that range.
   */
  function InlineFrame(frame: int, total: int, first: int): (next: int)
    requires total != 0
    ensures 0 <= first <= frame < total ==> next == SpriteSheets.NextFrame(first, total, frame)
  {
    SuccessorRemainder(frame, total, first);
    JsMath.Max(JsMath.Rem(frame + 1, total), first)
  }

  /** On [first, total), `(frame + 1) % total` is the successor, or 0 at the wrap. */
  lemma SuccessorRemainder(frame: int, total: int, first: int)
    requires total != 0
    ensures 0 <= first <= frame < total ==> JsMath.Rem(frame + 1, total) == if frame + 1 < total then frame + 1 else 0
  {
    if 0 <= first <= frame < total && frame + 1 == total {
      assert (frame + 1) % total == 0;
    }
  }

  /** A keyboard key as the handlers see it. */
  datatype Key = ArrowLeft | ArrowRight | ArrowUp | ArrowDown | OtherKey

  /**
   * The arrow-key handler of both canvas games: ArrowLeft moves `step` left
   * only while x is right of `leftGate`, ArrowRight moves `step` right only
   * while x is left of `rightGate`; any other key changes nothing.
   */
  function LaneStep(x: real, key: Key, step: real, leftGate: real, rightGate: real): real {
    match key
    case ArrowLeft => if x > leftGate then x - step else x
    case ArrowRight => if x < rightGate then x + step else x
    case _ => x
  }

  /** A position within one step of the gates stays within one step of them: the player cannot leave the corridor. */
  lemma LaneStepStaysInCorridor(x: real, key: Key, step: real, leftGate: real, rightGate: real)
    requires step >= 0.0
    requires leftGate - step <= x <= rightGate + step
    ensures var x' := LaneStep(x, key, step, leftGate, rightGate);
      leftGate - step <= x' <= rightGate + step
  {
  }

  /** Each key press moves by exactly one step or not at all, and only the arrow keys move. */
  lemma LaneStepMoves(x: real, key: Key, step: real, leftGate: real, rightGate: real)
    ensures var x' := LaneStep(x, key, step, leftGate, rightGate);
      && (key == ArrowLeft ==> (x' == x - step <==> x > leftGate || step == 0.0) && (x' == x || x' == x - step))
      && (key == ArrowRight ==> (x' == x + step <==> x < rightGate || step == 0.0) && (x' == x || x' == x + step))
      && (key != ArrowLeft && key != ArrowRight ==> x' == x)
  {
  }
}
