/** Axis-aligned bounding-box collision between the player and the obstacles. */
module Collision {
  import opened Layout
  import opened Obstacles

  datatype Rect = Rect(x: real, y: real, width: real, height: real)

  /** The open intervals (lo1, hi1) and (lo2, hi2) share a point. */
  predicate IntervalsOverlap(lo1: real, hi1: real, lo2: real, hi2: real)
  {
    lo1 < hi2 && lo2 < hi1
  }

  /** Standard AABB test with strict comparisons: rectangles that only touch along
      an edge do not overlap. */
  predicate Overlap(a: Rect, b: Rect)
  {
    && IntervalsOverlap(a.x, a.x + a.width, b.x, b.x + b.width)
    && IntervalsOverlap(a.y, a.y + a.height, b.y, b.y + b.height)
  }

  /** The point (px, py) lies strictly inside the rectangle. */
  predicate Inside(px: real, py: real, a: Rect)
  {
    a.x < px < a.x + a.width && a.y < py < a.y + a.height
  }

  function Max(a: real, b: real): real { if a < b then b else a }
  function Min(a: real, b: real): real { if a < b then a else b }

  /** For rectangles of positive size the AABB test means exactly that the two
      rectangles share an interior point. */
  lemma OverlapIffSharedInterior(a: Rect, b: Rect)
    requires a.width > 0.0 && a.height > 0.0 && b.width > 0.0 && b.height > 0.0
    ensures Overlap(a, b) <==> exists px, py :: Inside(px, py, a) && Inside(px, py, b)
  {
    if Overlap(a, b) {
      var px := (Max(a.x, b.x) + Min(a.x + a.width, b.x + b.width)) / 2.0;
      var py := (Max(a.y, b.y) + Min(a.y + a.height, b.y + b.height)) / 2.0;
      assert Inside(px, py, a) && Inside(px, py, b);
    }
  }

  /** The player's rectangle when its top edge is at dinoY. */
  function DinoRect(dinoY: real): Rect
  {
    Rect(DinoX, dinoY, DinoWidth, DinoHeight)
  }

  function ObstacleRect(o: Obstacle): Rect
  {
    Rect(o.x, o.y, o.width, o.height)
  }

  predicate Hits(dinoY: real, o: Obstacle)
  {
    Overlap(DinoRect(dinoY), ObstacleRect(o))
  }

  /** Some obstacle of the list overlaps the player. */
  ghost predicate Collides(dinoY: real, obs: seq<Obstacle>)
  {
    exists i :: 0 <= i < |obs| && Hits(dinoY, obs[i])
  }

  /** Edge-adjacent rectangles do not collide, on either axis and either side. */
  lemma EdgeAdjacentMisses(dinoY: real, o: Obstacle)
    requires || o.x == DinoX + DinoWidth || o.x + o.width == DinoX
             || o.y == dinoY + DinoHeight || o.y + o.height == dinoY
    ensures !Hits(dinoY, o)
  {
  }

  lemma CollidesCons(dinoY: real, s: seq<Obstacle>)
    requires s != []
    ensures Collides(dinoY, s) <==> Hits(dinoY, s[0]) || Collides(dinoY, s[1..])
  {
  }

  /** Pruning never hides a hit: an obstacle wholly left of the canvas cannot overlap
      the player, so the verdict is the same before and after pruning. */
  lemma {:induction false} CollidesLive(dinoY: real, s: seq<Obstacle>)
    ensures Collides(dinoY, Live(s)) <==> Collides(dinoY, s)
  {
    if s != [] {
      CollidesLive(dinoY, s[1..]);
      CollidesCons(dinoY, s);
      if IsLive(s[0]) {
        assert Live(s) == [s[0]] + Live(s[1..]);
        CollidesCons(dinoY, Live(s));
        assert Live(s)[1..] == Live(s[1..]);
      } else {
        assert !Hits(dinoY, s[0]);
      }
    }
  }
}
