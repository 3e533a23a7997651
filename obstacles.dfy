/** Obstacle spawning, movement and pruning. Every random draw of the spawner is an
    input: a value in [0, 1), as a uniform random source would produce. */
module Obstacles {
  import opened Layout

  datatype Obstacle = Obstacle(x: real, y: real, width: real, height: real)

  const MinObstacleHeight: real := 20.0
  const ObstacleHeightRange: real := 40.0
  const MinPairGap: real := 250.0
  const PairGapRange: real := 100.0
  /** A pair is spawned when its draw exceeds this. */
  const PairThreshold: real := 0.5

  predicate IsDraw(r: real)
  {
    0.0 <= r < 1.0
  }

  /** The draws one spawn may consume, in the order they are taken: the first height,
      the pair decision, the second height, the pair gap, and the distance to the next
      group. Draws that a spawn does not take are ignored. */
  datatype SpawnDraws = SpawnDraws(height: real, pair: real, pairHeight: real, pairGap: real, distance: real)
  {
    predicate Valid()
    {
      IsDraw(height) && IsDraw(pair) && IsDraw(pairHeight) && IsDraw(pairGap) && IsDraw(distance)
    }
  }

  /** An obstacle as spawned: standard width, height in [20, 60), standing on the floor. */
  predicate WellFormed(o: Obstacle)
  {
    && o.width == ObstacleWidth
    && MinObstacleHeight <= o.height < MinObstacleHeight + ObstacleHeightRange
    && o.y == Floor - o.height
  }

  /** Some part of the obstacle is still right of the canvas's left edge. */
  predicate IsLive(o: Obstacle)
  {
    o.x + o.width > 0.0
  }

  /** Every obstacle of the list is well formed and live: what the live set holds
      between ticks. */
  predicate AllOnScreen(s: seq<Obstacle>)
  {
    forall i :: 0 <= i < |s| ==> WellFormed(s[i]) && IsLive(s[i])
  }

  /** A new obstacle at horizontal position x, its height taken from one draw. */
  function NewObstacle(x: real, heightDraw: real): (o: Obstacle)
    requires IsDraw(heightDraw)
    ensures WellFormed(o) && o.x == x
  {
    var h := heightDraw * ObstacleHeightRange + MinObstacleHeight;
    Obstacle(x, Floor - h, ObstacleWidth, h)
  }

  /** The group one spawn appends: one obstacle at the right edge and, when the pair
      draw exceeds one half, a second one 250 to 350 pixels beyond the first's right edge. */
  function SpawnGroup(d: SpawnDraws): (g: seq<Obstacle>)
    requires d.Valid()
    ensures |g| == (if d.pair > PairThreshold then 2 else 1)
    ensures forall i :: 0 <= i < |g| ==> WellFormed(g[i])
    ensures g[0].x == CanvasWidth
    ensures |g| == 2 ==> g[0].x + ObstacleWidth + MinPairGap <= g[1].x < g[0].x + ObstacleWidth + MinPairGap + PairGapRange
  {
    [NewObstacle(CanvasWidth, d.height)]
    + if d.pair > PairThreshold
      then [NewObstacle(CanvasWidth + ObstacleWidth + (d.pairGap * PairGapRange + MinPairGap), d.pairHeight)]
      else []
  }

  /** The frame at which the group after this one is due: a distance drawn from
      [width/2, width) converted to frames at the current speed. */
  function NextSpawnFrame(frame: int, speed: real, distanceDraw: real): (next: real)
    requires speed > 0.0 && IsDraw(distanceDraw)
    ensures frame as real + (CanvasWidth / 2.0) / speed <= next < frame as real + CanvasWidth / speed
    ensures next > frame as real
  {
    var minGap := CanvasWidth / 2.0;
    var maxGap := CanvasWidth;
    var distance := distanceDraw * (maxGap - minGap) + minGap;
    DivideStrict(distance, maxGap, speed);
    frame as real + distance / speed
  }

  lemma DivideStrict(a: real, b: real, s: real)
    requires a < b && s > 0.0
    ensures a / s < b / s
  {
  }

  /** Every obstacle moved left by `speed`; nothing else about any obstacle changes. */
  function Shifted(s: seq<Obstacle>, speed: real): (r: seq<Obstacle>)
    ensures |r| == |s|
    ensures forall i :: 0 <= i < |s| ==>
      r[i].x == s[i].x - speed && r[i].y == s[i].y && r[i].width == s[i].width && r[i].height == s[i].height
  {
    if s == [] then [] else [s[0].(x := s[0].x - speed)] + Shifted(s[1..], speed)
  }

  /** The obstacles still on screen, in their original order. */
  function Live(s: seq<Obstacle>): (r: seq<Obstacle>)
    ensures |r| <= |s|
    ensures forall i :: 0 <= i < |r| ==> IsLive(r[i])
  {
    if s == [] then []
    else if IsLive(s[0]) then [s[0]] + Live(s[1..])
    else Live(s[1..])
  }

  /** Pruning keeps exactly the live obstacles: an obstacle is in the result iff it
      is in the input and live. */
  lemma {:induction false} LiveMembers(s: seq<Obstacle>)
    ensures forall o :: o in Live(s) <==> o in s && IsLive(o)
  {
    if s != [] {
      LiveMembers(s[1..]);
      assert s == [s[0]] + s[1..];
    }
  }

  /** Pruning is order-preserving: it distributes over concatenation. */
  lemma {:induction false} LiveAppend(a: seq<Obstacle>, b: seq<Obstacle>)
    ensures Live(a + b) == Live(a) + Live(b)
  {
    if a == [] {
      assert a + b == b;
    } else {
      assert (a + b)[0] == a[0];
      assert (a + b)[1..] == a[1..] + b;
      LiveAppend(a[1..], b);
    }
  }

  /** Pruning removes only what is off screen: a list of live obstacles is kept whole. */
  lemma {:induction false} LiveKeepsLive(s: seq<Obstacle>)
    requires forall i :: 0 <= i < |s| ==> IsLive(s[i])
    ensures Live(s) == s
  {
    if s != [] {
      LiveKeepsLive(s[1..]);
    }
  }

  /** Pruning twice is pruning once. */
  lemma LiveIdempotent(s: seq<Obstacle>)
    ensures Live(Live(s)) == Live(s)
  {
    LiveKeepsLive(Live(s));
  }

  predicate AllWellFormed(s: seq<Obstacle>)
  {
    forall i :: 0 <= i < |s| ==> WellFormed(s[i])
  }

  /** Appending a spawned group to the live set keeps every obstacle well formed. */
  lemma SpawnWellFormed(s: seq<Obstacle>, d: SpawnDraws, spawn: bool)
    requires AllOnScreen(s) && d.Valid()
    ensures AllWellFormed(s + if spawn then SpawnGroup(d) else [])
  {
  }

  /** Moving and pruning well-formed obstacles leaves live, well-formed obstacles. */
  lemma MovePruneWellFormed(s: seq<Obstacle>, speed: real, r: seq<Obstacle>)
    requires AllWellFormed(s)
    requires r == Live(Shifted(s, speed))
    ensures AllOnScreen(r)
  {
    var m := Shifted(s, speed);
    LiveMembers(m);
    assert forall i :: 0 <= i < |m| ==> WellFormed(m[i]);
    forall i | 0 <= i < |r|
      ensures WellFormed(r[i])
    {
      assert r[i] in m;
    }
  }
}
