/** The player's vertical motion: gravity with a ground clamp, and the jump impulse. */
module Physics {
  import opened Layout

  /** The player's vertical state: top edge, velocity (positive is downward) and
      whether a jump is in progress. */
  datatype Dino = Dino(y: real, vy: real, jumping: bool)

  /** A player standing on the ground line at rest. */
  const Resting: Dino := Dino(GroundLine, 0.0, false)

  /** One tick of gravity: accelerate, move, and clamp to the ground line. */
  function Fall(d: Dino): (r: Dino)
    ensures r.y <= GroundLine
    ensures d.y + d.vy + Gravity > GroundLine ==> r == Resting
    ensures d.y + d.vy + Gravity <= GroundLine ==> r.vy == d.vy + Gravity && r.y == d.y + r.vy && r.jumping == d.jumping
  {
    var vy := d.vy + Gravity;
    var y := d.y + vy;
    if y > GroundLine then Resting else Dino(y, vy, d.jumping)
  }

  /** A jump request: an upward impulse unless a jump is already in progress. */
  function Jumped(d: Dino): (r: Dino)
    ensures r.jumping && r.y == d.y
    ensures d.jumping ==> r == d
    ensures !d.jumping ==> r.vy == JumpVelocity
  {
    if d.jumping then d else Dino(d.y, JumpVelocity, true)
  }

  /** No double jump: a second request while airborne changes nothing. */
  lemma JumpedIdempotent(d: Dino)
    ensures Jumped(Jumped(d)) == Jumped(d)
  {
  }

  /** The player after n ticks of gravity with no jump request. */
  function FallN(d: Dino, n: nat): Dino
  {
    if n == 0 then d else Fall(FallN(d, n - 1))
  }

  /** The arc of a jump from rest, in closed form: after k <= 49 ticks the player is
      0.3 * k * (49 - k) above the ground line, still jumping, with velocity
      -15 + 0.6 * k. On tick 49 it is back on the ground line without having landed. */
  lemma {:induction false} JumpArc(k: nat)
    requires k <= 49
    ensures FallN(Jumped(Resting), k)
         == Dino(GroundLine + 0.3 * (k as real) * (k as real - 49.0), JumpVelocity + Gravity * (k as real), true)
  {
    if k > 0 {
      JumpArc(k - 1);
      var prev := FallN(Jumped(Resting), k - 1);
      var j := (k - 1) as real;
      var vy := prev.vy + Gravity;
      assert vy == JumpVelocity + Gravity * (k as real);
      ArcStep(j);
      ProductNonPositive(j + 1.0, j - 48.0);
      assert prev.y + vy == GroundLine + 0.3 * (j + 1.0) * (j - 48.0);
    }
  }

  /** One step of the arc's closed form. */
  lemma ArcStep(j: real)
    ensures 0.3 * j * (j - 49.0) + JumpVelocity + Gravity * (j + 1.0) == 0.3 * (j + 1.0) * (j - 48.0)
  {
  }

  lemma ProductNonPositive(a: real, b: real)
    requires a >= 0.0 && b <= 0.0
    ensures a * b <= 0.0
  {
  }

  /** A jump from rest lasts exactly 50 ticks: airborne (so further jump requests do
      nothing) on every tick before, resting on the ground line on the fiftieth. */
  lemma JumpLandsOnFiftiethTick()
    ensures forall k :: 0 <= k < 50 ==> FallN(Jumped(Resting), k).jumping
    ensures FallN(Jumped(Resting), 50) == Resting
  {
    forall k | 0 <= k < 50
      ensures FallN(Jumped(Resting), k).jumping
    {
      JumpArc(k);
    }
    JumpArc(49);
  }
}
