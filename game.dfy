/** The mini-game component: its lifecycle state machine and the mutable session
    the animation loop updates in place. One call of GameLoop is one animation-frame
    callback; one call of CountdownTick is one firing of the one-second timer. */
module Game {
  import opened Layout
  import opened Physics
  import opened Obstacles
  import opened Collision
  import opened Scoring

  datatype GameState = Countdown | Playing | GameOver

  const CountdownStart: int := 3
  /** The spawn threshold a fresh session starts with. */
  const FirstSpawnFrame: real := 100.0
  /** The speed the component is created with, before any session has started. */
  const InitialSpeed: real := 5.0

  /** Everything a tick may change except the lifecycle state and the countdown. */
  datatype Session = Session(
    dino: Dino, obstacles: seq<Obstacle>, frameCount: int, score: int,
    displayScore: int, gameSpeed: real, nextObstacleFrame: real, looping: bool)

  class DinoGame {
    var gameState: GameState
    var countdown: int
    var displayScore: int

    var dinoY: real
    var dinoVelocityY: real
    var isJumping: bool
    var obstacles: seq<Obstacle>
    var frameCount: int
    var score: int
    var gameSpeed: real
    var nextObstacleFrame: real

    /** An animation-frame callback is pending: the loop is running. */
    var looping: bool

    ghost predicate Valid()
      reads this
    {
      && dinoY <= GroundLine
      && AllOnScreen(obstacles)
      && 0 <= score && frameCount == score
      && displayScore == DisplayScore(score)
      && (gameSpeed == SpeedAt(score) || (gameState == Countdown && score == 0 && gameSpeed == InitialSpeed))
      && (if gameState == Countdown then 1 <= countdown <= CountdownStart else countdown == 0)
      && (looping ==> gameState == Playing)
    }

    function Player(): Dino
      reads this
    {
      Dino(dinoY, dinoVelocityY, isJumping)
    }

    ghost function Snapshot(): Session
      reads this
    {
      Session(Player(), obstacles, frameCount, score, displayScore, gameSpeed, nextObstacleFrame, looping)
    }

    /** The state right after a session starts: reset, then the first loop tick run. */
    ghost predicate JustStarted()
      reads this
    {
      && gameState == Playing && looping
      && Player() == Resting && obstacles == []
      && frameCount == 1 && score == 1 && displayScore == 0
      && gameSpeed == StartSpeed && nextObstacleFrame == FirstSpawnFrame
    }

    /** The component as first mounted. */
    constructor ()
      ensures Valid()
      ensures gameState == Countdown && countdown == CountdownStart
      ensures Snapshot() == Session(Dino(0.0, 0.0, false), [], 0, 0, 0, InitialSpeed, FirstSpawnFrame, false)
    {
      gameState := Countdown;
      countdown := CountdownStart;
      displayScore := 0;
      dinoY := 0.0;
      dinoVelocityY := 0.0;
      isJumping := false;
      obstacles := [];
      frameCount := 0;
      score := 0;
      gameSpeed := InitialSpeed;
      nextObstacleFrame := FirstSpawnFrame;
      looping := false;
    }

    /** One firing of the countdown timer. The timer exists only in the countdown
        state, so elsewhere nothing happens; the tick that finds 1 starts the game. */
    method CountdownTick()
      requires Valid()
      modifies this
      ensures Valid()
      ensures old(gameState) != Countdown ==>
        gameState == old(gameState) && countdown == old(countdown) && Snapshot() == old(Snapshot())
      ensures old(gameState) == Countdown && old(countdown) != 1 ==>
        gameState == Countdown && countdown == old(countdown) - 1 && Snapshot() == old(Snapshot())
      ensures old(gameState) == Countdown && old(countdown) == 1 ==>
        countdown == 0 && JustStarted()
    {
      if gameState != Countdown {
        return;
      }
      if countdown == 1 {
        countdown := 0;
        gameState := Playing;
        StartGame();
      } else {
        countdown := countdown - 1;
      }
    }

    /** Reset the session and run the first loop tick at once. */
    method StartGame()
      requires gameState == Playing && countdown == 0 && !looping
      modifies this
      ensures Valid() && JustStarted() && countdown == 0
    {
      ResetSession();
      looping := true;
      // Frame 0 is not past the first threshold, so no draw is consumed.
      GameLoop(true, SpawnDraws(0.0, 0.0, 0.0, 0.0, 0.0));
    }

    /** The reset half of starting: player grounded and at rest, no obstacles,
        counters zero, start speed, first spawn threshold. */
    method ResetSession()
      requires gameState == Playing && countdown == 0 && !looping
      modifies this`dinoY, this`dinoVelocityY, this`isJumping, this`obstacles, this`frameCount,
        this`score, this`displayScore, this`gameSpeed, this`nextObstacleFrame
      ensures Valid()
      ensures Snapshot() == Session(Resting, [], 0, 0, 0, StartSpeed, FirstSpawnFrame, false)
    {
      dinoY := CanvasHeight - GroundHeight - DinoHeight;
      dinoVelocityY := 0.0;
      isJumping := false;
      obstacles := [];
      frameCount := 0;
      score := 0;
      displayScore := 0;
      gameSpeed := StartSpeed;
      nextObstacleFrame := FirstSpawnFrame;
    }

    /** One animation-frame callback. Without a drawing surface it does nothing and
        schedules no further frame. Otherwise: gravity, obstacles, collision; a hit
        ends the game and the loop with score, frames and speed as they were; a tick
        survived adds a point and a frame, updates the displayed score and the speed,
        and schedules the next frame. */
    method GameLoop(canvasAvailable: bool, draws: SpawnDraws)
      requires Valid() && looping && draws.Valid()
      modifies this
      ensures Valid()
      ensures countdown == old(countdown)
      ensures !canvasAvailable ==> gameState == old(gameState) && Snapshot() == old(Snapshot()).(looping := false)
      ensures canvasAvailable ==> Player() == Fall(old(Player()))
      ensures canvasAvailable ==>
        var spawn := old(frameCount) as real > old(nextObstacleFrame);
        && obstacles == Live(Shifted(old(obstacles) + (if spawn then SpawnGroup(draws) else []), old(gameSpeed)))
        && nextObstacleFrame == if spawn then NextSpawnFrame(old(frameCount), old(gameSpeed), draws.distance) else old(nextObstacleFrame)
      ensures canvasAvailable && Collides(dinoY, obstacles) ==>
        && gameState == GameOver && !looping
        && score == old(score) && frameCount == old(frameCount)
        && displayScore == old(displayScore) && gameSpeed == old(gameSpeed)
      ensures canvasAvailable && !Collides(dinoY, obstacles) ==>
        && gameState == Playing && looping
        && score == old(score) + 1 && frameCount == old(frameCount) + 1
        && displayScore == DisplayScore(score) && gameSpeed == SpeedAfterPoint(old(gameSpeed), score)
    {
      if !canvasAvailable {
        looping := false;
        return;
      }

      ApplyGravity();

      ghost var spawn := frameCount as real > nextObstacleFrame;
      ghost var before := obstacles + if spawn then SpawnGroup(draws) else [];
      SpawnWellFormed(obstacles, draws, spawn);
      UpdateObstacles(draws);
      MovePruneWellFormed(before, gameSpeed, obstacles);

      var hit := CheckCollision();
      FinishFrame(hit);
    }

    /** The end of a tick: a hit ends the game and the loop; otherwise a point is
        added and the next frame stays scheduled. */
    method FinishFrame(hit: bool)
      requires Valid() && looping
      modifies this`gameState, this`looping, this`score, this`displayScore, this`gameSpeed, this`frameCount
      ensures Valid()
      ensures hit ==>
        && gameState == GameOver && !looping
        && score == old(score) && frameCount == old(frameCount)
        && displayScore == old(displayScore) && gameSpeed == old(gameSpeed)
      ensures !hit ==>
        && gameState == Playing && looping
        && score == old(score) + 1 && frameCount == old(frameCount) + 1
        && displayScore == DisplayScore(score) && gameSpeed == SpeedAfterPoint(old(gameSpeed), score)
    {
      if hit {
        gameState := GameOver;
        looping := false;
        return;
      }
      AddPoint();
    }

    /** The player's part of a tick: gravity, then the ground clamp. */
    method ApplyGravity()
      modifies this`dinoY, this`dinoVelocityY, this`isJumping
      ensures Player() == Fall(old(Player()))
    {
      dinoVelocityY := dinoVelocityY + Gravity;
      dinoY := dinoY + dinoVelocityY;
      if dinoY > CanvasHeight - GroundHeight - DinoHeight {
        dinoY := CanvasHeight - GroundHeight - DinoHeight;
        dinoVelocityY := 0.0;
        isJumping := false;
      }
    }

    /** The bookkeeping of a survived tick: a point, the displayed score, the speed
        step on every 50th point, and a frame. */
    method AddPoint()
      requires 0 <= score && frameCount == score && gameSpeed == SpeedAt(score)
      modifies this`score, this`displayScore, this`gameSpeed, this`frameCount
      ensures score == old(score) + 1 && frameCount == old(frameCount) + 1
      ensures displayScore == DisplayScore(score)
      ensures gameSpeed == SpeedAfterPoint(old(gameSpeed), score) == SpeedAt(score)
    {
      SpeedAtStep(score);
      score := score + 1;
      displayScore := score / PointsPerDisplayed;
      if score > 0 && score % SpeedInterval == 0 {
        gameSpeed := gameSpeed + SpeedIncrement;
      }
      frameCount := frameCount + 1;
    }

    /** Spawn a group when the frame count has passed the threshold, then move every
        obstacle (a new one included) left by the current speed in place, then keep
        only those still on screen. */
    method UpdateObstacles(draws: SpawnDraws)
      requires draws.Valid() && gameSpeed > 0.0
      modifies this`obstacles, this`nextObstacleFrame
      ensures var spawn := frameCount as real > old(nextObstacleFrame);
        && obstacles == Live(Shifted(old(obstacles) + (if spawn then SpawnGroup(draws) else []), gameSpeed))
        && nextObstacleFrame == if spawn then NextSpawnFrame(frameCount, gameSpeed, draws.distance) else old(nextObstacleFrame)
    {
      ghost var spawn := frameCount as real > nextObstacleFrame;
      if frameCount as real > nextObstacleFrame {
        obstacles := obstacles + [NewObstacle(CanvasWidth, draws.height)];
        if draws.pair > PairThreshold {
          var gap := draws.pairGap * PairGapRange + MinPairGap;
          obstacles := obstacles + [NewObstacle(CanvasWidth + ObstacleWidth + gap, draws.pairHeight)];
        }
        assert obstacles == old(obstacles) + SpawnGroup(draws);
        nextObstacleFrame := NextSpawnFrame(frameCount, gameSpeed, draws.distance);
      }
      assert obstacles == old(obstacles) + (if spawn then SpawnGroup(draws) else []);

      MoveObstacles();
      obstacles := Live(obstacles);
    }

    /** Move every obstacle left by the current speed, in place. */
    method MoveObstacles()
      modifies this`obstacles
      ensures obstacles == Shifted(old(obstacles), gameSpeed)
    {
      var i := 0;
      while i < |obstacles|
        invariant 0 <= i <= |obstacles| == |old(obstacles)|
        invariant forall k :: 0 <= k < i ==> obstacles[k] == old(obstacles[k]).(x := old(obstacles[k]).x - gameSpeed)
        invariant forall k :: i <= k < |obstacles| ==> obstacles[k] == old(obstacles[k])
      {
        obstacles := obstacles[i := obstacles[i].(x := obstacles[i].x - gameSpeed)];
        i := i + 1;
      }
    }

    /** Whether the player's rectangle overlaps some obstacle; changes nothing. */
    method CheckCollision() returns (hit: bool)
      ensures hit == Collides(dinoY, obstacles)
    {
      var dino := Rect(DinoX, dinoY, DinoWidth, DinoHeight);
      for i := 0 to |obstacles|
        invariant forall k :: 0 <= k < i ==> !Hits(dinoY, obstacles[k])
      {
        var o := obstacles[i];
        if && dino.x < o.x + o.width && dino.x + dino.width > o.x
           && dino.y < o.y + o.height && dino.y + dino.height > o.y
        {
          return true;
        }
      }
      return false;
    }

    /** An upward impulse, unless already airborne. */
    method Jump()
      modifies this`dinoVelocityY, this`isJumping
      ensures Player() == Jumped(old(Player()))
    {
      if !isJumping {
        dinoVelocityY := JumpVelocity;
        isJumping := true;
      }
    }

    /** A key press: the space key jumps, and only while playing. */
    method KeyDown(isSpace: bool)
      requires Valid()
      modifies this`dinoVelocityY, this`isJumping
      ensures Valid()
      ensures Player() == if isSpace && gameState == Playing then Jumped(old(Player())) else old(Player())
    {
      if isSpace && gameState == Playing {
        Jump();
      }
    }

    /** The restart button, shown only once the game is over: back to the countdown,
        restarting it from 3. The session itself is reset when the countdown ends. */
    method Restart()
      requires Valid() && gameState == GameOver
      modifies this`countdown, this`gameState
      ensures Valid()
      ensures gameState == Countdown && countdown == CountdownStart
    {
      countdown := CountdownStart;
      gameState := Countdown;
    }
  }
}
