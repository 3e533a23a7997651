/** End-to-end runs of the component, proved from the operations' contracts alone. */
module Scenarios {
  import opened Layout
  import opened Physics
  import opened Obstacles
  import opened Collision
  import opened Scoring
  import opened Game

  /** Draws for ticks on which no spawn can happen; none of them is consumed. */
  const Unused: SpawnDraws := SpawnDraws(0.0, 0.0, 0.0, 0.0, 0.0)

  /** Mount the game, let the countdown run out, then survive 49 more frames without
      input: no obstacle is due before frame 100, so play goes on and 50 points show
      as a displayed score of 10. */
  method FiftyPointsWithoutInput() returns (g: DinoGame)
    ensures g.Valid() && g.gameState == Playing && g.looping
    ensures g.score == 50 && g.displayScore == 10 && g.obstacles == []
  {
    g := new DinoGame();
    g.CountdownTick();
    g.CountdownTick();
    g.CountdownTick();
    var i := 1;
    while i < 50
      invariant 1 <= i <= 50
      invariant g.Valid() && g.looping
      invariant g.score == i && g.obstacles == [] && g.nextObstacleFrame == FirstSpawnFrame
    {
      g.GameLoop(true, Unused);
      i := i + 1;
    }
  }

  /** An obstacle that reaches the grounded player on the next frame ends the game on
      that frame, with the score as it was; no further frame is scheduled. */
  method HitEndsGame(g: DinoGame)
    requires g.Valid() && g.looping
    requires g.Player() == Resting
    requires g.frameCount as real <= g.nextObstacleFrame
    requires g.obstacles == [NewObstacle(DinoX + g.gameSpeed, 0.5)]
    modifies g
    ensures g.Valid() && g.gameState == GameOver && !g.looping
    ensures g.score == old(g.score) && g.displayScore == old(g.displayScore)
  {
    ghost var o := NewObstacle(DinoX + g.gameSpeed, 0.5);
    g.GameLoop(true, Unused);
    assert Shifted([o], old(g.gameSpeed))[0] == o.(x := DinoX);
    assert g.obstacles == [o.(x := DinoX)];
    assert Hits(g.dinoY, g.obstacles[0]);
  }

  /** Restarting from game over shows a countdown from 3; three timer ticks later a
      fresh session is playing: no obstacles, start speed, score back to its first point. */
  method RestartRunsFreshSession(g: DinoGame)
    requires g.Valid() && g.gameState == GameOver
    modifies g
    ensures g.Valid() && g.JustStarted()
    ensures g.obstacles == [] && g.gameSpeed == StartSpeed && g.displayScore == 0
  {
    g.Restart();
    assert g.countdown == 3;
    g.CountdownTick();
    g.CountdownTick();
    g.CountdownTick();
  }

  /** Pressing space while grounded gives the jump impulse; pressing it again before
      landing does not change the velocity. */
  method NoDoubleJump(g: DinoGame)
    requires g.Valid() && g.gameState == Playing && !g.isJumping
    modifies g
    ensures g.Valid() && g.isJumping && g.dinoVelocityY == JumpVelocity
  {
    g.KeyDown(true);
    assert g.dinoVelocityY == JumpVelocity;
    g.KeyDown(true);
  }
}
