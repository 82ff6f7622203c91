/** The game component's state and the handlers that change it. Each firing of
    one of the component's intervals becomes one method call: SpawnTube and
    TubeTick for the tube timers, SpawnCloud and CloudTick for the cloud timers. */
module GameState {
  import opened Entities
  import Collision
  import TubeTrack
  import CloudTrack
  import Spawn

  datatype Phase = Idle | Running | Over

  /** The bird's starting height: h/2 - birdHeight/2. */
  function StartY(h: int): real
  {
    h as real / 2.0 - BirdHeight as real / 2.0
  }

  class Game {
    const width: int
    const height: int

    var gameStarted: bool
    var gameOver: bool
    var score: nat
    var birdY: real
    var velocity: int
    var isJumping: bool
    var tubes: seq<Tube>
    var clouds: seq<Cloud>
    /** Points earned by tubes that have since left the list. */
    ghost var retired: nat

    /** Each point is owned by exactly one tube: a flagged tube still in the
        list, or one that has left it. */
    ghost predicate Valid()
      reads this
    {
      score == TubeTrack.PassedCount(tubes) + retired
    }

    ghost function CurrentPhase(): Phase
      reads this
    {
      if gameOver then Over else if gameStarted then Running else Idle
    }

    /** The state that restartGame produces. */
    ghost predicate IsReset()
      reads this
    {
      !gameStarted && !gameOver && score == 0 && birdY == StartY(height) && velocity == 0 &&
      tubes == [] && clouds == [] && retired == 0
    }

    /** The component as first rendered: the reset state, not jumping. */
    constructor (w: int, h: int)
      ensures width == w && height == h
      ensures Valid() && IsReset() && !isJumping
    {
      width, height := w, h;
      gameStarted, gameOver := false, false;
      score, birdY, velocity, isJumping := 0, StartY(h), 0, false;
      tubes, clouds := [], [];
      retired := 0;
    }

    /** Scans the tubes in order and sets gameOver at the first tube hit.
        It never clears gameOver and changes nothing else. */
    method DetectCollision()
      requires Valid()
      modifies this`gameOver
      ensures Valid()
      ensures gameOver == (old(gameOver) || Collision.AnyHit(width, birdY, tubes))
    {
      var i := 0;
      while i < |tubes|
        invariant 0 <= i <= |tubes|
        invariant gameOver == old(gameOver)
        invariant forall j :: 0 <= j < i ==> !Collision.Hit(width, birdY, tubes[j])
      {
        if Collision.HitsUpper(width, birdY, tubes[i]) {
          gameOver := true;
          return;
        }
        if Collision.HitsLower(width, birdY, tubes[i]) {
          gameOver := true;
          return;
        }
        i := i + 1;
      }
    }

    /** The scoring pass of a tube tick: flags every unflagged tube whose
        trailing edge is at or left of the centre, one point per flag. */
    method ScoreTubes()
      requires Valid()
      modifies this`tubes, this`score
      ensures Valid()
      ensures tubes == TubeTrack.MarkPassed(width, old(tubes))
      ensures score == old(score) + TubeTrack.NewlyPassed(width, old(tubes))
    {
      ghost var prev := tubes;
      var i := 0;
      while i < |tubes|
        invariant 0 <= i <= |tubes| == |prev|
        invariant forall j :: 0 <= j < i ==> tubes[j] == TubeTrack.Mark(width, prev[j])
        invariant forall j :: i <= j < |tubes| ==> tubes[j] == prev[j]
        invariant score == old(score) + TubeTrack.NewlyPassed(width, prev[..i])
      {
        assert prev[..i + 1][..i] == prev[..i];
        if (tubes[i].x + TubeWidth) as real <= Centre(width) && !tubes[i].passed {
          score := score + 1;
          tubes := tubes[i := tubes[i].(passed := true)];
        }
        i := i + 1;
      }
      assert prev[..i] == prev;
      assert tubes == TubeTrack.MarkPassed(width, prev);
      TubeTrack.ScoreMatchesNewFlags(width, prev);
    }

    /** One firing of the tube-moving interval, which exists only while the
        game runs: the scoring pass on the old positions, then the move-and-filter pass. */
    method TubeTick()
      requires Valid()
      modifies this`tubes, this`score, this`retired
      ensures Valid()
      ensures old(CurrentPhase()) == Running ==>
                tubes == TubeTrack.MoveTubes(TubeTrack.MarkPassed(width, old(tubes))) &&
                score == old(score) + TubeTrack.NewlyPassed(width, old(tubes))
      ensures old(CurrentPhase()) != Running ==> tubes == old(tubes) && score == old(score)
    {
      if gameStarted && !gameOver {
        ScoreTubes();
        var marked := tubes;
        tubes := TubeTrack.MoveTubes(marked);
        TubeTrack.MoveKeepsFlags(marked);
        retired := retired + (TubeTrack.PassedCount(marked) - TubeTrack.PassedCount(tubes));
      }
    }

    /** One firing of the cloud-moving interval, which runs in every phase. */
    method CloudTick()
      requires Valid()
      modifies this`clouds
      ensures Valid()
      ensures clouds == CloudTrack.MoveClouds(old(clouds))
    {
      clouds := CloudTrack.MoveClouds(clouds);
    }

    /** One firing of the tube-spawning interval, which exists only while the
        game runs; r is the random draw. */
    method SpawnTube(r: real)
      requires Valid()
      requires 0.0 <= r < 1.0
      modifies this`tubes
      ensures Valid()
      ensures old(CurrentPhase()) == Running ==>
                tubes == old(tubes) + [Tube(width, Spawn.TubeHeight(height, r), false)]
      ensures old(CurrentPhase()) == Running && height > TubeGap ==>
                0 <= tubes[|tubes| - 1].topHeight < height - TubeGap
      ensures old(CurrentPhase()) != Running ==> tubes == old(tubes)
    {
      if gameStarted && !gameOver {
        var t := Tube(width, Spawn.TubeHeight(height, r), false);
        assert (tubes + [t])[..|tubes|] == tubes;
        tubes := tubes + [t];
      }
    }

    /** One firing of the cloud-spawning interval, which runs in every phase;
        r is the random draw. */
    method SpawnCloud(r: real)
      requires Valid()
      requires 0.0 <= r < 1.0
      modifies this`clouds
      ensures Valid()
      ensures clouds == old(clouds) + [Cloud(width, Spawn.CloudPosition(height, r))]
      ensures height > CloudBand ==> 0 <= clouds[|clouds| - 1].y < height - CloudBand
    {
      clouds := clouds + [Cloud(width, Spawn.CloudPosition(height, r))];
    }

    method Jump()
      requires Valid()
      modifies this`velocity, this`isJumping
      ensures Valid()
      ensures velocity == JumpStrength && isJumping
    {
      velocity := JumpStrength;
      isJumping := true;
    }

    /** The pointer handler: starts an idle game, jumps in a running one,
        and ignores the tap after game over. */
    method HandleJump()
      requires Valid()
      modifies this`gameStarted, this`velocity, this`isJumping
      ensures Valid()
      ensures old(CurrentPhase()) == Idle ==>
                gameStarted && velocity == InitialUpwardVelocity && isJumping == old(isJumping)
      ensures old(CurrentPhase()) == Running ==>
                gameStarted && velocity == JumpStrength && isJumping
      ensures old(CurrentPhase()) == Over ==> unchanged(this)
    {
      if gameStarted && !gameOver {
        Jump();
      } else if !gameStarted && !gameOver {
        gameStarted := true;
        velocity := InitialUpwardVelocity;
      }
    }

    /** The keyboard handler. Only the space bar acts: it starts an idle game,
        and jumps whenever the game has started, game over or not. */
    method HandleKeyPress(key: string)
      requires Valid()
      modifies this`gameStarted, this`velocity, this`isJumping
      ensures Valid()
      ensures key != " " ==> unchanged(this)
      ensures key == " " && old(CurrentPhase()) == Idle ==>
                gameStarted && velocity == InitialUpwardVelocity && isJumping == old(isJumping)
      ensures key == " " && old(gameStarted) ==>
                gameStarted && velocity == JumpStrength && isJumping
      ensures key == " " && !old(gameStarted) && old(gameOver) ==> unchanged(this)
    {
      if key == " " && !gameStarted && !gameOver {
        gameStarted := true;
        velocity := InitialUpwardVelocity;
      } else if key == " " && gameStarted {
        Jump();
      }
    }

    /** Back to the reset state; isJumping is left as it was. Restarting a
        game that is already reset changes nothing. */
    method RestartGame()
      requires Valid()
      modifies this`gameStarted, this`gameOver, this`score, this`birdY, this`velocity,
               this`tubes, this`clouds, this`retired
      ensures Valid() && IsReset()
      ensures old(IsReset()) ==> unchanged(this)
    {
      gameStarted := false;
      gameOver := false;
      score := 0;
      birdY := StartY(height);
      velocity := 0;
      tubes := [];
      clouds := [];
      retired := 0;
    }
  }
}
