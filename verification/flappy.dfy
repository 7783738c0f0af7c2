/**
 * The game objects of FlappyBirdGame: the bird, the pipe manager and the
 * game itself, as classes whose methods change their fields in place.
 *
 * In the game the inner classes read the enclosing game's `gameover` flag;
 * here that flag is passed to Bird.Update and PipeManager.Update as a
 * parameter. Each mutating method is proved to do to its fields what the
 * matching function of module Physics says.
 */
module Flappy {
  import opened Physics

  class Bird {
    var x: int
    var y: int
    var velocity: int

    constructor (x0: int, y0: int)
      ensures x == x0 && y == y0 && velocity == 0
    {
      x, y, velocity := x0, y0, 0;
    }

    ghost function Snapshot(): BirdState
      reads this
    {
      BirdState(x, y, velocity)
    }

    /** Gravity, then move; nothing once the game is over. */
    method Update(gameover: bool)
      modifies this
      ensures Snapshot() == BirdStep(old(Snapshot()), gameover)
      ensures x == old(x)
      ensures gameover ==> y == old(y) && velocity == old(velocity)
      ensures !gameover ==> velocity == old(velocity) + GRAVITY && y == old(y) + velocity
    {
      if gameover {
        return;
      }
      velocity := velocity + GRAVITY;
      y := y + velocity;
    }

    function GetX(): int
      reads this
    {
      x
    }

    function GetY(): int
      reads this
    {
      y
    }

    function GetHeight(): int
    {
      BIRD_HEIGHT
    }
  }

  class PipeManager {
    /** The pipes in spawn order, which is also left-to-right order. */
    var pipes: seq<Pipe>

    constructor ()
      ensures pipes == []
    {
      pipes := [];
    }

    /** Move every pipe, drop those that left the window, and append a new
        pipe at the right edge when one is due. */
    method Update(gameover: bool, h: int)
      requires 0 <= h < HEIGHT_BOUND
      modifies this
      ensures pipes == PipesStep(old(pipes), gameover, h)
    {
      if gameover {
        return;
      }
      ghost var P0 := pipes;
      ghost var k := 0;
      var i := 0;
      while i < |pipes|
        invariant 0 <= i <= |pipes| && 0 <= k <= |P0|
        invariant pipes[..i] == Prune(P0[..k])
        invariant pipes[i..] == P0[k..]
        decreases |pipes| - i
      {
        var pipe := Moved(pipes[i]);
        assert pipes[i] == P0[k] by {
          assert pipes[i..][0] == P0[k..][0];
        }
        assert pipes[i + 1..] == P0[k + 1..] by {
          assert pipes[i + 1..] == pipes[i..][1..];
          assert P0[k + 1..] == P0[k..][1..];
        }
        PruneSnoc(P0, k);
        pipes := pipes[i := pipe];
        if pipe.x + PIPE_WIDTH < 0 {
          pipes := pipes[..i] + pipes[i + 1..];
          i := i - 1;
        } else {
          assert pipes[..i + 1] == pipes[..i] + [pipe];
        }
        i := i + 1;
        k := k + 1;
      }
      assert P0[..k] == P0;
      assert pipes == Prune(P0);
      if |pipes| == 0 || WIDTH - pipes[|pipes| - 1].x >= PIPE_DELAY {
        pipes := pipes + [Pipe(WIDTH, h)];
      }
    }

    /** Whether the bird's box hits some pipe outside its gap. */
    method CheckCollision(bird: Bird) returns (hit: bool)
      ensures hit == Collides(bird.Snapshot(), pipes)
    {
      var i := 0;
      while i < |pipes|
        invariant 0 <= i <= |pipes|
        invariant forall j :: 0 <= j < i ==> !Hits(bird.Snapshot(), pipes[j])
      {
        var pipe := pipes[i];
        if bird.GetX() + BIRD_WIDTH > pipe.x && bird.GetX() < pipe.x + PIPE_WIDTH {
          if bird.GetY() < pipe.height || bird.GetY() + bird.GetHeight() > pipe.height + PIPE_GAP {
            return true;
          }
        }
        i := i + 1;
      }
      return false;
    }

    /** Whether some pipe's right edge is exactly at `x`. */
    method IsPipePassed(x: int) returns (passed: bool)
      ensures passed == Passed(x, pipes)
    {
      var i := 0;
      while i < |pipes|
        invariant 0 <= i <= |pipes|
        invariant forall j :: 0 <= j < i ==> pipes[j].x + PIPE_WIDTH != x
      {
        if x == pipes[i].x + PIPE_WIDTH {
          return true;
        }
        i := i + 1;
      }
      return false;
    }
  }

  class FlappyBirdGame {
    const bird: Bird
    const pipeManager: PipeManager
    var score: int
    var gameover: bool

    ghost function State(): World
      reads this, bird, pipeManager
    {
      World(bird.Snapshot(), pipeManager.pipes, score, gameover)
    }

    constructor ()
      ensures State() == Initial()
      ensures fresh(bird) && fresh(pipeManager)
    {
      bird := new Bird(START_X, HEIGHT / 2);
      pipeManager := new PipeManager();
      score := 0;
      gameover := false;
    }

    /** One timer tick, with `h` the height the random source draws if a pipe
        is spawned. */
    method Update(h: int)
      requires 0 <= h < HEIGHT_BOUND
      modifies this, bird, pipeManager
      ensures State() == Tick(old(State()), h)
      ensures old(gameover) ==> gameover
      ensures old(score) <= score <= old(score) + 1
    {
      if gameover {
        return;
      }
      bird.Update(gameover);
      var crashed := bird.GetY() + bird.GetHeight() >= HEIGHT;
      if !crashed {
        crashed := pipeManager.CheckCollision(bird);
      }
      if crashed {
        gameover := true;
      }
      pipeManager.Update(gameover, h);
      var passed := pipeManager.IsPipePassed(bird.GetX());
      if passed {
        score := score + 1;
      }
    }

    /** The space-bar handler: the velocity is overwritten even after game over. */
    method Jump()
      modifies bird
      ensures bird.velocity == -JUMP_POWER
      ensures bird.x == old(bird.x) && bird.y == old(bird.y)
      ensures State() == Physics.Jump(old(State()))
    {
      bird.velocity := -JUMP_POWER;
    }
  }
}
