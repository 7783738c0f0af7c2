/**
 * The simulation step of the Flappy Bird game, on values.
 *
 * A World is a snapshot of everything one timer tick reads and writes: the
 * bird, the ordered pipe list, the score and the game-over latch. Tick and
 * Jump say what one timer tick and one space-bar press do to a World; the
 * classes in module Flappy are proved to do exactly that to their fields.
 * The lemmas at the end are about whole runs of ticks and key presses.
 */
module Physics {

  // Window and game constants of FlappyBirdGame.
  const WIDTH: int := 600
  const HEIGHT: int := 800
  const GRAVITY: int := 1
  const JUMP_POWER: int := 10
  const PIPE_GAP: int := 200
  const PIPE_DELAY: int := 120

  // Bird.WIDTH and Bird.HEIGHT shadow the window size inside Bird.
  const BIRD_WIDTH: int := 50
  const BIRD_HEIGHT: int := 50

  // Pipe.WIDTH shadows the window width inside Pipe.
  const PIPE_WIDTH: int := 100
  const PIPE_VELOCITY: int := 3

  /** Exclusive upper bound of the random top-segment height of a new pipe. */
  const HEIGHT_BOUND: int := HEIGHT - PIPE_GAP - 100

  /** The bird starts at x = 100, half-way down the window. */
  const START_X: int := 100
  const START_Y: int := HEIGHT / 2

  datatype BirdState = BirdState(x: int, y: int, velocity: int)

  /** A pipe: its left edge `x` and the height of its top segment; the gap
      below that segment is PIPE_GAP high. */
  datatype Pipe = Pipe(x: int, height: int)

  datatype World = World(bird: BirdState, pipes: seq<Pipe>, score: int, gameover: bool)

  /** What the timer and the keyboard deliver: a tick (with the random height
      the tick would draw if it spawns a pipe) or a space-bar press. */
  datatype Input = Timer(h: int) | Space

  /** The game as the constructor sets it up: the bird at rest at (100, 400),
      no pipes, score 0, latch clear; the bird is neither on the floor nor in
      a pipe. */
  function Initial(): (r: World)
    ensures r.bird == BirdState(100, 400, 0)
    ensures r.pipes == [] && r.score == 0 && !r.gameover
    ensures r.bird.y + BIRD_HEIGHT < HEIGHT && !Collides(r.bird, r.pipes)
  {
    World(BirdState(START_X, START_Y, 0), [], 0, false)
  }

  // ---------------------------------------------------------------------
  // Bird

  /** One Bird.update: frozen once the game is over, else gravity then move. */
  function BirdStep(b: BirdState, gameover: bool): (r: BirdState)
    ensures r.x == b.x
    ensures gameover ==> r == b
    ensures !gameover ==> r.velocity - b.velocity == GRAVITY && r.y - b.y == r.velocity
  {
    if gameover then b
    else
      var v := b.velocity + GRAVITY;
      BirdState(b.x, b.y + v, v)
  }

  /** The space-bar handler writes the velocity whatever the latch says. */
  function Jump(w: World): (r: World)
    ensures r.bird.velocity == -JUMP_POWER
    ensures r.bird.x == w.bird.x && r.bird.y == w.bird.y
    ensures r.pipes == w.pipes && r.score == w.score && r.gameover == w.gameover
  {
    w.(bird := w.bird.(velocity := -JUMP_POWER))
  }

  // ---------------------------------------------------------------------
  // Pipes

  /** One Pipe.update with the latch clear: the pipe slides PIPE_VELOCITY to
      the left and keeps its height. */
  function Moved(p: Pipe): (r: Pipe)
    ensures r.height == p.height && r.x < p.x
    ensures Pipe(r.x + PIPE_VELOCITY, r.height) == p
  {
    Pipe(p.x - PIPE_VELOCITY, p.height)
  }

  /** The right edge of the pipe is left of the window. */
  predicate OffScreen(p: Pipe)
  {
    p.x + PIPE_WIDTH < 0
  }

  /** What the pruning loop leaves of one pipe: the pipe moved, unless that
      takes it off screen. */
  function Survivor(p: Pipe): seq<Pipe>
  {
    var m := Moved(p);
    if OffScreen(m) then [] else [m]
  }

  /** The pruning loop of PipeManager.update: every pipe moves, and those
      whose new right edge is left of the window are dropped. */
  function Prune(ps: seq<Pipe>): (r: seq<Pipe>)
    ensures |r| <= |ps|
  {
    if ps == [] then []
    else Prune(ps[..|ps| - 1]) + Survivor(ps[|ps| - 1])
  }

  /** A new pipe is due when the list is empty or the newest pipe is at least
      PIPE_DELAY left of the right edge of the window. */
  predicate ShouldSpawn(ps: seq<Pipe>)
    ensures ShouldSpawn(ps) && ps != [] ==> ps[|ps| - 1].x + PIPE_DELAY <= WIDTH
    ensures !ShouldSpawn(ps) ==> ps != [] && ps[|ps| - 1].x > WIDTH - PIPE_DELAY
  {
    |ps| == 0 || WIDTH - ps[|ps| - 1].x >= PIPE_DELAY
  }

  /** One PipeManager.update, with `h` the height the random source draws. */
  function PipesStep(ps: seq<Pipe>, gameover: bool, h: int): (r: seq<Pipe>)
    ensures gameover ==> r == ps
    ensures |r| <= |ps| + 1
    ensures !gameover ==> r == Prune(ps) || r == Prune(ps) + [Pipe(WIDTH, h)]
  {
    if gameover then ps
    else
      var q := Prune(ps);
      if ShouldSpawn(q) then q + [Pipe(WIDTH, h)] else q
  }

  // ---------------------------------------------------------------------
  // Geometry queries

  /** The bird's box overlaps the pipe horizontally and is not inside its gap. */
  predicate Hits(b: BirdState, p: Pipe)
    ensures Hits(b, p) ==> p.x - BIRD_WIDTH < b.x < p.x + PIPE_WIDTH
    ensures Hits(b, p) ==> !(p.height <= b.y && b.y + BIRD_HEIGHT <= p.height + PIPE_GAP)
  {
    b.x + BIRD_WIDTH > p.x && b.x < p.x + PIPE_WIDTH &&
    (b.y < p.height || b.y + BIRD_HEIGHT > p.height + PIPE_GAP)
  }

  /** Some pipe hits the bird; which one, and where in the list, does not
      matter. */
  predicate Collides(b: BirdState, ps: seq<Pipe>)
    ensures Collides(b, ps) <==> exists p :: p in ps && Hits(b, p)
  {
    exists i :: 0 <= i < |ps| && Hits(b, ps[i])
  }

  /** Some pipe's right edge is exactly at `x`. */
  predicate Passed(x: int, ps: seq<Pipe>)
    ensures Passed(x, ps) <==> exists p :: p in ps && p.x + PIPE_WIDTH == x
  {
    exists i :: 0 <= i < |ps| && ps[i].x + PIPE_WIDTH == x
  }

  // ---------------------------------------------------------------------
  // The game step

  /** One FlappyBirdGame.update. The collision test sees the pipes before they
      move; the pipes do not move on the tick that sets the latch; the pass
      test still runs on that tick. */
  function Tick(w: World, h: int): (r: World)
    ensures w.gameover ==> r == w
    ensures w.gameover ==> r.gameover
    ensures r.score == w.score || r.score == w.score + 1
    ensures !w.gameover ==> r.bird.velocity == w.bird.velocity + GRAVITY
    ensures !w.gameover ==> r.bird.y == w.bird.y + r.bird.velocity
    ensures r.bird.x == w.bird.x
    ensures !w.gameover && (r.bird.y + BIRD_HEIGHT >= HEIGHT || Collides(r.bird, w.pipes)) ==>
              r.gameover && r.pipes == w.pipes
    ensures !w.gameover && r.bird.y + BIRD_HEIGHT < HEIGHT && !Collides(r.bird, w.pipes) ==>
              !r.gameover && r.pipes == PipesStep(w.pipes, false, h)
    ensures r.score == w.score + 1 <==> !w.gameover && Passed(w.bird.x, r.pipes)
  {
    if w.gameover then w
    else
      var b := BirdStep(w.bird, w.gameover);
      var over := b.y + BIRD_HEIGHT >= HEIGHT || Collides(b, w.pipes);
      var ps := PipesStep(w.pipes, over, h);
      var score := if Passed(b.x, ps) then w.score + 1 else w.score;
      World(b, ps, score, over)
  }

  function Step(w: World, e: Input): World
  {
    match e
    case Timer(h) => Tick(w, h)
    case Space => Jump(w)
  }

  /** The world after a run of inputs, in order. */
  function Run(w: World, es: seq<Input>): World
    decreases |es|
  {
    if es == [] then w else Run(Step(w, es[0]), es[1..])
  }

  /** Every tick draws its height from the random source's range. */
  predicate InRange(es: seq<Input>)
  {
    forall i :: 0 <= i < |es| && es[i].Timer? ==> 0 <= es[i].h < HEIGHT_BOUND
  }

  // ---------------------------------------------------------------------
  // The pruning loop keeps order and drops exactly the pipes that leave

  /** Pruning commutes with splitting the list: the survivors of an earlier
      part stay before the survivors of a later part. */
  lemma {:induction false} PruneConcat(a: seq<Pipe>, b: seq<Pipe>)
    ensures Prune(a + b) == Prune(a) + Prune(b)
    decreases |b|
  {
    if b == [] {
      assert a + b == a;
    } else {
      var b' := b[..|b| - 1];
      assert (a + b)[..|a + b| - 1] == a + b';
      assert (a + b)[|a + b| - 1] == b[|b| - 1];
      PruneConcat(a, b');
    }
  }

  /** Pruning one more pipe of a list appends what survives of it. */
  lemma PruneSnoc(ps: seq<Pipe>, k: nat)
    requires k < |ps|
    ensures OffScreen(Moved(ps[k])) ==> Prune(ps[..k + 1]) == Prune(ps[..k])
    ensures !OffScreen(Moved(ps[k])) ==> Prune(ps[..k + 1]) == Prune(ps[..k]) + [Moved(ps[k])]
  {
    assert ps[..k + 1][..k] == ps[..k];
    assert Prune(ps[..k]) + [] == Prune(ps[..k]);
  }

  /** The spawn rule: with the latch set the list is untouched; otherwise the
      pruned list is kept as it is and at most one pipe follows it, at the
      right edge with the drawn height, exactly when one is due. */
  lemma SpawnShape(ps: seq<Pipe>, h: int)
    ensures PipesStep(ps, true, h) == ps
    ensures var q, r := Prune(ps), PipesStep(ps, false, h);
            (|r| == |q| || |r| == |q| + 1) && r[..|q|] == q &&
            (|r| == |q| + 1 <==> ShouldSpawn(q)) &&
            (|r| == |q| + 1 ==> r[|q|] == Pipe(WIDTH, h))
  {
  }

  /** A pipe is in the pruned list iff it is a pipe of the old list moved by
      PIPE_VELOCITY whose right edge is still on screen. */
  lemma {:induction false} PruneMembership(ps: seq<Pipe>, p: Pipe)
    ensures p in Prune(ps) <==> !OffScreen(p) && Pipe(p.x + PIPE_VELOCITY, p.height) in ps
    decreases |ps|
  {
    if ps != [] {
      var init := ps[..|ps| - 1];
      assert ps == init + [ps[|ps| - 1]];
      PruneMembership(init, p);
    }
  }

  /** Pipes that are PIPE_DELAY apart, left to right. */
  predicate Spaced(ps: seq<Pipe>)
  {
    forall i :: 0 <= i < |ps| - 1 ==> ps[i + 1].x == ps[i].x + PIPE_DELAY
  }

  function Last(ps: seq<Pipe>): Pipe
    requires ps != []
  {
    ps[|ps| - 1]
  }

  /** On evenly spaced pipes pruning only ever drops a leftmost run: the
      result is still evenly spaced, and the newest pipe survives whenever
      anything does. */
  lemma {:induction false} PruneSpaced(ps: seq<Pipe>)
    requires Spaced(ps)
    ensures Spaced(Prune(ps))
    ensures Prune(ps) != [] ==> Last(Prune(ps)) == Moved(Last(ps))
    decreases |ps|
  {
    if ps != [] {
      var n := |ps|;
      var init := ps[..n - 1];
      assert Spaced(init) by {
        forall i | 0 <= i < |init| - 1 ensures init[i + 1].x == init[i].x + PIPE_DELAY {
          assert init[i + 1] == ps[i + 1] && init[i] == ps[i];
        }
      }
      PruneSpaced(init);
      var q := Prune(init);
      if !OffScreen(Moved(ps[n - 1])) {
        assert Prune(ps) == q + [Moved(ps[n - 1])];
        if q != [] {
          assert Last(q) == Moved(ps[n - 2]);
        }
      } else if q != [] {
        // Last(q) is ps[n - 2] moved, left of ps[n - 1] moved, so off screen too
        PruneMembership(init, Last(q));
        assert false;
      }
    }
  }

  // ---------------------------------------------------------------------
  // Spawn cadence

  /** The shape every pipe list reachable from the start has: pipes on the
      PIPE_VELOCITY grid, PIPE_DELAY apart, heights in the random range, and
      the newest pipe less than PIPE_DELAY left of the right edge. */
  predicate Cadenced(ps: seq<Pipe>)
  {
    Spaced(ps) &&
    (forall i :: 0 <= i < |ps| ==> ps[i].x % PIPE_VELOCITY == 0 && 0 <= ps[i].height < HEIGHT_BOUND) &&
    (ps != [] ==> WIDTH - PIPE_DELAY < Last(ps).x <= WIDTH)
  }

  /** Pruning a cadenced list keeps the pipes on the grid, PIPE_DELAY apart,
      with heights in range, and the newest pipe survives it. */
  lemma PruneCadenced(ps: seq<Pipe>)
    requires Cadenced(ps)
    ensures var q := Prune(ps);
            Spaced(q) &&
            (forall i :: 0 <= i < |q| ==> q[i].x % PIPE_VELOCITY == 0 && 0 <= q[i].height < HEIGHT_BOUND) &&
            (ps != [] ==> q != [] && Last(q) == Moved(Last(ps)))
  {
    var q := Prune(ps);
    PruneSpaced(ps);
    forall i | 0 <= i < |q| ensures q[i].x % PIPE_VELOCITY == 0 && 0 <= q[i].height < HEIGHT_BOUND {
      PruneMembership(ps, q[i]);
      var j :| 0 <= j < |ps| && ps[j] == Pipe(q[i].x + PIPE_VELOCITY, q[i].height);
      assert ps[j].x % PIPE_VELOCITY == 0;
    }
    if ps != [] {
      var init := ps[..|ps| - 1];
      assert ps == init + [Last(ps)];
      assert q == Prune(init) + [Moved(Last(ps))];
    }
  }

  /** A pipe-list update keeps the cadence; the newest pipe never leaves, so
      the list is never empty again once it holds a pipe; and a spawned pipe
      is exactly PIPE_DELAY right of its predecessor. */
  lemma PipesStepCadenced(ps: seq<Pipe>, h: int)
    requires Cadenced(ps) && 0 <= h < HEIGHT_BOUND
    ensures Cadenced(PipesStep(ps, false, h))
    ensures ps != [] ==> Prune(ps) != []
    ensures var r := PipesStep(ps, false, h);
            |r| == |Prune(ps)| + 1 && Prune(ps) != [] ==> Last(r).x == Last(Prune(ps)).x + PIPE_DELAY
  {
    var q := Prune(ps);
    PruneCadenced(ps);
    if ShouldSpawn(q) {
      var r := q + [Pipe(WIDTH, h)];
      if q != [] {
        assert Last(q).x % PIPE_VELOCITY == 0;
        assert Last(q).x == WIDTH - PIPE_DELAY;
      }
      assert Spaced(r) by {
        forall i | 0 <= i < |r| - 1 ensures r[i + 1].x == r[i].x + PIPE_DELAY {
          if i < |q| - 1 {
            assert r[i] == q[i] && r[i + 1] == q[i + 1];
          }
        }
      }
      assert forall i :: 0 <= i < |r| ==> r[i].x % PIPE_VELOCITY == 0 && 0 <= r[i].height < HEIGHT_BOUND by {
        forall i | 0 <= i < |r| ensures r[i].x % PIPE_VELOCITY == 0 && 0 <= r[i].height < HEIGHT_BOUND {
          if i < |q| {
            assert r[i] == q[i];
          }
        }
      }
      assert PipesStep(ps, false, h) == r;
    } else {
      assert PipesStep(ps, false, h) == q;
    }
  }

  // ---------------------------------------------------------------------
  // Whole runs

  /** The game-over latch never reverts, whatever ticks and key presses follow. */
  lemma {:induction false} RunLatch(w: World, es: seq<Input>)
    requires w.gameover
    ensures Run(w, es).gameover
    decreases |es|
  {
    if es != [] {
      RunLatch(Step(w, es[0]), es[1..]);
    }
  }

  /** The score never decreases and grows by at most one per input. */
  lemma {:induction false} RunScore(w: World, es: seq<Input>)
    ensures w.score <= Run(w, es).score <= w.score + |es|
    decreases |es|
  {
    if es != [] {
      RunScore(Step(w, es[0]), es[1..]);
    }
  }

  /** After game over the bird's position, the pipes and the score are frozen;
      only a key press still writes the bird's velocity. */
  lemma {:induction false} RunFrozen(w: World, es: seq<Input>)
    requires w.gameover
    ensures var r := Run(w, es);
            r.bird.x == w.bird.x && r.bird.y == w.bird.y && r.pipes == w.pipes && r.score == w.score
    ensures (forall i :: 0 <= i < |es| ==> es[i].Timer?) ==> Run(w, es) == w
    decreases |es|
  {
    if es != [] {
      RunFrozen(Step(w, es[0]), es[1..]);
    }
  }

  /** Every reachable pipe list keeps the cadence. */
  lemma {:induction false} RunCadenced(w: World, es: seq<Input>)
    requires Cadenced(w.pipes) && InRange(es)
    ensures Cadenced(Run(w, es).pipes)
    decreases |es|
  {
    if es != [] {
      var w' := Step(w, es[0]);
      if es[0].Timer? && !w.gameover {
        PipesStepCadenced(w.pipes, es[0].h);
      }
      assert Cadenced(w'.pipes);
      assert InRange(es[1..]) by {
        forall i | 0 <= i < |es| - 1 && es[1..][i].Timer? ensures 0 <= es[1..][i].h < HEIGHT_BOUND {
          assert es[1..][i] == es[i + 1];
        }
      }
      RunCadenced(w', es[1..]);
    }
  }

  /** From the start of the game, every state reached keeps the cadence. */
  lemma ReachableCadenced(es: seq<Input>)
    requires InRange(es)
    ensures Cadenced(Run(Initial(), es).pipes)
  {
    RunCadenced(Initial(), es);
  }

  // ---------------------------------------------------------------------
  // Collision scenarios

  /** A bird overlapping a pipe horizontally with its top above the gap collides. */
  lemma HitAboveGap(b: BirdState, ps: seq<Pipe>, i: nat)
    requires i < |ps|
    requires b.x + BIRD_WIDTH > ps[i].x && b.x < ps[i].x + PIPE_WIDTH
    requires b.y < ps[i].height
    ensures Collides(b, ps)
  {
    assert Hits(b, ps[i]);
  }

  /** A bird that lies wholly inside the gap of every pipe it overlaps
      horizontally never collides, whatever the other pipes are. */
  lemma InsideGapSafe(b: BirdState, ps: seq<Pipe>)
    requires forall i :: 0 <= i < |ps| && b.x + BIRD_WIDTH > ps[i].x && b.x < ps[i].x + PIPE_WIDTH ==>
               ps[i].height <= b.y && b.y + BIRD_HEIGHT <= ps[i].height + PIPE_GAP
    ensures !Collides(b, ps)
  {
  }

  // ---------------------------------------------------------------------
  // A pipe scored twice

  /** The tick that sets the latch leaves the pipes where they are but still
      runs the pass test, so a pipe whose right edge reached the bird's x on
      the previous tick scores again: two ticks, one pipe, score 2. */
  lemma CrashTickScoresAgain()
    ensures var w0 := World(BirdState(100, 400, 0), [Pipe(3, 300), Pipe(123, 252)], 0, false);
            var w1 := Tick(w0, 0);
            var w2 := Tick(w1, 0);
            !w1.gameover && w1.score == 1 && w1.pipes[0] == Pipe(0, 300) &&
            w2.gameover && w2.pipes == w1.pipes && w2.score == 2
  {
  }
}
