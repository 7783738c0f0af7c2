# Flappy Bird simulation step, modelled in Dafny

This project models the simulation core of a one-file Java Flappy Bird game
(`flappy.java`). The game holds a bird, an ordered list of pipes, a score and
a one-way game-over latch. A fixed-interval timer calls `FlappyBirdGame.update`
once per tick:

1. the bird takes gravity and moves;
2. the game ends if the bird reaches the floor or hits a pipe (the pipes are
   tested before they move);
3. the pipe manager moves every pipe, drops those that left the window and
   spawns a new one at the right edge when one is due;
4. the score goes up when a pipe's right edge is exactly at the bird's x.

A space-bar press overwrites the bird's velocity with the jump impulse.

The project has two modules:

- `physics.dfy`, module `Physics`: the constants and value snapshots
  (`BirdState`, `Pipe`, `World`). It defines what one tick (`Tick`) and one key
  press (`Jump`) do to a `World`, and what a whole run of them (`Run`) does.
  It also holds the lemmas about pruning, spawning, the latch, the score and
  the spacing of the pipes.
- `flappy.dfy`, module `Flappy`: the classes `Bird`, `PipeManager` and
  `FlappyBirdGame`, whose methods update their fields in place. Each method's
  postcondition ties the new fields to the `Physics` function of the old
  fields. `PipeManager.Update` keeps the source's index loop: it removes an
  entry, steps the index back, then appends at most one pipe.

The constants resolve as the nested Java classes shadow them. Inside `Bird`,
WIDTH and HEIGHT are 50. Inside `Pipe`, WIDTH is 100. Inside `PipeManager`,
WIDTH and HEIGHT are the window's 600 and 800. The getters `Bird.GetX`,
`Bird.GetY` and `Bird.GetHeight` are plain field reads and carry no contract.
The pipe getters are the fields of the `Pipe` datatype.

The enclosing game's `gameover` flag is read directly by the inner classes.
Here it is an explicit `gameover` parameter of `Bird.Update` and
`PipeManager.Update`.

Where the source does not compile as written, the model does this:

- `random.nextInt(HEIGHT - PIPE_GAP - 100)` names an undeclared `random`
  (flappy.java:177). The drawn height is a parameter `h` of the update, with
  `0 <= h < 500`, the range of that call.
- `bird.getWidth()` does not exist (flappy.java:190). The model uses the
  bird's width constant, 50 (flappy.java:84).

The collision test runs after the bird moves and before the pipes move
(flappy.java:43-49).

The tick that sets the latch leaves the pipes where they are, but the pass
test still runs on it (flappy.java:45-52). A pipe whose right edge reached the
bird's x on the previous tick is then scored a second time. The model keeps
this behaviour; `Physics.CrashTickScoresAgain` exhibits it: two ticks from a
bird at (100, 400) with pipes at x = 3 and x = 123 end with score 2 from one
pipe.

The `Pipe` datatype of module `Physics` stands for the `Pipe` class and its
constructor (flappy.java:120-129): its left edge `x` and the height of its top
segment.

Every state reachable from the start keeps a "cadence" (`Physics.Cadenced`):

- every pipe's x is a multiple of 3;
- neighbouring pipes are exactly 120 apart;
- the newest pipe is less than 120 left of the right edge.

So a new pipe always spawns exactly 120 to the right of its predecessor. Once
the list holds a pipe, it is never empty again.

## Model

| member | source | states |
|---|---|---|
| `Physics.Initial` | flappy.java:26-29 | the start state: bird at rest at (100, 400), no pipes, score 0, latch clear; the bird is neither on the floor nor in a pipe |
| `Physics.BirdStep` | flappy.java:93-100 | with the latch set the bird is unchanged; otherwise the velocity grows by GRAVITY (1) and y grows by the new velocity; x never changes |
| `Flappy.Bird.constructor` | flappy.java:87-91 | a new bird is at the given position with velocity 0 |
| `Flappy.Bird.Update` | flappy.java:93-100 | with the latch clear, velocity grows by GRAVITY (1) and y grows by the new velocity; with it set, nothing changes; x never changes |
| `Flappy.FlappyBirdGame.Jump` | flappy.java:216-221 | the bird's velocity becomes -10 whatever it was, even after game over; the bird's x and y, the pipes, score and latch are untouched |
| `Physics.Jump` | flappy.java:216-221 | a key press sets the bird's velocity to -JUMP_POWER and leaves the bird's position, the pipes, the score and the latch as they were |
| `Physics.Moved` | flappy.java:131-137 | a pipe update slides the pipe 3 to the left and keeps its height; moving it back by 3 gives the old pipe |
| `Physics.ShouldSpawn` | flappy.java:176 | a pipe is due iff the list is empty or the newest pipe's x is at most 600 - 120; when none is due the newest pipe is less than 120 left of the right edge |
| `Physics.PipesStep` | flappy.java:161-180 | with the latch set the list is unchanged; otherwise it is the pruned list, possibly followed by one new pipe at x = 600 with the drawn height; it grows by at most one |
| `Flappy.PipeManager.constructor` | flappy.java:157-159 | the pipe list starts empty |
| `Flappy.PipeManager.Update` | flappy.java:161-180 | the new list is the old one pruned by the index loop with remove-and-step-back, then at most one spawned pipe; with the latch set the list is unchanged |
| `Physics.Prune` | flappy.java:166-174 | the pruning loop never lengthens the list |
| `Physics.PruneSnoc` | flappy.java:166-174 | visiting the next pipe either drops it (its new right edge is left of the window) or appends it moved left by 3 |
| `Physics.PruneConcat` | flappy.java:166-174 | pruning keeps order: survivors of an earlier part of the list stay before survivors of a later part |
| `Physics.PruneMembership` | flappy.java:166-174 | a pipe is in the pruned list iff it is an old pipe moved left by 3 (height unchanged) whose right edge x + 100 is not below 0 |
| `Physics.SpawnShape` | flappy.java:176-179 | with the latch set the list is unchanged; otherwise the pruned list is kept and at most one pipe is appended, at the tail, at x = 600 with the drawn height, exactly when the pruned list is empty or 600 minus the last x is at least 120 |
| `Physics.PruneSpaced` | flappy.java:166-174 | on pipes 120 apart, pruning keeps them 120 apart and keeps the newest pipe whenever anything survives |
| `Physics.PruneCadenced` | flappy.java:166-174 | pruning a cadenced list keeps the pipes on the 3-grid, 120 apart, heights in [0, 500), and keeps the newest pipe |
| `Physics.PipesStepCadenced` | flappy.java:161-180 | a pipe update keeps the cadence, never empties a non-empty list, and spawns a pipe exactly 120 right of its predecessor |
| `Flappy.PipeManager.CheckCollision` | flappy.java:188-197 | true iff some pipe overlaps the bird horizontally (bird.x + 50 > p.x and bird.x < p.x + 100) while the bird's top is above the gap or its bottom below it; it changes nothing |
| `Flappy.PipeManager.IsPipePassed` | flappy.java:199-206 | true iff some pipe's right edge p.x + 100 equals x; it changes nothing |
| `Physics.Hits` | flappy.java:190-194 | a pipe hits the bird only if their boxes overlap horizontally and the bird is not wholly inside the pipe's gap |
| `Physics.Collides` | flappy.java:188-197 | the bird collides iff some pipe of the list hits it, independently of the pipe's position in the list |
| `Physics.Passed` | flappy.java:199-206 | a pipe is passed at x iff some pipe of the list has its right edge x + 100 exactly at x |
| `Physics.HitAboveGap` | flappy.java:188-197 | a bird overlapping a pipe horizontally with its top above that pipe's gap collides |
| `Physics.InsideGapSafe` | flappy.java:188-197 | a bird lying inside the gap of every pipe it overlaps horizontally does not collide, whatever the other pipes are |
| `Flappy.FlappyBirdGame.constructor` | flappy.java:20-36 | the game starts with the bird at (100, 400) at rest, no pipes, score 0 and the latch clear |
| `Flappy.FlappyBirdGame.Update` | flappy.java:38-54 | one tick changes the game's fields exactly as `Physics.Tick`; the latch never reverts; the score grows by 0 or 1 |
| `Physics.Tick` | flappy.java:38-54 | with the latch set nothing changes; otherwise the bird falls one step; a floor hit (y + 50 >= 800) or a hit on the unmoved pipes sets the latch and leaves the pipes unmoved; otherwise the pipes take one update; the score grows by exactly 1 iff the latch was clear and a pipe's right edge, after this tick's pipe update (if any), is at the bird's x |
| `Physics.CrashTickScoresAgain` | flappy.java:43-53 | on the tick that sets the latch the pipes stay put but the pass test still runs, so one pipe can score twice: a concrete two-tick run ends with score 2 |
| `Physics.RunLatch` | flappy.java:38-54 | once set, the latch stays set through any run of ticks and key presses |
| `Physics.RunScore` | flappy.java:51-53 | over any run the score never decreases and grows by at most one per input |
| `Physics.RunFrozen` | flappy.java:38-54 | after game over the bird's position, the pipes and the score stay frozen; a run of ticks alone changes nothing at all |
| `Physics.RunCadenced` | flappy.java:161-180 | every tick and key press keeps the pipe cadence |
| `Physics.ReachableCadenced` | flappy.java:157-180 | every state reached from the start of the game keeps the pipe cadence |

## Left out

- Window setup, the `paint` methods, fonts and the centring of the text: they only draw, through the GUI toolkit.
- The Swing `Timer`, `GameUpdateListener`, `repaint`, `main` and `invokeLater`: they only schedule calls. A tick is a direct call to `FlappyBirdGame.Update`.
- Key-code dispatch in `BirdKeyListener.keyPressed`: only the effect of a space-bar press is modelled, as `FlappyBirdGame.Jump`.
- The random source: each tick takes the height it would draw as a parameter limited to the call's range [0, 500).
- Java's 32-bit integer overflow: coordinates, velocity and score are unbounded integers.
- Pipe objects: the pipe list holds pipe values, not references to mutable `Pipe` objects. `Pipe.update` (flappy.java:131-137) becomes replacing the list entry with the pipe moved left by 3 (`Physics.Moved`). The identity of the pipe objects is not modelled, and neither is the position of a removed pipe after its last move. Nothing else holds a reference to a pipe, so no behaviour depends on either. The latch test inside `Pipe.update` is not modelled separately: `PipeManager.update` only reaches that call when the latch is clear.
