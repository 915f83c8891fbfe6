# Flappy Bird NEAT training loop, modelled in Dafny

This project models the game core of `flappy_bird.py`. That script trains
neural networks with NEAT (NeuroEvolution of Augmenting Topologies) to play
Flappy Bird. The model covers:

- the bird's kinematics after a flap, including terminal velocity, the 2-pixel
  bias on upward steps and the nose tilt (`BirdPhysics`, `bird.dfy`);
- the pipe pairs, with their random gap height, leftward scroll and one-way
  `passed` flag (`Pipes`, `pipe.dfy`);
- the two-image scrolling ground (`Ground`, `base.dfy`);
- one generation of `main`: the set-up, and the tick of `while run and
  len(birds) > 0`.

The generation is modelled twice:

- `Simulation` (`simulation.dfy`) is a pure function on values. `Tick` runs
  one pass of the loop and `Play` runs the whole loop.
- `Training` (`training.dfy`) and `GameLoop` (`gameloop.dfy`) are imperative.
  They keep the locals of `main`: bird, pipe and ground objects updated in
  place, and the parallel lists `birds`, `nets` and `ge`, popped from as the
  loops walk them. Each phase is proved to leave exactly the values the
  matching `Simulation` function computes. `GameLoop.Train` (set-up plus
  loop) is therefore proved equal to `Simulation.Play` of the start world.

The list operations the loop relies on are modelled over sequences in `Lists`
(`lists.dfy`):

- `list.pop(i)`, `list.index(e)` and `list.remove(e)`;
- the survivors of a loop that pops while it enumerates.

A genome is its index into a fitness ledger `fitness: seq<real>`. `ge` and
`nets` hold such indices. Like the Python genome object, a popped genome
keeps its fitness.

Some behaviours are modelled as the code has them:

- **`pipe_ind`.** It compares `birds[0].x > birds[0].x + width`, which never
  holds, so every network always looks at the first pipe.
  `Simulation.PipeIndex` proves this.
- **Popping while enumerating.** Both removal loops pop while they
  enumerate, so the entry that slides into a popped slot is never tested. A
  bird right after a removed bird therefore survives that pass, even when it
  should be removed. `Lists.PopSkips` and `Lists.AllDeadHalfSurvive` state
  the exact effect.
- **The pass test.** It uses the `bird` variable that the last `enumerate`
  left behind. Every bird has x = 230, so this is the same as comparing
  with 230; `Training.PipeTurn` and `Simulation.SweptBy` carry that value.
- **The 2-pixel bias.** It is subtracted from upward (negative)
  displacements, not added to downward ones.
- **Terminal velocity.** The cap limits only downward displacement. An
  upward step can reach 20 pixels (`BirdPhysics.FlapArc`).

## Model

| member | source | states |
|---|---|---|
| BirdPhysics.Displacement | flappy_bird.py:73-81 | the t-th tick's step is at most 16 pixels down; a non-negative raw step `vel*t + 1.5*t^2` is kept or capped at 16; a negative one gets 2 more pixels upward, so any upward step is at least 2 pixels |
| BirdPhysics.Moved | flappy_bird.py:68-91 | `move` counts one more tick, keeps x, velocity and the flap height, moves down at most 16 pixels, and any upward move is at least 2 pixels |
| BirdPhysics.JumpResets | flappy_bird.py:59-66 | a flap sets velocity -10.5, restarts the tick counter, records the current y as the flap height and changes nothing else; flapping twice is the same as flapping once |
| BirdPhysics.TiltRule | flappy_bird.py:85-91 | while rising or above the flap height plus 50 the tilt becomes exactly 25; otherwise it drops by 20 while above -90; the tilt stays within [-110, 25] |
| BirdPhysics.GlideInvariant | flappy_bird.py:68-91 | over any number of moves without a flap the bird keeps its x, velocity and flap height, the tick counter goes up by exactly one per move, and the tilt stays in range |
| BirdPhysics.FreeFall | flappy_bird.py:73-83 | falling from rest, tick t moves the bird down by exactly min(1.5*t^2, 16) pixels: always down, never more than the terminal 16 |
| BirdPhysics.FlapArc | flappy_bird.py:59-83 | after a flap the bird is 11, 28, 48, 68, 85, 96, 96 and 84 pixels above the flap point on the following eight ticks |
| BirdPhysics.Bird.constructor | flappy_bird.py:38-57 | a new bird is at (x, y) with tilt 0, tick count 0, velocity 0 and flap height y |
| BirdPhysics.Bird.Jump | flappy_bird.py:59-66 | the object's new state is the flapped state of its old one |
| BirdPhysics.Bird.Move | flappy_bird.py:68-91 | the object's new state is the moved state of its old one |
| Pipes.Spawned | flappy_bird.py:139-165 | a new pipe has the drawn height h, top at h minus the image height, bottom at h + 200, is not passed; the opening between the pipes runs from h to the bottom and is exactly 200, and the two images are drawn 200 plus the image height apart |
| Pipes.ShiftKeepsShape | flappy_bird.py:167-172 | a move changes only x, by exactly -5, and keeps a well-formed pipe well formed |
| Pipes.MarkOneWay | flappy_bird.py:339-341 | after the pass test the flag is set exactly when it was already set or the pipe is left of the bird; nothing else changes, and the test never fires twice |
| Pipes.Pipe.constructor | flappy_bird.py:139-156 | `Pipe(x)` builds the spawned pipe for the drawn height |
| Pipes.Pipe.SetHeight | flappy_bird.py:158-165 | sets the height and derives top and bottom from it, leaving the pipe well formed and x and `passed` unchanged |
| Pipes.Pipe.Move | flappy_bird.py:167-172 | the object's new state is the shifted state of its old one |
| Ground.ScrollKeepsTiling | flappy_bird.py:227-241 | if one image sits exactly one width behind the other, both are on screen and one covers the left edge, this still holds after a move (for an image at least 5 wide) |
| Ground.TiledCovers | flappy_bird.py:223-241 | two tiled images together cover every column from the left edge to one image width |
| Ground.GroundAlwaysCovers | flappy_bird.py:216-241 | starting from offsets (0, width), the ground stays tiled after any number of moves, and an image at least 500 wide always covers the whole window |
| Ground.Base.constructor | flappy_bird.py:216-225 | the ground starts at offsets 0 and width, which are tiled |
| Ground.Base.Move | flappy_bird.py:227-241 | the new offsets are those of the pure scroll; y is kept and so is the tiling |
| Lists.RemoveAt | flappy_bird.py:335-337 | `pop(x)` leaves the entries before x in place, moves each later entry down one index, and shortens the list by one |
| Lists.RemoveAtDistinct | flappy_bird.py:335-337 | popping from a list without repeats removes exactly the popped element and no other, and keeps the list repeat-free |
| Lists.IndexOf | flappy_bird.py:323 | `index(e)` is a position holding e, and e occurs nowhere before it |
| Lists.IndexOfDistinct | flappy_bird.py:323 | among distinct birds, `birds.index(bird)` is the bird's own enumerate index, so every bird uses its own network |
| Lists.RemoveFirstWithout | flappy_bird.py:353-354 | `remove(e)` on a repeat-free list, after earlier removals, is the same as filtering out one more element |
| Lists.WithoutKeeps | flappy_bird.py:353-354 | a pipe not in `rem` stays |
| Lists.WithoutSubset | flappy_bird.py:353-354 | every pipe that stays was in the list and is not in `rem` |
| Lists.WithoutDistinct | flappy_bird.py:353-354 | removing pipes keeps the list repeat-free |
| Lists.PopSurvivors | flappy_bird.py:332-337 | the positions left by the enumerate-and-pop loop are increasing and in range, and every entry that is not dead is among them |
| Lists.PopLoopSurvivors | flappy_bird.py:332-337 | running the loop step by step (pop at index x, then move on to x + 1) leaves exactly the survivors |
| Lists.LiveSurvive | flappy_bird.py:332-337 | an entry that is not dead always survives the pass |
| Lists.PopSkips | flappy_bird.py:332-337 | a dead entry is removed when it is first or the entry before it survived; the entry right after a removed one is always kept |
| Lists.DeadSurvivorFollowsRemoved | flappy_bird.py:356-360 | a dead entry that survives has a removed dead entry right before it |
| Lists.AdjacentDeadSecondSurvives | flappy_bird.py:356-360 | with two dead birds the second one survives |
| Lists.AllDeadHalfSurvive | flappy_bird.py:356-360 | when all n entries are dead, exactly n/2 (rounded down) survive |
| Simulation.StartValid | flappy_bird.py:284-297 | the set-up has n birds, each at (230, 350) with tilt 0, tick count 0, velocity 0 and flap height 350; genome and network g is number g with fitness 0; one unpassed pipe at 600 of the drawn height; the ground at (0, width); score 0; and it meets the world invariant |
| Simulation.PipeIndex | flappy_bird.py:315-318 | `pipe_ind` is always 0 |
| Simulation.Think | flappy_bird.py:322-326 | a bird's turn moves it and then flaps exactly when its network's output for the moved bird is above 0.5; x, y and tilt are those of the move |
| Simulation.ThinkPhase | flappy_bird.py:315-326 | the first loop keeps the lists aligned and changes neither networks, genomes nor pipes |
| Simulation.Cull | flappy_bird.py:332-337 | a pass keeps the same survivor positions of birds, networks and genomes, charges the penalty exactly to the genomes it drops, and keeps pipes, ground and score |
| Simulation.SweepOne | flappy_bird.py:330-344 | one more pipe of the loop: that pipe is moved and marked, the others keep their state, the pass flag records whether any pipe so far passed, and the removals compose |
| Simulation.PipeSweep | flappy_bird.py:328-344 | after the loop: every pipe is moved and marked; the pass flag is set exactly when some moved pipe was unpassed and left of the birds; the three lists hold the same survivors; each dropped genome lost 1 |
| Simulation.VisiblePositions | flappy_bird.py:343-354 | a pipe's position is kept exactly when the pipe is not off screen, in increasing order |
| Simulation.VisibleKeepsOrder | flappy_bird.py:353-354 | the pipes left after the removals are the on-screen ones, in their order |
| Simulation.VisibleSubset | flappy_bird.py:353-354 | every pipe left was there before and is on screen |
| Simulation.Tick | flappy_bird.py:306-362 | a tick keeps the world invariant: lists aligned, every bird at x 230 with tilt in range, a newest pipe that is unpassed and ahead of the birds, all pipes well formed, and the ground tiled |
| Simulation.TickKeepsValid | flappy_bird.py:306-362 | the invariant holds after every phase of the tick, through the ground scroll |
| Simulation.ThoughtBirdsOk | flappy_bird.py:320-326 | after thinking every bird is still at x 230 with its tilt in range |
| Simulation.SpawnedPipesOk | flappy_bird.py:328-351 | before removal the newest pipe is unpassed, ahead of the birds and on screen, and every pipe is well formed |
| Simulation.RetiredPipesOk | flappy_bird.py:347-354 | after removal there is still a pipe, the newest one is unpassed and ahead, and all pipes are well formed |
| Simulation.TickLockstep | flappy_bird.py:328-360 | after a tick the birds, networks and genomes are the same increasing selection of the original positions, so each bird keeps its own network and genome |
| Simulation.TickPipes | flappy_bird.py:328-354 | each pipe moves 5 left and is marked; off-screen pipes are dropped in order; exactly when some pipe was marked, the score goes up by 1 and one new pipe at 600 is appended |
| Simulation.TickFitness | flappy_bird.py:320-350 | a genome without a bird is untouched; a genome whose bird survives the pipe loop gains 0.1, plus 5 when a pipe was passed, even if the bounds loop then drops it; a genome whose bird a pipe hits gains 0.1, loses 1 and gets no bonus |
| Simulation.TickRemovals | flappy_bird.py:328-360 | a bird's genome is gone exactly when the bird is not among the survivors; a bird is removed only if a moved pipe hits it or it is out of bounds; one that no pipe hits and that stays in bounds survives |
| Simulation.SweepRemovals | flappy_bird.py:328-337 | in the pipe loop a bird is dropped only if one of the moved pipes hits it, and one that none of them hits stays |
| Simulation.TickShrinks | flappy_bird.py:306-362 | a tick never adds birds or genomes and keeps the ledger's size |
| Simulation.Play | flappy_bird.py:306-362 | the world invariant holds at the end of the loop |
| Simulation.PlayShrinks | flappy_bird.py:306-362 | over a generation the population only shrinks, every living genome was alive at the start, and the ledger keeps its size |
| Training.Setup | flappy_bird.py:284-297 | the locals `main` sets up are new objects whose values are the start world, and they meet the invariant with every object distinct |
| Training.RewardAll | flappy_bird.py:349-350 | `for g in ge: g.fitness += 5` adds the amount to exactly the genomes in `ge` |
| Training.Steer | flappy_bird.py:322-326 | `move`, activate, and maybe `jump` leave the bird in the state of the pure turn |
| Training.ThinkLoop | flappy_bird.py:320-326 | the first loop gives every genome 0.1 and puts every bird in its pure turn's state, using its own network |
| Training.TickThink | flappy_bird.py:315-326 | the first phase over the locals leaves exactly the pure thinking phase, using the pipe `pipe_ind` picks |
| Training.TickSweep | flappy_bird.py:328-344 | the pipe loop over the locals leaves the pure sweep's values; `rem` holds distinct pipes of the list, and removing them keeps exactly the on-screen ones |
| Training.SweepLoop | flappy_bird.py:328-344 | the loop's lists, pass flag and pipe states are those of the pure sweep, and `rem` holds exactly the pipes that left the screen |
| Training.SweepTurn | flappy_bird.py:330-344 | one round of the pipe loop advances its variables from the pure sweep after i pipes to the sweep after i + 1 |
| Training.PipeTurn | flappy_bird.py:331-344 | one pipe's body: the pipe moves, the birds it hits are popped in lockstep and charged 1, it is marked against the last bird looked at, and `off` tells whether it left the screen |
| Training.WithoutOffScreen | flappy_bird.py:343-354 | when `rem` holds exactly the off-screen pipes, removing them keeps the on-screen ones in order |
| Training.PopPass | flappy_bird.py:332-337 | the enumerate-and-pop loop leaves birds, networks and genomes at the survivor positions and charges the penalty exactly to the dropped genomes |
| GameLoop.TickSpawn | flappy_bird.py:347-351 | the spawn adds one point, gives 5 to every genome in `ge`, and appends one new pipe at 600 with the drawn height |
| GameLoop.RemovePipes | flappy_bird.py:353-354 | `for r in rem: pipes.remove(r)` filters out exactly the pipes of `rem` |
| GameLoop.TickBounds | flappy_bird.py:356-360 | the bounds loop leaves exactly the pure bounds pass, with no penalty |
| GameLoop.ThinkAndSweep | flappy_bird.py:315-344 | thinking and then the pipe loop leave the pure phases' values, plus the list of off-screen pipes to remove |
| GameLoop.SpawnStage | flappy_bird.py:347-351 | `if add_pipe:` leaves the pure spawn's values, with the new pipe on screen and not in `rem` |
| GameLoop.SpawnOne | flappy_bird.py:347-351 | the spawn branch leaves the pure spawn's values, with the new pipe distinct from every existing one |
| GameLoop.RetireStage | flappy_bird.py:353-354 | removal leaves exactly the visible pipes |
| GameLoop.SpawnAndRetire | flappy_bird.py:347-354 | spawn then removal leaves the pure spawn followed by keeping the visible pipes |
| GameLoop.BoundAndScroll | flappy_bird.py:356-362 | the bounds loop and `base.move()` leave the pure bounds pass with the ground scrolled |
| GameLoop.Advance | flappy_bird.py:315-354 | the tick up to the bounds loop leaves the pure phases' values, and every bird that is left was already there |
| GameLoop.Tick | flappy_bird.py:306-362 | one pass of the loop over the objects leaves exactly `Simulation.Tick` of the old values and keeps the invariant |
| GameLoop.Run | flappy_bird.py:306-362 | the loop over the objects leaves exactly `Simulation.Play` of the old values |
| GameLoop.Train | flappy_bird.py:275-362 | a generation of `main` (set-up, then the loop) leaves `Simulation.Play` of the start world |

## Left out

- Drawing is not modelled: `draw_window`, `Bird.draw` with its animation
  counter `img_count`, `Pipe.draw`, `Base.draw` and the score text. The
  bird's image height is the constant `Dims.birdHeight`.
- Pixel-mask collision (`Pipe.collide`, `Bird.get_mask`) is not modelled.
  It is a parameter `collide` of the model.
- Simulation.Play: one `collide` serves the whole generation and sees only
  the pipe and the bird's state. In the source the bird's mask comes from
  its current image, which `Bird.draw` changes every tick with the
  animation counter and the tilt. So the same bird state can collide on one
  tick and miss on another, which this model does not capture.
- The NEAT networks are not modelled. `activate` is a parameter, and
  networks and genomes are indices.
- The NEAT population and its configuration are not modelled (`run`,
  `neat.Population`, the reporters and the 50-generation run).
  `genomes` is modelled as their number n.
- Randomness: every `random.randrange(50, 450)` is an argument. There is one
  height per tick, used only when a pipe spawns in that tick, plus one for
  the first pipe.
- `clock.tick(30)`, the event queue and the QUIT event are not modelled.
  The loop ends when the birds are gone or the heights run out; running out
  of heights stands for the window being closed.
- Floating point: bird positions, velocities and fitness are reals, so
  there is no rounding.
- GameLoop.Run: the `while` loop is written as a tail call on the rest of
  the heights. Its contract states only the values reached, not which
  objects hold them.
