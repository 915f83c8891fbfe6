/** The rest of a tick of `main` over its locals, the game loop and a whole
    generation: each phase is proved to leave the values the corresponding
    function of Simulation computes, so a generation over the objects plays
    out exactly as Simulation.Play says. */
module GameLoop {
  import opened Lists
  import opened BirdPhysics
  import opened Pipes
  import opened Simulation
  import opened Training
  import Ground

  /** `if add_pipe: score += 1; for g in ge: g.fitness += 5;
      pipes.append(Pipe(600))`, with h the height the new pipe draws. */
  method TickSpawn(l: Locals, dims: Dims, h: int, ghost W: World) returns (r: Locals)
    requires W == Snapshot(l) && Aligned(W) && HEIGHT_LO <= h < HEIGHT_HI
    ensures Snapshot(r) == Spawn(W, true, h, dims)
    ensures r.birds == l.birds && r.base == l.base
    ensures |r.pipes| == |l.pipes| + 1 && r.pipes == l.pipes + [r.pipes[|l.pipes|]]
    ensures fresh(r.pipes[|l.pipes|])
    ensures r.pipes[|l.pipes|].topHeight == dims.pipeHeight && r.pipes[|l.pipes|].width == dims.pipeWidth
  {
    var f := RewardAll(l.fitness, l.ge, BONUS);
    var p := new Pipe(SPAWN_X, h, dims.pipeHeight, dims.pipeWidth);
    r := l.(score := l.score + 1, fitness := f, pipes := l.pipes + [p]);
    BirdsKept(l.birds);
    PipesKept(l.pipes);
    assert PipeStates(r.pipes) == W.pipes + [Spawned(SPAWN_X, h, dims.pipeHeight)];
    assert Snapshot(r) == W.(score := W.score + 1, fitness := f, pipes := W.pipes + [Spawned(SPAWN_X, h, dims.pipeHeight)]);
  }

  /** `for r in rem: pipes.remove(r)`: every pipe of rem is in pipes once. */
  method RemovePipes(pipes: seq<Pipe>, rem: seq<Pipe>) returns (kept: seq<Pipe>)
    requires Distinct(pipes) && Distinct(rem) && forall k :: 0 <= k < |rem| ==> rem[k] in pipes
    ensures kept == Without(pipes, rem)
  {
    kept := pipes;
    WithoutNothing(pipes);
    assert rem[..0] == [];
    for j := 0 to |rem|
      invariant kept == Without(pipes, rem[..j])
    {
      assert rem[j] !in rem[..j];
      RemoveFirstWithout(pipes, rem[..j], rem[j]);
      assert rem[..j + 1] == rem[..j] + [rem[j]];
      kept := RemoveFirst(kept, rem[j]);
    }
    assert rem[..|rem|] == rem;
  }

  /** `for x, bird in enumerate(birds): if bird.y + bird.img.get_height() >=
      730 or bird.y < 0: birds.pop(x); nets.pop(x); ge.pop(x)`. */
  method TickBounds(l: Locals, dims: Dims) returns (r: Locals)
    requires Aligned(Snapshot(l)) && forall k :: 0 <= k < |l.birds| ==> l.birds[k].x == BIRD_X
    ensures var b := BoundsPhase(Snapshot(l), dims);
      Snapshot(r) == b.0 && r.birds == Pick(l.birds, b.1)
    ensures r.pipes == l.pipes && r.base == l.base
  {
    ghost var W := Snapshot(l);
    ghost var hits := HitsOf(l.birds, b => OutOfBounds(b, dims.birdHeight));
    assert hits == BoundsHits(W.birds, dims.birdHeight);
    var bs, ns, gs, fs, last;
    if |l.birds| > 0 {
      bs, ns, gs, fs, last := PopPass(l.birds, l.nets, l.ge, l.fitness, b => OutOfBounds(b, dims.birdHeight), hits, false, l.birds[0]);
    } else {
      bs, ns, gs, fs := l.birds, l.nets, l.ge, l.fitness;
      assert Pick(l.birds, []) == l.birds;
    }
    r := l.(birds := bs, nets := ns, ge := gs, fitness := fs);
    ghost var pos := PopSurvivors(hits, 0);
    PickBirdStates(l.birds, pos);
    CullResult(W, hits, false, pos, BirdStates(bs), ns, gs, fs);
    assert Snapshot(r) == W.(birds := BirdStates(bs), nets := ns, ge := gs, fitness := fs);
  }

  /** The pipes kept by `pipes.remove` are the visible ones. */
  lemma KeptVisible(P: seq<Pipe>, rem: seq<Pipe>, width: nat)
    requires Without(P, rem) == Pick(P, VisiblePositions(PipeStates(P), width))
    ensures PipeStates(Without(P, rem)) == Visible(PipeStates(P), width)
  {
    PickPipeStates(P, VisiblePositions(PipeStates(P), width));
    VisibleKeepsOrder(PipeStates(P), width);
  }

  /** With a new pipe appended that is not to be removed and is on screen,
      the kept pipes are the visible ones followed by the new one. */
  lemma KeptVisibleSnoc(P: seq<Pipe>, np: Pipe, rem: seq<Pipe>, width: nat)
    requires Without(P, rem) == Pick(P, VisiblePositions(PipeStates(P), width))
    requires np !in rem && !OffScreen(np.State(), width)
    ensures PipeStates(Without(P + [np], rem)) == Visible(PipeStates(P + [np]), width)
  {
    var K := Without(P, rem);
    WithoutSnoc(P, np, rem);
    assert Without(P + [np], rem) == K + [np];
    KeptVisible(P, rem, width);
    PipeStatesSnoc(P, np);
    PipeStatesSnoc(K, np);
    VisibleSnoc(PipeStates(P), np.State(), width);
  }

  lemma PipeStatesSnoc(P: seq<Pipe>, np: Pipe)
    ensures PipeStates(P + [np]) == PipeStates(P) + [np.State()]
  {
  }

  /** The first two phases of a tick: the birds think, then the pipe loop
      moves the pipes, pops the birds that hit one and collects the pipes
      that have left the screen. */
  method ThinkAndSweep(l: Locals, dims: Dims, activate: Controller, collide: Collider, ghost W: World)
    returns (swept: Locals, addPipe: bool, rem: seq<Pipe>)
    requires W == Snapshot(l) && Sound(l, dims) && |l.birds| > 0
    modifies l.birds, l.pipes
    ensures var th := ThinkPhase(W, dims, activate); var s := PipeSweep(th, collide, |th.pipes|);
      Snapshot(swept) == s.0 && addPipe == s.1 && swept.birds == Pick(l.birds, s.2)
    ensures swept.pipes == l.pipes && swept.base == l.base && Aligned(Snapshot(swept))
    ensures Distinct(rem) && forall k :: 0 <= k < |rem| ==> rem[k] in l.pipes
    ensures Without(l.pipes, rem) == Pick(l.pipes, VisiblePositions(PipeStates(l.pipes), dims.pipeWidth))
  {
    var thought := TickThink(l, dims, activate, W);
    ghost var th := ThinkPhase(W, dims, activate);
    ThoughtBirdsOk(W, dims, activate);
    assert forall k :: 0 <= k < |thought.birds| ==> thought.birds[k].State() == th.birds[k];
    swept, addPipe, rem := TickSweep(thought, dims, collide, th);
  }

  /** `if add_pipe:` the score, the bonus and a new pipe; the pipes to be
      removed are afterwards exactly the ones that have left the screen. */
  method SpawnStage(l: Locals, dims: Dims, h: int, addPipe: bool, rem: seq<Pipe>, ghost W: World)
    returns (r: Locals)
    requires W == Snapshot(l) && Aligned(W) && HEIGHT_LO <= h < HEIGHT_HI && Distinct(l.pipes)
    requires Distinct(rem) && forall k :: 0 <= k < |rem| ==> rem[k] in l.pipes
    requires Without(l.pipes, rem) == Pick(l.pipes, VisiblePositions(W.pipes, dims.pipeWidth))
    ensures Snapshot(r) == Spawn(W, addPipe, h, dims)
    ensures r.birds == l.birds && r.base == l.base && Distinct(r.pipes)
    ensures forall k :: 0 <= k < |rem| ==> rem[k] in r.pipes
    ensures PipeStates(Without(r.pipes, rem)) == Visible(PipeStates(r.pipes), dims.pipeWidth)
    ensures forall k :: 0 <= k < |r.pipes| ==>
      (r.pipes[k] in l.pipes ||
       (fresh(r.pipes[k]) && r.pipes[k].topHeight == dims.pipeHeight && r.pipes[k].width == dims.pipeWidth))
  {
    if addPipe {
      r := SpawnOne(l, dims, h, rem, W);
    } else {
      r := l;
      KeptVisible(l.pipes, rem, dims.pipeWidth);
    }
  }

  /** The branch of SpawnStage where a pipe was passed. */
  method SpawnOne(l: Locals, dims: Dims, h: int, rem: seq<Pipe>, ghost W: World) returns (r: Locals)
    requires W == Snapshot(l) && Aligned(W) && HEIGHT_LO <= h < HEIGHT_HI && Distinct(l.pipes)
    requires Distinct(rem) && forall k :: 0 <= k < |rem| ==> rem[k] in l.pipes
    requires Without(l.pipes, rem) == Pick(l.pipes, VisiblePositions(W.pipes, dims.pipeWidth))
    ensures Snapshot(r) == Spawn(W, true, h, dims)
    ensures r.birds == l.birds && r.base == l.base && Distinct(r.pipes)
    ensures forall k :: 0 <= k < |rem| ==> rem[k] in r.pipes
    ensures PipeStates(Without(r.pipes, rem)) == Visible(PipeStates(r.pipes), dims.pipeWidth)
    ensures forall k :: 0 <= k < |r.pipes| ==>
      (r.pipes[k] in l.pipes ||
       (fresh(r.pipes[k]) && r.pipes[k].topHeight == dims.pipeHeight && r.pipes[k].width == dims.pipeWidth))
  {
    r := TickSpawn(l, dims, h, W);
    var np := r.pipes[|l.pipes|];
    assert np !in l.pipes && np !in rem;
    assert Distinct(r.pipes) by {
      forall a, b | 0 <= a < b < |r.pipes| ensures r.pipes[a] != r.pipes[b] {
        if b == |l.pipes| { assert r.pipes[a] in l.pipes; }
      }
    }
    assert !OffScreen(np.State(), dims.pipeWidth) by {
      assert PipeStates(r.pipes)[|l.pipes|] == Spawned(SPAWN_X, h, dims.pipeHeight);
    }
    KeptVisibleSnoc(l.pipes, np, rem, dims.pipeWidth);
  }

  /** `for r in rem: pipes.remove(r)`, over the locals, whose values are S. */
  method RetireStage(l: Locals, dims: Dims, rem: seq<Pipe>, ghost S: World) returns (r: Locals)
    requires S == Snapshot(l) && Distinct(l.pipes)
    requires Distinct(rem) && forall k :: 0 <= k < |rem| ==> rem[k] in l.pipes
    requires PipeStates(Without(l.pipes, rem)) == Visible(S.pipes, dims.pipeWidth)
    ensures Snapshot(r) == S.(pipes := Visible(S.pipes, dims.pipeWidth))
    ensures r.birds == l.birds && r.base == l.base && Distinct(r.pipes)
    ensures forall k :: 0 <= k < |r.pipes| ==> r.pipes[k] in l.pipes
  {
    var kept := RemovePipes(l.pipes, rem);
    r := l.(pipes := kept);
    WithoutDistinct(l.pipes, rem);
    WithoutSubset(l.pipes, rem);
  }

  /** `if add_pipe:` the score, the bonus and a new pipe; then `for r in rem:
      pipes.remove(r)`. */
  method SpawnAndRetire(l: Locals, dims: Dims, h: int, addPipe: bool, rem: seq<Pipe>, ghost W: World)
    returns (r: Locals)
    requires W == Snapshot(l) && Aligned(W) && HEIGHT_LO <= h < HEIGHT_HI && Distinct(l.pipes)
    requires Distinct(rem) && forall k :: 0 <= k < |rem| ==> rem[k] in l.pipes
    requires Without(l.pipes, rem) == Pick(l.pipes, VisiblePositions(W.pipes, dims.pipeWidth))
    ensures var sp := Spawn(W, addPipe, h, dims); Snapshot(r) == sp.(pipes := Visible(sp.pipes, dims.pipeWidth))
    ensures r.birds == l.birds && r.base == l.base && Distinct(r.pipes)
    ensures forall k :: 0 <= k < |r.pipes| ==>
      (r.pipes[k] in l.pipes ||
       (fresh(r.pipes[k]) && r.pipes[k].topHeight == dims.pipeHeight && r.pipes[k].width == dims.pipeWidth))
  {
    var spawned := SpawnStage(l, dims, h, addPipe, rem, W);
    r := RetireStage(spawned, dims, rem, Snapshot(spawned));
  }

  /** The bounds pass, then `base.move()`. */
  method BoundAndScroll(l: Locals, dims: Dims, ghost W: World) returns (r: Locals)
    requires W == Snapshot(l) && Aligned(W) && BirdsOk(W.birds)
    modifies l.base
    ensures var b := BoundsPhase(W, dims); var g := Ground.Scrolled(b.0.x1, b.0.x2, l.base.width);
      Snapshot(r) == b.0.(x1 := g.0, x2 := g.1) && r.birds == Pick(l.birds, b.1)
    ensures r.pipes == l.pipes && r.base == l.base
  {
    assert forall k :: 0 <= k < |l.birds| ==> l.birds[k].State() == W.birds[k];
    var bounded := TickBounds(l, dims);
    ghost var B := Snapshot(bounded);
    bounded.base.Move();
    r := bounded;
    BirdsKept(r.birds);
    PipesKept(r.pipes);
    assert Snapshot(r) == B.(x1 := r.base.x1, x2 := r.base.x2);
  }

  /** A tick up to the bounds pass: thinking, the pipe loop, the spawn and
      the removal of the pipes that have left the screen. */
  method Advance(l: Locals, dims: Dims, activate: Controller, collide: Collider, h: int, ghost W: World)
    returns (r: Locals)
    requires W == Snapshot(l) && Sound(l, dims) && |l.birds| > 0 && HEIGHT_LO <= h < HEIGHT_HI
    modifies l.birds, l.pipes
    ensures var t := Phases(W, dims, activate, collide, h);
      Snapshot(r) == t.retired && BirdsOk(t.retired.birds) && Aligned(t.retired)
    ensures r.base == l.base && Distinct(r.birds) && Distinct(r.pipes)
    ensures forall k :: 0 <= k < |r.birds| ==> r.birds[k] in l.birds
    ensures forall k :: 0 <= k < |r.pipes| ==>
      (r.pipes[k] in l.pipes ||
       (fresh(r.pipes[k]) && r.pipes[k].topHeight == dims.pipeHeight && r.pipes[k].width == dims.pipeWidth))
  {
    ghost var t := Phases(W, dims, activate, collide, h);
    var swept, addPipe, rem := ThinkAndSweep(l, dims, activate, collide, W);
    PickDistinct(l.birds, t.swept.2);
    r := SpawnAndRetire(swept, dims, h, addPipe, rem, t.swept.0);
    ThoughtBirdsOk(W, dims, activate);
    PickBirdsOk(t.thought.birds, t.swept.2);
  }

  /** One pass of `while run and len(birds) > 0:` over the locals, whose
      values on entry are W, with h the height a pipe spawned in it draws. */
  method Tick(l: Locals, dims: Dims, activate: Controller, collide: Collider, h: int, ghost W: World)
    returns (r: Locals)
    requires W == Snapshot(l) && Sound(l, dims) && |l.birds| > 0 && HEIGHT_LO <= h < HEIGHT_HI
    modifies l.birds, l.pipes, l.base
    ensures Sound(r, dims) && Snapshot(r) == Simulation.Tick(W, dims, activate, collide, h)
    ensures r.base == l.base && forall k :: 0 <= k < |r.birds| ==> r.birds[k] in l.birds
    ensures forall k :: 0 <= k < |r.pipes| ==> r.pipes[k] in l.pipes || fresh(r.pipes[k])
  {
    ghost var t := Phases(W, dims, activate, collide, h);
    var retired := Advance(l, dims, activate, collide, h, W);
    r := BoundAndScroll(retired, dims, t.retired);
    ghost var b := t.bounded.0;
    ghost var g := Ground.Scrolled(b.x1, b.x2, dims.baseWidth);
    assert Snapshot(r) == b.(x1 := g.0, x2 := g.1) == Simulation.Tick(W, dims, activate, collide, h);
    PickDistinct(retired.birds, t.bounded.1);
    assert r.pipes == retired.pipes;
  }

  /** `while run and len(birds) > 0:`, one tick and then the rest of the
      loop, with heights holding the height drawn in each tick; the loop also
      ends when the heights run out, which stands for the window being closed. */
  method Run(l: Locals, dims: Dims, activate: Controller, collide: Collider, heights: seq<int>, ghost W: World)
    returns (r: Locals)
    requires W == Snapshot(l) && Sound(l, dims) && HeightsOk(heights)
    modifies l.birds, l.pipes, l.base
    decreases |heights|
    ensures Snapshot(r) == Play(W, dims, activate, collide, heights) && r.base == l.base
  {
    if |heights| == 0 || |l.birds| == 0 {
      r := l;
      PlayDone(W, dims, activate, collide, heights);
    } else {
      PlayStep(W, dims, activate, collide, heights);
      var next := Tick(l, dims, activate, collide, heights[0], W);
      r := Run(next, dims, activate, collide, heights[1..], Snapshot(next));
    }
  }

  /** `main` for one generation of n genomes: the set-up, with h0 the height
      of the first pipe, then the game loop. */
  method Train(n: nat, dims: Dims, activate: Controller, collide: Collider, h0: int, heights: seq<int>)
    returns (r: Locals)
    requires HEIGHT_LO <= h0 < HEIGHT_HI && dims.baseWidth >= Ground.VEL && HeightsOk(heights)
    ensures Snapshot(r) == Play(Start(n, dims, h0), dims, activate, collide, heights)
  {
    var l := Setup(n, dims, h0);
    r := Run(l, dims, activate, collide, heights, Snapshot(l));
  }
}
