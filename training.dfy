/** The body of `main`: the set-up of a generation and the game loop, over
    the local variables `main` keeps.  Birds, pipes and the ground are
    objects updated in place; the parallel lists of birds, networks and
    genomes are popped from as the loops walk them, and the fitness of
    every genome is a ledger indexed by genome.  Each phase of a tick is
    proved to do what the corresponding function of Simulation says. */
module Training {
  import opened Lists
  import opened BirdPhysics
  import opened Pipes
  import opened Simulation
  import Ground

  /** The local variables of `main` that the game loop updates: the birds,
      the network and the genome of each (networks and genomes by number),
      the fitness of every genome, the pipes, the ground and the score. */
  datatype Locals = Locals(
    birds: seq<Bird>,
    nets: seq<nat>,
    ge: seq<nat>,
    fitness: seq<real>,
    pipes: seq<Pipe>,
    base: Ground.Base,
    score: int)

  function BirdStates(bs: seq<Bird>): (r: seq<BirdState>)
    reads bs
    ensures |r| == |bs| && forall k :: 0 <= k < |bs| ==> r[k] == bs[k].State()
  {
    seq(|bs|, k reads bs requires 0 <= k < |bs| => bs[k].State())
  }

  function PipeStates(ps: seq<Pipe>): (r: seq<PipeState>)
    reads ps
    ensures |r| == |ps| && forall k :: 0 <= k < |ps| ==> r[k] == ps[k].State()
  {
    seq(|ps|, k reads ps requires 0 <= k < |ps| => ps[k].State())
  }

  /** Which of the birds the test `dead` removes. */
  function HitsOf(bs: seq<Bird>, dead: BirdState -> bool): (r: seq<bool>)
    reads bs
    ensures |r| == |bs| && forall k :: 0 <= k < |bs| ==> r[k] == dead(bs[k].State())
  {
    seq(|bs|, k reads bs requires 0 <= k < |bs| => dead(bs[k].State()))
  }

  /** The values of everything the locals refer to. */
  function Snapshot(l: Locals): World
    reads l.birds, l.pipes, l.base
  {
    World(BirdStates(l.birds), l.nets, l.ge, l.fitness, PipeStates(l.pipes), l.base.x1, l.base.x2, l.score)
  }

  /** The world invariant, plus: no bird or pipe object appears twice, and
      every pipe and the ground were built with the image sizes of dims. */
  predicate Sound(l: Locals, dims: Dims)
    reads l.birds, l.pipes, l.base
  {
    Valid(Snapshot(l), dims) && Distinct(l.birds) && Distinct(l.pipes) &&
    (forall k :: 0 <= k < |l.pipes| ==> l.pipes[k].topHeight == dims.pipeHeight && l.pipes[k].width == dims.pipeWidth) &&
    l.base.width == dims.baseWidth
  }

  /** The set-up of `main` for n genomes: every genome's fitness is zeroed
      and it gets a network and a bird at (BIRD_X, BIRD_Y); then the ground
      and a first pipe, whose random height came out as h. */
  method Setup(n: nat, dims: Dims, h: int) returns (l: Locals)
    requires HEIGHT_LO <= h < HEIGHT_HI && dims.baseWidth >= Ground.VEL
    ensures Sound(l, dims) && Snapshot(l) == Start(n, dims, h)
    ensures fresh(l.base) && forall k :: 0 <= k < |l.pipes| ==> fresh(l.pipes[k])
    ensures forall k :: 0 <= k < |l.birds| ==> fresh(l.birds[k])
  {
    var bs: seq<Bird> := [];
    var ns: seq<nat> := [];
    var gs: seq<nat> := [];
    var fs: seq<real> := [];
    for i := 0 to n
      invariant |bs| == i && |ns| == i && |gs| == i && |fs| == i
      invariant forall k :: 0 <= k < i ==> ns[k] == k && gs[k] == k && fs[k] == 0.0
      invariant Distinct(bs) && forall k :: 0 <= k < i ==> fresh(bs[k])
      invariant forall k :: 0 <= k < i ==>
        bs[k].State() == BirdState(BIRD_X, BIRD_Y as real, 0, 0, 0.0, BIRD_Y as real)
    {
      fs := fs + [0.0];
      ns := ns + [i];
      var b := new Bird(BIRD_X, BIRD_Y);
      bs := bs + [b];
      gs := gs + [i];
    }
    ghost var w := Start(n, dims, h);
    assert BirdStates(bs) == w.birds;
    assert ns == w.nets && gs == w.ge && fs == w.fitness;
    var base := new Ground.Base(FLOOR, dims.baseWidth);
    var first := new Pipe(SPAWN_X, h, dims.pipeHeight, dims.pipeWidth);
    l := Locals(bs, ns, gs, fs, [first], base, 0);
    assert BirdStates(bs) == w.birds;
    assert PipeStates(l.pipes) == w.pipes;
    StartValid(n, dims, h);
  }

  /** Adding amount for one more genome, not yet rewarded, extends the reward. */
  lemma RewardStep(f: seq<real>, ge: seq<nat>, x: nat, amount: real)
    requires Distinct(ge) && x < |ge| && ge[x] < |f|
    ensures Reward(f, ge[..x + 1], amount) ==
            Reward(f, ge[..x], amount)[ge[x] := Reward(f, ge[..x], amount)[ge[x]] + amount]
  {
    assert ge[..x + 1] == ge[..x] + [ge[x]];
    assert ge[x] !in ge[..x];
  }

  /** `for g in ge: g.fitness += amount`. */
  method RewardAll(fitness: seq<real>, ge: seq<nat>, amount: real) returns (f: seq<real>)
    requires Distinct(ge) && forall k :: 0 <= k < |ge| ==> ge[k] < |fitness|
    ensures f == Reward(fitness, ge, amount)
  {
    f := fitness;
    assert f == Reward(fitness, ge[..0], amount);
    for j := 0 to |ge|
      invariant f == Reward(fitness, ge[..j], amount)
    {
      RewardStep(fitness, ge, j, amount);
      f := f[ge[j] := f[ge[j]] + amount];
    }
    assert ge[..|ge|] == ge;
  }

  /** Changing no bird leaves their states as they were. */
  twostate lemma BirdsKept(bs: seq<Bird>)
    requires forall k :: 0 <= k < |bs| ==> unchanged(bs[k])
    ensures BirdStates(bs) == old(BirdStates(bs))
  {
  }

  /** Changing no pipe leaves their states as they were. */
  twostate lemma PipesKept(ps: seq<Pipe>)
    requires forall k :: 0 <= k < |ps| ==> unchanged(ps[k])
    ensures PipeStates(ps) == old(PipeStates(ps))
  {
  }

  /** One bird's turn in the first loop of a tick: `bird.move()`, ask its
      network about the pipe, and `bird.jump()` when the answer is above
      THRESHOLD. */
  method Steer(bird: Bird, net: nat, pipe: Pipe, activate: Controller)
    modifies bird
    ensures bird.State() == Think(old(bird.State()), net, pipe.State(), activate)
  {
    bird.Move();
    var output := activate(net, Observe(bird.State(), pipe.State()));
    if output > THRESHOLD {
      bird.Jump();
    }
  }

  /** `for x, bird in enumerate(birds): ge[x].fitness += 0.1; bird.move();
      output = nets[birds.index(bird)].activate(...); if output[0] > 0.5:
      bird.jump()`, every network looking at pipe. */
  method ThinkLoop(birds: seq<Bird>, nets: seq<nat>, ge: seq<nat>, fitness: seq<real>, pipe: Pipe, activate: Controller)
    returns (f: seq<real>)
    requires |birds| == |nets| == |ge| && Distinct(birds) && Distinct(ge)
    requires forall k :: 0 <= k < |ge| ==> ge[k] < |fitness|
    modifies birds
    ensures BirdStates(birds) == ThinkAll(old(BirdStates(birds)), nets, pipe.State(), activate)
    ensures f == Reward(fitness, ge, SURVIVAL)
  {
    ghost var S0 := BirdStates(birds);
    f := fitness;
    assert f == Reward(fitness, ge[..0], SURVIVAL);
    for x := 0 to |birds|
      invariant forall k :: 0 <= k < x ==> birds[k].State() == Think(S0[k], nets[k], pipe.State(), activate)
      invariant forall k :: x <= k < |birds| ==> birds[k].State() == S0[k]
      invariant f == Reward(fitness, ge[..x], SURVIVAL)
    {
      var bird := birds[x];
      RewardStep(fitness, ge, x, SURVIVAL);
      f := f[ge[x] := f[ge[x]] + SURVIVAL];
      IndexOfDistinct(birds, x);
      Steer(bird, nets[IndexOf(birds, bird)], pipe, activate);
    }
    assert ge[..|ge|] == ge;
  }

  /** The first phase of a tick over the locals, whose values on entry are
      W: the networks look at the pipe `pipe_ind` names, which is always the
      first one. */
  method TickThink(l: Locals, dims: Dims, activate: Controller, ghost W: World) returns (r: Locals)
    requires W == Snapshot(l) && Sound(l, dims)
    modifies l.birds
    ensures Snapshot(r) == ThinkPhase(W, dims, activate)
    ensures r == l.(fitness := r.fitness)
  {
    var pipeInd := 0;
    if |l.birds| > 0 && |l.pipes| > 1 && l.birds[0].x > l.birds[0].x + l.pipes[0].width {
      pipeInd := 1;
    }
    var f := ThinkLoop(l.birds, l.nets, l.ge, l.fitness, l.pipes[pipeInd], activate);
    r := l.(fitness := f);
    PipesKept(l.pipes);
    assert Snapshot(r) == W.(birds := BirdStates(l.birds), fitness := f);
  }

  /** The pipe loop of a tick over the locals.  The bird its pass test
      starts from is the one the first loop of the tick left behind, the
      last bird; W holds the values of the locals on entry. */
  method TickSweep(l: Locals, dims: Dims, collide: Collider, ghost W: World)
    returns (r: Locals, addPipe: bool, rem: seq<Pipe>)
    requires W == Snapshot(l) && Aligned(W) && |l.birds| > 0 && Distinct(l.pipes)
    requires forall k :: 0 <= k < |l.birds| ==> l.birds[k].x == BIRD_X
    requires forall k :: 0 <= k < |l.pipes| ==> l.pipes[k].width == dims.pipeWidth
    modifies l.pipes
    ensures var s := PipeSweep(W, collide, |W.pipes|);
      Snapshot(r) == s.0 && addPipe == s.1 && r.birds == Pick(l.birds, s.2) &&
      Without(l.pipes, rem) == Pick(l.pipes, VisiblePositions(s.0.pipes, dims.pipeWidth))
    ensures r.pipes == l.pipes && r.base == l.base
    ensures Distinct(rem) && forall k :: 0 <= k < |rem| ==> rem[k] in l.pipes
  {
    var bs, ns, gs, fs, last;
    bs, ns, gs, fs, addPipe, rem, last :=
      SweepLoop(l.birds, l.nets, l.ge, l.fitness, l.pipes, dims.pipeWidth, collide, l.birds[|l.birds| - 1], W);
    r := l.(birds := bs, nets := ns, ge := gs, fitness := fs);
    ghost var s := PipeSweep(W, collide, |W.pipes|);
    assert Advanced(W.pipes) == s.0.pipes;
    WithoutOffScreen(l.pipes, s.0.pipes, rem, dims.pipeWidth);
    BirdsKept(l.birds);
    PickBirdStates(l.birds, s.2);
    assert BirdStates(r.birds) == s.0.birds;
    assert Snapshot(r) == s.0;
  }

  /** `for pipe in pipes:` with its body: the pipe moves; every bird it hits
      is popped and its genome loses PENALTY; the pipe is marked passed
      when it is unpassed and left of `bird`, the bird variable the last
      enumerate left behind; and a pipe that has left the screen joins rem.
      w holds the values at the start, every pipe is width wide. */
  method SweepLoop(birds: seq<Bird>, nets: seq<nat>, ge: seq<nat>, fitness: seq<real>, pipes: seq<Pipe>,
                   width: nat, collide: Collider, bird: Bird, ghost w: World)
    returns (bs: seq<Bird>, ns: seq<nat>, gs: seq<nat>, fs: seq<real>, addPipe: bool, rem: seq<Pipe>, last: Bird)
    requires Aligned(w) && w.birds == BirdStates(birds) && w.nets == nets && w.ge == ge && w.fitness == fitness
    requires w.pipes == PipeStates(pipes) && Distinct(pipes) && forall k :: 0 <= k < |pipes| ==> pipes[k].width == width
    requires bird.x == BIRD_X && forall k :: 0 <= k < |birds| ==> birds[k].x == BIRD_X
    modifies pipes
    ensures Sweeping(PipeSweep(w, collide, |pipes|), birds, bs, ns, gs, fs, addPipe, PipeStates(pipes))
    ensures Retiring(pipes, Advanced(w.pipes), rem, |pipes|, width)
  {
    bs, ns, gs, fs := birds, nets, ge, fitness;
    addPipe := false;
    rem := [];
    last := bird;
    ghost var xs := Advanced(w.pipes);
    ghost var ps := w.pipes;
    ghost var sw := PipeSweep(w, collide, 0);
    SweepStart(w, collide, birds);
    for i := 0 to |pipes|
      invariant Midway(w, collide, xs, birds, pipes, width, i, bs, ns, gs, fs, addPipe, rem, last, sw, ps)
    {
      bs, ns, gs, fs, addPipe, rem, last, sw, ps :=
        SweepTurn(pipes, i, width, collide, birds, w, xs, bs, ns, gs, fs, addPipe, rem, last, sw, ps);
    }
  }

  /** Where the pipe loop stands before pipe i: the loop's variables are
      those the pure sweep leaves after i pipes, and rem holds the pipes so
      far that have left the screen. */
  ghost predicate Midway(w: World, collide: Collider, xs: seq<PipeState>, birds: seq<Bird>, pipes: seq<Pipe>,
                         width: nat, i: nat, bs: seq<Bird>, ns: seq<nat>, gs: seq<nat>, fs: seq<real>,
                         addPipe: bool, rem: seq<Pipe>, last: Bird, sw: (World, bool, seq<nat>), ps: seq<PipeState>)
    reads birds, pipes, last
  {
    Aligned(w) && i <= |pipes| == |w.pipes| && xs == Advanced(w.pipes) &&
    BirdStates(birds) == w.birds && (forall k :: 0 <= k < |birds| ==> birds[k].x == BIRD_X) &&
    (forall k :: 0 <= k < |pipes| ==> pipes[k].width == width) &&
    sw == PipeSweep(w, collide, i) && Sweeping(sw, birds, bs, ns, gs, fs, addPipe, ps) &&
    ps == PipeStates(pipes) && Retiring(pipes, xs, rem, i, width) && last.x == BIRD_X
  }

  /** One round of the pipe loop, on the loop's own variables: pipe i takes
      its turn, the pass flag and the list of pipes to remove are updated,
      and the lists become those the pure sweep leaves after i + 1 pipes. */
  method SweepTurn(pipes: seq<Pipe>, i: nat, width: nat, collide: Collider, birds: seq<Bird>,
                   ghost w: World, ghost xs: seq<PipeState>,
                   bs: seq<Bird>, ns: seq<nat>, gs: seq<nat>, fs: seq<real>, addPipe: bool, rem: seq<Pipe>,
                   last: Bird, ghost sw: (World, bool, seq<nat>), ghost ps: seq<PipeState>)
    returns (bs': seq<Bird>, ns': seq<nat>, gs': seq<nat>, fs': seq<real>, addPipe': bool, rem': seq<Pipe>,
             last': Bird, ghost sw': (World, bool, seq<nat>), ghost ps': seq<PipeState>)
    requires i < |pipes| && Midway(w, collide, xs, birds, pipes, width, i, bs, ns, gs, fs, addPipe, rem, last, sw, ps)
    modifies pipes[i]
    ensures Midway(w, collide, xs, birds, pipes, width, i + 1, bs', ns', gs', fs', addPipe', rem', last', sw', ps')
  {
    PickBirdStates(birds, sw.2);
    assert BirdStates(bs) == sw.0.birds;
    var pipe := pipes[i];
    var passes, off;
    bs', ns', gs', fs', passes, off, last' := PipeTurn(pipe, bs, ns, gs, fs, width, collide, last,
                                                      sw.0.birds, pipes, i);
    ps' := PipeStates(pipes);
    BirdsKept(birds);
    SweepStep(w, collide, i, birds, bs, ns, gs, fs, addPipe, ps,
              PopSurvivors(CollisionHits(sw.0.birds, Shifted(w.pipes[i]), collide), 0), bs', ns', gs', fs',
              passes, ps');
    RetireStep(pipes, xs, rem, i, width, off);
    sw' := PipeSweep(w, collide, i + 1);
    addPipe' := addPipe || passes;
    rem' := if off then rem + [pipe] else rem;
  }

  /** The body of `for pipe in pipes:` for one pipe: `pipe.move()`, the
      enumerate-and-pop pass over the birds it hits with PENALTY, then
      `if not pipe.passed and pipe.x < bird.x: pipe.passed = True` with bird
      the last bird that pass looked at; passes tells whether that fired and
      off whether the pipe has left the screen. */
  method PipeTurn(pipe: Pipe, birds: seq<Bird>, nets: seq<nat>, ge: seq<nat>, fitness: seq<real>,
                  width: nat, collide: Collider, bird: Bird,
                  ghost states: seq<BirdState>, ghost pipes: seq<Pipe>, ghost i: nat)
    returns (bs: seq<Bird>, ns: seq<nat>, gs: seq<nat>, fs: seq<real>, passes: bool, off: bool, last: Bird)
    requires |birds| == |nets| == |ge| && Distinct(ge) && forall k :: 0 <= k < |ge| ==> ge[k] < |fitness|
    requires bird.x == BIRD_X && forall k :: 0 <= k < |birds| ==> birds[k].x == BIRD_X
    requires states == BirdStates(birds)
    requires Distinct(pipes) && i < |pipes| && pipe == pipes[i] && pipe.width == width
    modifies pipe
    ensures var pos := PopSurvivors(CollisionHits(states, Shifted(old(pipe.State())), collide), 0);
      Below(pos, |birds|) && bs == Pick(birds, pos) && ns == Pick(nets, pos) && gs == Pick(ge, pos) &&
      fs == Charge(fitness, ge, gs, PENALTY)
    ensures PipeStates(pipes) == old(PipeStates(pipes))[i := Marked(Shifted(old(pipe.State())), BIRD_X)]
    ensures passes == Passes(Shifted(old(pipe.State())), BIRD_X)
    ensures off == OffScreen(pipe.State(), width)
    ensures last.x == BIRD_X
  {
    pipe.Move();
    var ps := pipe.State();
    ghost var hits := HitsOf(birds, b => collide(ps, b));
    BirdsKept(birds);
    assert hits == CollisionHits(states, ps, collide);
    bs, ns, gs, fs, last := PopPass(birds, nets, ge, fitness, b => collide(ps, b), hits, true, bird);
    passes := false;
    if !pipe.passed && pipe.x < last.x {
      pipe.passed := true;
      passes := true;
    }
    off := pipe.x + pipe.width < 0;
  }

  /** The pipe loop over birds that started as B holds the lists that the
      pure sweep sw leaves. */
  ghost predicate Sweeping<T>(sw: (World, bool, seq<nat>), B: seq<T>,
                              bs: seq<T>, ns: seq<nat>, gs: seq<nat>, fs: seq<real>, addPipe: bool,
                              ps: seq<PipeState>)
  {
    Below(sw.2, |B|) && bs == Pick(B, sw.2) && ns == sw.0.nets && gs == sw.0.ge && fs == sw.0.fitness &&
    addPipe == sw.1 && ps == sw.0.pipes
  }

  lemma SweepStart<T>(w: World, collide: Collider, B: seq<T>)
    requires Aligned(w) && |B| == |w.birds|
    ensures Sweeping(PipeSweep(w, collide, 0), B, B, w.nets, w.ge, w.fitness, false, w.pipes)
  {
    assert Pick(B, Range(|B|)) == B;
  }

  /** One more pipe: moving and marking it, and popping the birds it hits
      from the lists PipeSweep left after i pipes, gives the lists it leaves
      after i + 1. */
  lemma SweepStep<T>(w: World, collide: Collider, i: nat, B: seq<T>,
                     bs: seq<T>, ns: seq<nat>, gs: seq<nat>, fs: seq<real>, addPipe: bool, ps: seq<PipeState>,
                     pos: seq<nat>, bs': seq<T>, ns': seq<nat>, gs': seq<nat>, fs': seq<real>, passes: bool,
                     ps': seq<PipeState>)
    requires Aligned(w) && i < |w.pipes| && |B| == |w.birds|
    requires Sweeping(PipeSweep(w, collide, i), B, bs, ns, gs, fs, addPipe, ps)
    requires var s := PipeSweep(w, collide, i);
      pos == PopSurvivors(CollisionHits(s.0.birds, Shifted(w.pipes[i]), collide), 0)
    requires Below(pos, |bs|) && bs' == Pick(bs, pos) && ns' == Pick(ns, pos) && gs' == Pick(gs, pos)
    requires fs' == Charge(fs, gs, gs', PENALTY)
    requires passes == Passes(Shifted(w.pipes[i]), BIRD_X)
    requires ps' == ps[i := Marked(Shifted(w.pipes[i]), BIRD_X)]
    ensures Sweeping(PipeSweep(w, collide, i + 1), B, bs', ns', gs', fs', addPipe || passes, ps')
  {
    var s := PipeSweep(w, collide, i);
    PickPick(B, s.2, pos);
    SweepMarks(w, collide, i);
  }

  /** The pipe loop moves and marks pipe i and no other. */
  lemma SweepMarks(w: World, collide: Collider, i: nat)
    requires Aligned(w) && i < |w.pipes|
    ensures PipeSweep(w, collide, i + 1).0.pipes ==
            PipeSweep(w, collide, i).0.pipes[i := Marked(Shifted(w.pipes[i]), BIRD_X)]
  {
  }

  /** The pipe loop after i pipes has collected in rem exactly those of the
      first i pipes whose states in xs are off screen. */
  ghost predicate Retiring<T>(ps: seq<T>, xs: seq<PipeState>, rem: seq<T>, i: nat, width: nat)
  {
    |ps| == |xs| && i <= |ps| && Distinct(ps) && Distinct(rem) &&
    (forall j :: 0 <= j < |rem| ==> rem[j] in ps[..i]) &&
    forall k :: 0 <= k < |ps| ==> (ps[k] in rem <==> k < i && OffScreen(xs[k], width))
  }

  lemma RetireStep<T>(ps: seq<T>, xs: seq<PipeState>, rem: seq<T>, i: nat, width: nat, off: bool)
    requires Retiring(ps, xs, rem, i, width) && i < |ps| && off == OffScreen(xs[i], width)
    ensures Retiring(ps, xs, if off then rem + [ps[i]] else rem, i + 1, width)
  {
    assert ps[i] !in rem;
    assert ps[..i + 1] == ps[..i] + [ps[i]];
    if off {
      RetireAdd(ps, xs, rem, i, width);
    }
  }

  /** The off-screen case of RetireStep: the pipe joins rem. */
  lemma RetireAdd<T>(ps: seq<T>, xs: seq<PipeState>, rem: seq<T>, i: nat, width: nat)
    requires Retiring(ps, xs, rem, i, width) && i < |ps| && OffScreen(xs[i], width)
    ensures Retiring(ps, xs, rem + [ps[i]], i + 1, width)
  {
    var rem' := rem + [ps[i]];
    assert ps[i] !in rem;
    assert Distinct(rem') by {
      forall a, b | 0 <= a < b < |rem'| ensures rem'[a] != rem'[b] {
        if b == |rem| { assert rem'[a] == rem[a]; }
      }
    }
    assert forall j :: 0 <= j < |rem'| ==> rem'[j] in ps[..i + 1] by {
      assert ps[..i + 1] == ps[..i] + [ps[i]];
      forall j | 0 <= j < |rem'| ensures rem'[j] in ps[..i + 1] {
        if j < |rem| { assert rem'[j] == rem[j] && rem[j] in ps[..i]; }
      }
    }
    forall k | 0 <= k < |ps| ensures ps[k] in rem' <==> k < i + 1 && OffScreen(xs[k], width) {
      assert ps[k] in rem' <==> ps[k] in rem || ps[k] == ps[i];
      assert ps[k] == ps[i] <==> k == i;
    }
  }

  /** Dropping the pipes in rem, where exactly those whose states xs are off
      screen are in rem, keeps the on-screen ones in order. */
  lemma {:induction false} WithoutOffScreen<T>(ps: seq<T>, xs: seq<PipeState>, rem: seq<T>, width: nat)
    requires |ps| == |xs| && forall k :: 0 <= k < |ps| ==> (ps[k] in rem <==> OffScreen(xs[k], width))
    ensures Without(ps, rem) == Pick(ps, VisiblePositions(xs, width))
  {
    if ps != [] {
      var n := |ps| - 1;
      WithoutOffScreen(ps[..n], xs[..n], rem, width);
      var idx := VisiblePositions(xs[..n], width);
      assert Pick(ps[..n], idx) == Pick(ps, idx);
      if !OffScreen(xs[n], width) {
        PickSnoc(ps, idx, n);
      }
    }
  }

  /** `for x, bird in enumerate(birds): if dead(bird): [ge[x].fitness -= 1;]
      birds.pop(x); nets.pop(x); ge.pop(x)`.  Popping shifts the next entry
      into index x, and the loop then moves on to x + 1, so an entry right
      after a removed one is never tested.  Returns the lists the loop
      leaves and the last bird it looked at (bird if it looked at none). */
  method PopPass(birds: seq<Bird>, nets: seq<nat>, ge: seq<nat>, fitness: seq<real>,
                 dead: BirdState -> bool, ghost hits: seq<bool>, penalize: bool, bird: Bird)
    returns (bs: seq<Bird>, ns: seq<nat>, gs: seq<nat>, fs: seq<real>, last: Bird)
    requires |birds| == |nets| == |ge| && Distinct(ge) && forall k :: 0 <= k < |ge| ==> ge[k] < |fitness|
    requires hits == HitsOf(birds, dead)
    requires bird.x == BIRD_X && forall k :: 0 <= k < |birds| ==> birds[k].x == BIRD_X
    ensures var pos := PopSurvivors(hits, 0);
      Below(pos, |birds|) && bs == Pick(birds, pos) && ns == Pick(nets, pos) && gs == Pick(ge, pos) &&
      fs == if penalize then Charge(fitness, ge, gs, PENALTY) else fitness
    ensures last.x == BIRD_X
  {
    ghost var pos: seq<nat> := Span(0, |birds|);
    bs, ns, gs, fs := birds, nets, ge, fitness;
    var x := 0;
    PopStart(birds, nets, ge, fitness, hits, penalize);
    last := bird;
    while x < |bs|
      invariant Popping(birds, nets, ge, fitness, hits, penalize, pos, x, bs, ns, gs, fs)
      invariant last.x == BIRD_X
      decreases |bs| - x
    {
      var b := bs[x];
      last := b;
      assert hits[pos[x]] == dead(b.State());
      if dead(b.State()) {
        PopStep(birds, nets, ge, fitness, hits, penalize, pos, x, bs, ns, gs, fs);
        if penalize {
          fs := fs[gs[x] := fs[gs[x]] - PENALTY];
        }
        bs := RemoveAt(bs, x);
        ns := RemoveAt(ns, x);
        gs := RemoveAt(gs, x);
        pos := RemoveAt(pos, x);
      } else {
        KeepStep(birds, nets, ge, fitness, hits, penalize, pos, x, bs, ns, gs, fs);
      }
      x := x + 1;
    }
    PopDone(birds, nets, ge, fitness, hits, penalize, pos, x, bs, ns, gs, fs);
  }

  /** The state of the enumerate-and-pop loop over lists that started as B0,
      N0 and G0 with hits h, at index x: the lists hold the positions pos of
      the originals, and the rest of the loop leaves the survivors. */
  ghost predicate Popping<T>(B0: seq<T>, N0: seq<nat>, G0: seq<nat>, F0: seq<real>, h: seq<bool>, penalize: bool,
                             pos: seq<nat>, x: nat, bs: seq<T>, ns: seq<nat>, gs: seq<nat>, fs: seq<real>)
  {
    |h| == |B0| == |N0| == |G0| && Below(pos, |B0|) && PopLoop(h, pos, x) == PopSurvivors(h, 0) &&
    bs == Pick(B0, pos) && ns == Pick(N0, pos) && gs == Pick(G0, pos) &&
    Distinct(gs) && (forall k :: 0 <= k < |gs| ==> gs[k] < |F0|) &&
    fs == if penalize then Charge(F0, G0, gs, PENALTY) else F0
  }

  lemma PopStart<T>(B0: seq<T>, N0: seq<nat>, G0: seq<nat>, F0: seq<real>, h: seq<bool>, penalize: bool)
    requires |h| == |B0| == |N0| == |G0| && Distinct(G0) && forall k :: 0 <= k < |G0| ==> G0[k] < |F0|
    ensures Popping(B0, N0, G0, F0, h, penalize, Span(0, |B0|), 0, B0, N0, G0, F0)
  {
    var pos := Span(0, |B0|);
    assert Pick(B0, pos) == B0 && Pick(N0, pos) == N0 && Pick(G0, pos) == G0;
    PopLoopSurvivors(h, [], 0);
    assert [] + pos == pos;
    assert F0 == Charge(F0, G0, G0, PENALTY);
  }

  /** Popping a dead entry at x. */
  lemma PopStep<T>(B0: seq<T>, N0: seq<nat>, G0: seq<nat>, F0: seq<real>, h: seq<bool>, penalize: bool,
                   pos: seq<nat>, x: nat, bs: seq<T>, ns: seq<nat>, gs: seq<nat>, fs: seq<real>)
    requires Popping(B0, N0, G0, F0, h, penalize, pos, x, bs, ns, gs, fs)
    requires x < |bs| && h[pos[x]]
    ensures x < |gs| && gs[x] < |fs|
    ensures Popping(B0, N0, G0, F0, h, penalize, RemoveAt(pos, x), x + 1,
                    RemoveAt(bs, x), RemoveAt(ns, x), RemoveAt(gs, x),
                    if penalize then fs[gs[x] := fs[gs[x]] - PENALTY] else fs)
  {
    RemoveAtDistinct(gs, x);
    PickRemoveAt(B0, pos, x);
    PickRemoveAt(N0, pos, x);
    PickRemoveAt(G0, pos, x);
    if penalize {
      ChargeDrop(F0, G0, gs, x, PENALTY);
    }
  }

  /** Stepping over a live entry at x. */
  lemma KeepStep<T>(B0: seq<T>, N0: seq<nat>, G0: seq<nat>, F0: seq<real>, h: seq<bool>, penalize: bool,
                    pos: seq<nat>, x: nat, bs: seq<T>, ns: seq<nat>, gs: seq<nat>, fs: seq<real>)
    requires Popping(B0, N0, G0, F0, h, penalize, pos, x, bs, ns, gs, fs)
    requires x < |bs| && !h[pos[x]]
    ensures Popping(B0, N0, G0, F0, h, penalize, pos, x + 1, bs, ns, gs, fs)
  {
  }

  /** When the loop ends, the lists hold exactly the survivors. */
  lemma PopDone<T>(B0: seq<T>, N0: seq<nat>, G0: seq<nat>, F0: seq<real>, h: seq<bool>, penalize: bool,
                   pos: seq<nat>, x: nat, bs: seq<T>, ns: seq<nat>, gs: seq<nat>, fs: seq<real>)
    requires Popping(B0, N0, G0, F0, h, penalize, pos, x, bs, ns, gs, fs)
    requires x >= |bs|
    ensures pos == PopSurvivors(h, 0) && Below(pos, |B0|)
    ensures bs == Pick(B0, pos) && ns == Pick(N0, pos) && gs == Pick(G0, pos)
    ensures fs == if penalize then Charge(F0, G0, gs, PENALTY) else F0
  {
  }

  /** Popping a genome that was in before charges it and nobody else. */
  lemma ChargeDrop(f: seq<real>, before: seq<nat>, ge: seq<nat>, x: nat, amount: real)
    requires Distinct(ge) && x < |ge| && ge[x] < |f| && ge[x] in before
    ensures Charge(f, before, RemoveAt(ge, x), amount) ==
            Charge(f, before, ge, amount)[ge[x] := f[ge[x]] - amount]
  {
    RemoveAtDistinct(ge, x);
  }

  /** The states of the picked birds are the picked states. */
  lemma PickBirdStates(bs: seq<Bird>, pos: seq<nat>)
    requires Below(pos, |bs|)
    ensures BirdStates(Pick(bs, pos)) == Pick(BirdStates(bs), pos)
  {
  }

  /** The states of the picked pipes are the picked states. */
  lemma PickPipeStates(ps: seq<Pipe>, pos: seq<nat>)
    requires Below(pos, |ps|)
    ensures PipeStates(Pick(ps, pos)) == Pick(PipeStates(ps), pos)
  {
  }

  /** The values a pass leaves are those of the pure pass. */
  lemma CullResult(w: World, h: seq<bool>, penalize: bool, pos: seq<nat>,
                   bs: seq<BirdState>, ns: seq<nat>, gs: seq<nat>, fs: seq<real>)
    requires Aligned(w) && |h| == |w.birds| && pos == PopSurvivors(h, 0) && Below(pos, |w.birds|)
    requires bs == Pick(w.birds, pos) && ns == Pick(w.nets, pos) && gs == Pick(w.ge, pos)
    requires fs == if penalize then Charge(w.fitness, w.ge, gs, PENALTY) else w.fitness
    ensures Simulation.Cull(w, h, penalize) == (w.(birds := bs, nets := ns, ge := gs, fitness := fs), pos)
  {
  }
}
