/** One tick of the training loop of `main`, as a function on values: every
    bird moves and asks its network whether to flap, every pipe moves and
    removes the birds it hits, a pass scores and spawns a new pipe, pipes
    that left the screen are dropped, birds outside the screen are removed,
    and the ground scrolls.  The three parallel lists of birds, networks and
    genomes are removed from in lockstep; a genome is its index into the
    fitness ledger. */
module Simulation {
  import opened Lists
  import opened BirdPhysics
  import opened Pipes
  import Ground

  /** Every bird starts at (BIRD_X, BIRD_Y). */
  const BIRD_X: int := 230
  const BIRD_Y: int := 350
  /** New pipes appear at this x. */
  const SPAWN_X: int := 600
  /** The y of the ground, and the lower bound of the screen for birds. */
  const FLOOR: int := 730
  /** Fitness gained for each tick survived. */
  const SURVIVAL: real := 0.1
  /** Fitness lost when hitting a pipe. */
  const PENALTY: real := 1.0
  /** Fitness gained by every living bird when a pipe is passed. */
  const BONUS: real := 5.0
  /** A network output above this makes the bird flap. */
  const THRESHOLD: real := 0.5

  /** Sizes of the images the tick reads. */
  datatype Dims = Dims(pipeWidth: nat, pipeHeight: nat, birdHeight: nat, baseWidth: nat)

  /** The three inputs a network receives. */
  datatype Observation = Observation(y: real, toTop: real, toBottom: real)

  /** A network evaluation: network id and inputs to the first output. */
  type Controller = (nat, Observation) -> real
  /** The pixel-mask collision test of a pipe with a bird. */
  type Collider = (PipeState, BirdState) -> bool

  datatype World = World(
    birds: seq<BirdState>,
    nets: seq<nat>,
    ge: seq<nat>,
    fitness: seq<real>,
    pipes: seq<PipeState>,
    x1: int,
    x2: int,
    score: int)

  /** The parallel lists have one entry per living bird, and every genome
      appears once and has an entry in the ledger. */
  predicate Aligned(w: World) {
    |w.birds| == |w.nets| == |w.ge| && Distinct(w.ge) &&
    forall k :: 0 <= k < |w.ge| ==> w.ge[k] < |w.fitness|
  }

  predicate BirdsOk(birds: seq<BirdState>) {
    forall k :: 0 <= k < |birds| ==> birds[k].x == BIRD_X && TiltInRange(birds[k])
  }

  /** There is always a pipe, the newest one is still ahead of the birds and
      unpassed, and every pipe has the extents of its height. */
  predicate PipesOk(ps: seq<PipeState>, dims: Dims) {
    |ps| > 0 && !ps[|ps| - 1].passed && ps[|ps| - 1].x >= BIRD_X &&
    forall k :: 0 <= k < |ps| ==> WellFormed(ps[k], dims.pipeHeight)
  }

  predicate Valid(w: World, dims: Dims) {
    Aligned(w) && BirdsOk(w.birds) && PipesOk(w.pipes, dims) &&
    dims.baseWidth >= Ground.VEL && Ground.Tiled(w.x1, w.x2, dims.baseWidth)
  }

  function Range(n: nat): (r: seq<nat>)
    ensures |r| == n && forall k :: 0 <= k < n ==> r[k] == k
  {
    seq(n, k requires 0 <= k < n => k)
  }

  /** The world `main` sets up for n genomes, with h the height of the first pipe. */
  function Start(n: nat, dims: Dims, h: int): World
    requires HEIGHT_LO <= h < HEIGHT_HI
  {
    World(seq(n, _ => BirdState(BIRD_X, BIRD_Y as real, 0, 0, 0.0, BIRD_Y as real)),
          Range(n), Range(n), seq(n, _ => 0.0),
          [Spawned(SPAWN_X, h, dims.pipeHeight)], 0, dims.baseWidth, 0)
  }

  /** The initial world satisfies the invariant, with every fitness at zero. */
  lemma StartValid(n: nat, dims: Dims, h: int)
    requires HEIGHT_LO <= h < HEIGHT_HI && dims.baseWidth >= Ground.VEL
    ensures var w := Start(n, dims, h);
      Valid(w, dims) && |w.birds| == n && |w.fitness| == n && w.score == 0 &&
      (forall g :: 0 <= g < n ==> w.ge[g] == g && w.nets[g] == g && w.fitness[g] == 0.0) &&
      (forall k :: 0 <= k < n ==> w.birds[k] == BirdState(BIRD_X, BIRD_Y as real, 0, 0, 0.0, BIRD_Y as real)) &&
      w.pipes == [Spawned(SPAWN_X, h, dims.pipeHeight)] && w.x1 == 0 && w.x2 == dims.baseWidth
  {
  }

  /** `pipe_ind`: the second pipe would be chosen when the lead bird is to the
      right of its own x plus the pipe width, which never holds. */
  function PipeIndex(w: World, dims: Dims): (i: int)
    ensures i == 0
  {
    if |w.birds| > 0 && |w.pipes| > 1 && w.birds[0].x > w.birds[0].x + dims.pipeWidth then 1 else 0
  }

  function Observe(b: BirdState, p: PipeState): Observation {
    Observation(b.y, Abs(b.y - p.height as real), Abs(b.y - p.bottom as real))
  }

  /** A bird's turn: move, then flap when its network says so. */
  function Think(b: BirdState, net: nat, p: PipeState, activate: Controller): (r: BirdState)
    ensures r == Moved(b) || r == Jumped(Moved(b))
    ensures r == Jumped(Moved(b)) <==> activate(net, Observe(Moved(b), p)) > THRESHOLD
    ensures r.x == b.x && r.y == Moved(b).y && r.tilt == Moved(b).tilt
  {
    var m := Moved(b);
    if activate(net, Observe(m, p)) > THRESHOLD then Jumped(m) else m
  }

  function ThinkAll(birds: seq<BirdState>, nets: seq<nat>, p: PipeState, activate: Controller): (r: seq<BirdState>)
    requires |nets| == |birds|
    ensures |r| == |birds|
  {
    seq(|birds|, k requires 0 <= k < |birds| => Think(birds[k], nets[k], p, activate))
  }

  /** Adds amount to the fitness of every genome in ids. */
  function Reward(f: seq<real>, ids: seq<nat>, amount: real): (r: seq<real>)
    ensures |r| == |f|
  {
    seq(|f|, g requires 0 <= g < |f| => if g in ids then f[g] + amount else f[g])
  }

  /** Takes amount from the fitness of every genome in before but not in after. */
  function Charge(f: seq<real>, before: seq<nat>, after: seq<nat>, amount: real): (r: seq<real>)
    ensures |r| == |f|
  {
    seq(|f|, g requires 0 <= g < |f| => if g in before && g !in after then f[g] - amount else f[g])
  }

  /** The first phase: every bird gains SURVIVAL, moves, and maybe flaps. */
  function ThinkPhase(w: World, dims: Dims, activate: Controller): (r: World)
    requires Aligned(w) && |w.pipes| > 0
    ensures Aligned(r) && r.nets == w.nets && r.ge == w.ge && r.pipes == w.pipes
  {
    var p := w.pipes[PipeIndex(w, dims)];
    w.(birds := ThinkAll(w.birds, w.nets, p, activate), fitness := Reward(w.fitness, w.ge, SURVIVAL))
  }

  /** Which birds a pipe hits. */
  function CollisionHits(birds: seq<BirdState>, p: PipeState, collide: Collider): (r: seq<bool>)
    ensures |r| == |birds|
  {
    seq(|birds|, k requires 0 <= k < |birds| => collide(p, birds[k]))
  }

  predicate OutOfBounds(b: BirdState, birdHeight: nat) {
    b.y + birdHeight as real >= FLOOR as real || b.y < 0.0
  }

  /** Which birds are below the ground or above the screen. */
  function BoundsHits(birds: seq<BirdState>, birdHeight: nat): (r: seq<bool>)
    ensures |r| == |birds|
  {
    seq(|birds|, k requires 0 <= k < |birds| => OutOfBounds(birds[k], birdHeight))
  }

  /** An `enumerate`-and-`pop` pass over the parallel lists with the given hits,
      taking PENALTY from each removed genome when penalize is set.  Returns
      the new world and the positions that were kept. */
  function Cull(w: World, dead: seq<bool>, penalize: bool): (r: (World, seq<nat>))
    requires Aligned(w) && |dead| == |w.birds|
    ensures Aligned(r.0) && r.1 == PopSurvivors(dead, 0)
    ensures Below(r.1, |w.birds|) && Increasing(r.1)
    ensures r.0.birds == Pick(w.birds, r.1) && r.0.nets == Pick(w.nets, r.1) && r.0.ge == Pick(w.ge, r.1)
    ensures r.0.fitness == if penalize then Charge(w.fitness, w.ge, r.0.ge, PENALTY) else w.fitness
    ensures r.0.pipes == w.pipes && r.0.x1 == w.x1 && r.0.x2 == w.x2 && r.0.score == w.score
  {
    var kept := PopSurvivors(dead, 0);
    var ge := Pick(w.ge, kept);
    PickDistinct(w.ge, kept);
    (w.(birds := Pick(w.birds, kept), nets := Pick(w.nets, kept), ge := ge,
        fitness := if penalize then Charge(w.fitness, w.ge, ge, PENALTY) else w.fitness),
     kept)
  }

  /** What the pipe loop over the first n pipes of w leaves in r: those
      pipes moved and marked, the rest untouched; the pass flag set exactly
      when one of them, once moved, was unpassed and left of the birds; the
      positions of the birds still alive, with their networks and genomes;
      and PENALTY taken from every genome dropped. */
  ghost predicate SweptBy(w: World, collide: Collider, n: nat, r: (World, bool, seq<nat>)) {
    Aligned(w) && n <= |w.pipes| &&
    Aligned(r.0) && |r.0.pipes| == |w.pipes| && |r.0.fitness| == |w.fitness| &&
    r.0.x1 == w.x1 && r.0.x2 == w.x2 && r.0.score == w.score &&
    (forall k :: 0 <= k < n ==> r.0.pipes[k] == Marked(Shifted(w.pipes[k]), BIRD_X)) &&
    (forall k :: n <= k < |w.pipes| ==> r.0.pipes[k] == w.pipes[k]) &&
    (r.1 <==> exists k :: 0 <= k < n && Passes(Shifted(w.pipes[k]), BIRD_X)) &&
    Culled(w, r.0, r.2)
  }

  /** v holds the birds, networks and genomes of w at positions pos, and
      every genome of w that is not in v has lost PENALTY. */
  ghost predicate Culled(w: World, v: World, pos: seq<nat>) {
    Aligned(w) && Increasing(pos) && Below(pos, |w.birds|) &&
    v.birds == Pick(w.birds, pos) && v.nets == Pick(w.nets, pos) && v.ge == Pick(w.ge, pos) &&
    v.fitness == Charge(w.fitness, w.ge, v.ge, PENALTY)
  }

  /** A penalizing cull after a penalizing cull is one penalizing cull of the
      composed positions. */
  lemma CullAfter(w: World, v: World, pos: seq<nat>, h: seq<bool>)
    requires Aligned(w) && Aligned(v) && |h| == |v.birds| && Culled(w, v, pos)
    ensures var c := Cull(v, h, true); Culled(w, c.0, Pick(pos, c.1))
  {
    var c := Cull(v, h, true);
    PickPick(w.birds, pos, c.1);
    PickPick(w.nets, pos, c.1);
    PickPick(w.ge, pos, c.1);
    PickIncreasing(pos, c.1);
    ChargeTwice(w.fitness, w.ge, v.ge, c.0.ge, PENALTY);
  }

  /** The loop body for pipe n - 1, after the loop over the pipes before it
      left prev: the pipe moves, the birds it hits are culled with the
      penalty, and it is marked. */
  function SweepOne(w: World, collide: Collider, n: nat, prev: (World, bool, seq<nat>)): (r: (World, bool, seq<nat>))
    requires 0 < n <= |w.pipes| && SweptBy(w, collide, n - 1, prev)
    ensures SweptBy(w, collide, n, r)
  {
    var v := prev.0;
    var p := Shifted(v.pipes[n - 1]);
    var c := Cull(v, CollisionHits(v.birds, p, collide), true);
    CullAfter(w, v, prev.2, CollisionHits(v.birds, p, collide));
    (c.0.(pipes := v.pipes[n - 1 := Marked(p, BIRD_X)]), prev.1 || Passes(p, BIRD_X), Pick(prev.2, c.1))
  }

  /** The pipe loop over the first n pipes: each one moves, removes the birds
      it hits (with the penalty), and is marked passed when it is left of
      the birds.  Returns the new world, whether any pipe was marked, and
      the positions of the input birds still alive. */
  function PipeSweep(w: World, collide: Collider, n: nat): (r: (World, bool, seq<nat>))
    requires Aligned(w) && n <= |w.pipes|
    decreases n
    ensures SweptBy(w, collide, n, r)
  {
    if n == 0 then
      assert w.fitness == Charge(w.fitness, w.ge, w.ge, PENALTY);
      assert Pick(w.birds, Range(|w.birds|)) == w.birds;
      assert Pick(w.nets, Range(|w.birds|)) == w.nets;
      assert Pick(w.ge, Range(|w.birds|)) == w.ge;
      (w, false, Range(|w.birds|))
    else
      SweepOne(w, collide, n, PipeSweep(w, collide, n - 1))
  }

  /** When a pipe was passed: one point, BONUS for every living genome and a
      new pipe of height h at SPAWN_X. */
  function Spawn(w: World, add: bool, h: int, dims: Dims): World
    requires HEIGHT_LO <= h < HEIGHT_HI
  {
    if add then
      w.(score := w.score + 1, fitness := Reward(w.fitness, w.ge, BONUS),
         pipes := w.pipes + [Spawned(SPAWN_X, h, dims.pipeHeight)])
    else w
  }

  /** The pipes that have not left the screen, in order. */
  function Visible(ps: seq<PipeState>, width: nat): (r: seq<PipeState>)
    ensures |r| <= |ps|
  {
    if ps == [] then []
    else
      var last := ps[|ps| - 1];
      Visible(ps[..|ps| - 1], width) + (if OffScreen(last, width) then [] else [last])
  }

  /** The positions Visible keeps. */
  function VisiblePositions(ps: seq<PipeState>, width: nat): (idx: seq<nat>)
    ensures Below(idx, |ps|) && Increasing(idx)
    ensures forall k :: 0 <= k < |ps| ==> (k in idx <==> !OffScreen(ps[k], width))
  {
    if ps == [] then []
    else
      var init := VisiblePositions(ps[..|ps| - 1], width);
      var k := |ps| - 1;
      if OffScreen(ps[k], width) then init
      else
        assert forall j :: j in init + [k] <==> j in init || j == k;
        init + [k]
  }

  /** Visible keeps exactly the pipes still on screen, in their order. */
  lemma {:induction false} VisibleKeepsOrder(ps: seq<PipeState>, width: nat)
    ensures Visible(ps, width) == Pick(ps, VisiblePositions(ps, width))
  {
    if ps != [] {
      var init := ps[..|ps| - 1];
      VisibleKeepsOrder(init, width);
      var idx := VisiblePositions(init, width);
      assert Pick(init, idx) == Pick(ps, idx);
      if !OffScreen(ps[|ps| - 1], width) {
        PickSnoc(ps, idx, |ps| - 1);
      }
    }
  }

  /** Every pipe Visible keeps is one of the input pipes and is on screen. */
  lemma {:induction false} VisibleSubset(ps: seq<PipeState>, width: nat)
    ensures forall k :: 0 <= k < |Visible(ps, width)| ==>
      Visible(ps, width)[k] in ps && !OffScreen(Visible(ps, width)[k], width)
  {
    if ps != [] {
      VisibleSubset(ps[..|ps| - 1], width);
    }
  }

  /** Appending an on-screen pipe appends it to the visible ones. */
  lemma VisibleSnoc(ps: seq<PipeState>, p: PipeState, width: nat)
    requires !OffScreen(p, width)
    ensures Visible(ps + [p], width) == Visible(ps, width) + [p]
  {
    assert (ps + [p])[..|ps|] == ps;
  }

  /** The bounds pass at the end of the tick. */
  function BoundsPhase(w: World, dims: Dims): (r: (World, seq<nat>))
    requires Aligned(w)
    ensures Aligned(r.0)
  {
    Cull(w, BoundsHits(w.birds, dims.birdHeight), false)
  }

  /** The pipes after moving and marking, before removal. */
  function Advanced(ps: seq<PipeState>): (r: seq<PipeState>)
    ensures |r| == |ps|
  {
    seq(|ps|, k requires 0 <= k < |ps| => Marked(Shifted(ps[k]), BIRD_X))
  }

  /** Some pipe, once moved, is unpassed and left of the birds. */
  predicate AnyPass(ps: seq<PipeState>) {
    exists k :: 0 <= k < |ps| && Passes(Shifted(ps[k]), BIRD_X)
  }

  /** Taking a penalty from the genomes dropped between g0 and g1 and then
      from those dropped between g1 and g2 is taking it once from those
      dropped between g0 and g2. */
  lemma ChargeTwice(f: seq<real>, g0: seq<nat>, g1: seq<nat>, g2: seq<nat>, amount: real)
    requires forall k :: 0 <= k < |g2| ==> g2[k] in g1
    requires forall k :: 0 <= k < |g1| ==> g1[k] in g0
    ensures Charge(Charge(f, g0, g1, amount), g1, g2, amount) == Charge(f, g0, g2, amount)
  {
  }

  /** The intermediate worlds of a tick, phase by phase. */
  datatype Trace = Trace(
    thought: World,
    swept: (World, bool, seq<nat>),
    spawned: World,
    retired: World,
    bounded: (World, seq<nat>))

  function Phases(w: World, dims: Dims, activate: Controller, collide: Collider, h: int): Trace
    requires Valid(w, dims) && HEIGHT_LO <= h < HEIGHT_HI
  {
    var thought := ThinkPhase(w, dims, activate);
    var swept := PipeSweep(thought, collide, |thought.pipes|);
    var spawned := Spawn(swept.0, swept.1, h, dims);
    var retired := spawned.(pipes := Visible(spawned.pipes, dims.pipeWidth));
    Trace(thought, swept, spawned, retired, BoundsPhase(retired, dims))
  }

  /** The whole tick, with h the height drawn for a pipe spawned in it. */
  function Tick(w: World, dims: Dims, activate: Controller, collide: Collider, h: int): (r: World)
    requires Valid(w, dims) && HEIGHT_LO <= h < HEIGHT_HI
    ensures Valid(r, dims)
  {
    var bounded := Phases(w, dims, activate, collide, h).bounded.0;
    var g := Ground.Scrolled(bounded.x1, bounded.x2, dims.baseWidth);
    TickKeepsValid(w, dims, activate, collide, h);
    bounded.(x1 := g.0, x2 := g.1)
  }

  /** The positions of the birds at the start of a tick that are still alive at its end. */
  function Survivors(w: World, dims: Dims, activate: Controller, collide: Collider, h: int): seq<nat>
    requires Valid(w, dims) && HEIGHT_LO <= h < HEIGHT_HI
  {
    var t := Phases(w, dims, activate, collide, h);
    Pick(t.swept.2, t.bounded.1)
  }

  /** The invariant survives every phase of a tick. */
  lemma TickKeepsValid(w: World, dims: Dims, activate: Controller, collide: Collider, h: int)
    requires Valid(w, dims) && HEIGHT_LO <= h < HEIGHT_HI
    ensures var bounded := Phases(w, dims, activate, collide, h).bounded.0;
      var g := Ground.Scrolled(bounded.x1, bounded.x2, dims.baseWidth);
      Valid(bounded.(x1 := g.0, x2 := g.1), dims)
  {
    var t := Phases(w, dims, activate, collide, h);
    ThoughtBirdsOk(w, dims, activate);
    PickBirdsOk(t.thought.birds, t.swept.2);
    PickBirdsOk(t.retired.birds, t.bounded.1);
    RetiredPipesOk(w, dims, activate, collide, h);
    Ground.ScrollKeepsTiling(t.bounded.0.x1, t.bounded.0.x2, dims.baseWidth);
  }

  /** Thinking keeps every bird at BIRD_X with its tilt in range. */
  lemma ThoughtBirdsOk(w: World, dims: Dims, activate: Controller)
    requires Valid(w, dims)
    ensures BirdsOk(ThinkPhase(w, dims, activate).birds)
  {
    var thought := ThinkPhase(w, dims, activate);
    forall k | 0 <= k < |thought.birds|
      ensures thought.birds[k].x == BIRD_X && TiltInRange(thought.birds[k])
    {
      TiltRule(w.birds[k]);
    }
  }

  /** Removing birds keeps the remaining ones in order. */
  lemma PickBirdsOk(birds: seq<BirdState>, idx: seq<nat>)
    requires BirdsOk(birds) && Below(idx, |birds|)
    ensures BirdsOk(Pick(birds, idx))
  {
  }

  /** After the pipe loop, the spawn and the removal of off-screen pipes,
      the newest pipe is still ahead and unpassed and all pipes are well formed. */
  lemma RetiredPipesOk(w: World, dims: Dims, activate: Controller, collide: Collider, h: int)
    requires Valid(w, dims) && HEIGHT_LO <= h < HEIGHT_HI
    ensures PipesOk(Phases(w, dims, activate, collide, h).retired.pipes, dims)
  {
    var ps := Phases(w, dims, activate, collide, h).spawned.pipes;
    SpawnedPipesOk(w, dims, activate, collide, h);
    var last := ps[|ps| - 1];
    assert ps == ps[..|ps| - 1] + [last];
    VisibleSnoc(ps[..|ps| - 1], last, dims.pipeWidth);
    VisibleSubset(ps, dims.pipeWidth);
  }

  /** Before the removal, the newest pipe is ahead, unpassed and on screen,
      and all pipes are well formed. */
  lemma SpawnedPipesOk(w: World, dims: Dims, activate: Controller, collide: Collider, h: int)
    requires Valid(w, dims) && HEIGHT_LO <= h < HEIGHT_HI
    ensures var ps := Phases(w, dims, activate, collide, h).spawned.pipes;
      |ps| > 0 && !ps[|ps| - 1].passed && ps[|ps| - 1].x >= BIRD_X && !OffScreen(ps[|ps| - 1], dims.pipeWidth) &&
      forall k :: 0 <= k < |ps| ==> WellFormed(ps[k], dims.pipeHeight)
  {
    var t := Phases(w, dims, activate, collide, h);
    var swept := t.swept;
    forall k | 0 <= k < |swept.0.pipes|
      ensures WellFormed(swept.0.pipes[k], dims.pipeHeight)
    {
      ShiftKeepsShape(w.pipes[k], dims.pipeHeight);
    }
    if !swept.1 {
      var n := |w.pipes|;
      assert !Passes(Shifted(w.pipes[n - 1]), BIRD_X);
    }
  }

  /** After a tick the birds, networks and genomes are the same selection of
      positions of the three lists, so each bird keeps its own network and
      genome; every bird has moved once. */
  lemma TickLockstep(w: World, dims: Dims, activate: Controller, collide: Collider, h: int)
    requires Valid(w, dims) && HEIGHT_LO <= h < HEIGHT_HI
    ensures var r := Tick(w, dims, activate, collide, h);
      var K := Survivors(w, dims, activate, collide, h);
      Increasing(K) && Below(K, |w.birds|) && |r.fitness| == |w.fitness| &&
      r.birds == Pick(Phases(w, dims, activate, collide, h).thought.birds, K) && r.nets == Pick(w.nets, K) && r.ge == Pick(w.ge, K)
  {
    var t := Phases(w, dims, activate, collide, h);
    PickPick(t.thought.birds, t.swept.2, t.bounded.1);
    PickPick(w.nets, t.swept.2, t.bounded.1);
    PickPick(w.ge, t.swept.2, t.bounded.1);
    PickIncreasing(t.swept.2, t.bounded.1);
  }

  /** Every pipe moves by VEL and is marked when it falls left of the birds;
      the pipes that left the screen are dropped in order; exactly when some
      pipe was marked, the score goes up by one and one new pipe of the drawn
      height is appended at SPAWN_X. */
  lemma TickPipes(w: World, dims: Dims, activate: Controller, collide: Collider, h: int)
    requires Valid(w, dims) && HEIGHT_LO <= h < HEIGHT_HI
    ensures var r := Tick(w, dims, activate, collide, h);
      r.pipes == Visible(Advanced(w.pipes), dims.pipeWidth) +
                 (if AnyPass(w.pipes) then [Spawned(SPAWN_X, h, dims.pipeHeight)] else []) &&
      r.score == w.score + (if AnyPass(w.pipes) then 1 else 0)
  {
    var t := Phases(w, dims, activate, collide, h);
    assert t.swept.0.pipes == Advanced(w.pipes);
    assert t.swept.1 == AnyPass(w.pipes);
    if t.swept.1 {
      VisibleSnoc(Advanced(w.pipes), Spawned(SPAWN_X, h, dims.pipeHeight), dims.pipeWidth);
    }
  }

  /** Fitness over a tick: a genome without a bird is untouched; a genome whose
      bird survives the pipe loop gains SURVIVAL, plus BONUS when a pipe was
      passed, even when the bounds pass drops it afterwards; a genome whose
      bird a pipe hits gains SURVIVAL, loses PENALTY and misses the bonus. */
  lemma TickFitness(w: World, dims: Dims, activate: Controller, collide: Collider, h: int, g: nat)
    requires Valid(w, dims) && HEIGHT_LO <= h < HEIGHT_HI && g < |w.fitness|
    ensures var r := Tick(w, dims, activate, collide, h);
      var bonus := if AnyPass(w.pipes) then BONUS else 0.0;
      var S := Phases(w, dims, activate, collide, h).swept.2;
      |r.fitness| == |w.fitness| &&
      (g !in w.ge ==> r.fitness[g] == w.fitness[g]) &&
      (g in r.ge ==> r.fitness[g] == w.fitness[g] + SURVIVAL + bonus) &&
      (forall k :: 0 <= k < |w.ge| && w.ge[k] == g ==>
         (k in S ==> r.fitness[g] == w.fitness[g] + SURVIVAL + bonus) &&
         (k !in S ==> r.fitness[g] == w.fitness[g] + SURVIVAL - PENALTY))
  {
    var t := Phases(w, dims, activate, collide, h);
    var swept := t.swept.0;
    assert t.swept.1 == AnyPass(w.pipes) by {
      TickPipes(w, dims, activate, collide, h);
    }
    var r := Tick(w, dims, activate, collide, h);
    assert r.ge == Pick(swept.ge, t.bounded.1);
    if g in r.ge {
      assert g in swept.ge;
    }
    if g in swept.ge {
      assert g in w.ge;
    }
    forall k | 0 <= k < |w.ge| && w.ge[k] == g
      ensures g in swept.ge <==> k in t.swept.2
    {
      PickMember(w.ge, t.swept.2, k);
    }
  }

  /** A bird is removed in a tick only when, after its move, some moved pipe
      hits it or it is out of the screen; a bird that no moved pipe hits and
      that stays on screen survives.  Its genome is the one that disappears. */
  lemma TickRemovals(w: World, dims: Dims, activate: Controller, collide: Collider, h: int, k: nat)
    requires Valid(w, dims) && HEIGHT_LO <= h < HEIGHT_HI && k < |w.birds|
    ensures var T := Phases(w, dims, activate, collide, h).thought.birds;
      var K := Survivors(w, dims, activate, collide, h);
      (w.ge[k] in Tick(w, dims, activate, collide, h).ge <==> k in K) &&
      (k !in K ==>
         (exists j :: 0 <= j < |w.pipes| && collide(Shifted(w.pipes[j]), T[k])) ||
         OutOfBounds(T[k], dims.birdHeight)) &&
      (((forall j :: 0 <= j < |w.pipes| ==> !collide(Shifted(w.pipes[j]), T[k])) &&
        !OutOfBounds(T[k], dims.birdHeight)) ==> k in K)
  {
    var t := Phases(w, dims, activate, collide, h);
    var T := t.thought.birds;
    TickLockstep(w, dims, activate, collide, h);
    var K := Survivors(w, dims, activate, collide, h);
    PickMember(w.ge, K, k);
    SweepRemovals(t.thought, collide, |w.pipes|, k);
    var K1 := t.swept.2;
    var K2 := t.bounded.1;
    var dead := BoundsHits(t.retired.birds, dims.birdHeight);
    if k in K1 {
      var i :| 0 <= i < |K1| && K1[i] == k;
      assert t.retired.birds[i] == T[k];
      PickMember(K1, K2, i);
      if !dead[i] {
        LiveSurvive(dead, i);
      }
    }
  }

  /** One of the first n pipes of w, once moved, hits bird b. */
  ghost predicate HitWithin(w: World, collide: Collider, n: nat, b: BirdState)
    requires n <= |w.pipes|
  {
    exists j :: 0 <= j < n && collide(Shifted(w.pipes[j]), b)
  }

  /** Over the pipe loop, a bird is removed only when one of the moved pipes
      hits it, and a bird that none of them hits stays. */
  lemma {:induction false} SweepRemovals(w: World, collide: Collider, n: nat, k: nat)
    requires Aligned(w) && n <= |w.pipes| && k < |w.birds|
    ensures var K := PipeSweep(w, collide, n).2;
      (k !in K ==> HitWithin(w, collide, n, w.birds[k])) &&
      (!HitWithin(w, collide, n, w.birds[k]) ==> k in K)
  {
    var K := PipeSweep(w, collide, n).2;
    if n > 0 {
      SweepRemovals(w, collide, n - 1, k);
      SweepRound(w, collide, n, k);
      HitWithinStep(w, collide, n, w.birds[k]);
      ghost var K0 := PipeSweep(w, collide, n - 1).2;
      ghost var hit := collide(Shifted(w.pipes[n - 1]), w.birds[k]);
      RoundCases(k in K0, k in K, hit, HitWithin(w, collide, n - 1, w.birds[k]), HitWithin(w, collide, n, w.birds[k]));
    } else {
      assert K[k] == k;
      assert k in K;
    }
  }

  /** The case split of SweepRemovals on whether the bird was still alive
      before the round and whether the round's pipe hits it. */
  lemma RoundCases(inK0: bool, inK: bool, hit: bool, h0: bool, h1: bool)
    requires (h1 <==> h0 || hit) && (inK ==> inK0)
    requires (inK0 && !inK ==> hit) && (inK0 && !hit ==> inK)
    requires (!inK0 ==> h0) && (!h0 ==> inK0)
    ensures (!inK ==> h1) && (!h1 ==> inK)
  {
  }

  /** Pipe n - 1 hits b exactly when one of the first n pipes does but none
      of the first n - 1. */
  lemma HitWithinStep(w: World, collide: Collider, n: nat, b: BirdState)
    requires 0 < n <= |w.pipes|
    ensures HitWithin(w, collide, n, b) <==> HitWithin(w, collide, n - 1, b) || collide(Shifted(w.pipes[n - 1]), b)
  {
    if collide(Shifted(w.pipes[n - 1]), b) {
      assert 0 <= n - 1 < n && collide(Shifted(w.pipes[n - 1]), b);
    }
  }

  /** The round of the pipe loop for pipe n - 1 only removes birds, and
      removes a bird still alive exactly when that pipe hits it. */
  lemma SweepRound(w: World, collide: Collider, n: nat, k: nat)
    requires Aligned(w) && 0 < n <= |w.pipes| && k < |w.birds|
    ensures var K0, K := PipeSweep(w, collide, n - 1).2, PipeSweep(w, collide, n).2;
      var hit := collide(Shifted(w.pipes[n - 1]), w.birds[k]);
      (k in K ==> k in K0) && (k in K0 && k !in K ==> hit) && (k in K0 && !hit ==> k in K)
  {
    SweepPrev(w, collide, n);
    var prev := PipeSweep(w, collide, n - 1);
    CullStep(w.birds, prev.2, prev.0.birds, Shifted(w.pipes[n - 1]), collide, k);
  }

  /** The pipe loop's last round in terms of the round before it. */
  lemma SweepPrev(w: World, collide: Collider, n: nat)
    requires Aligned(w) && 0 < n <= |w.pipes|
    ensures var prev := PipeSweep(w, collide, n - 1);
      Increasing(prev.2) && Below(prev.2, |w.birds|) && prev.0.birds == Pick(w.birds, prev.2) &&
      PipeSweep(w, collide, n).2 ==
        Pick(prev.2, PopSurvivors(CollisionHits(prev.0.birds, Shifted(w.pipes[n - 1]), collide), 0))
  {
    var prev := PipeSweep(w, collide, n - 1);
    assert Culled(w, prev.0, prev.2);
    assert Shifted(prev.0.pipes[n - 1]) == Shifted(w.pipes[n - 1]);
  }

  /** Under one enumerate-and-pop pass of pipe p over the birds still alive,
      at positions K0 of the birds B, a bird is only removed if p hits it,
      and a bird that p does not hit stays. */
  lemma CullStep(B: seq<BirdState>, K0: seq<nat>, v: seq<BirdState>, p: PipeState, collide: Collider, k: nat)
    requires Increasing(K0) && Below(K0, |B|) && v == Pick(B, K0) && k < |B|
    ensures var K := Pick(K0, PopSurvivors(CollisionHits(v, p, collide), 0));
      (k in K0 && k !in K ==> collide(p, B[k])) && (k in K0 && !collide(p, B[k]) ==> k in K)
  {
    var dead := CollisionHits(v, p, collide);
    if k in K0 {
      var i :| 0 <= i < |K0| && K0[i] == k;
      assert v[i] == B[k];
      if !dead[i] {
        assert Distinct(K0);
        LiveSurvive(dead, i);
        PickMember(K0, PopSurvivors(dead, 0), i);
      }
    }
  }

  /** A tick only removes birds and keeps the ledger's size. */
  lemma TickShrinks(w: World, dims: Dims, activate: Controller, collide: Collider, h: int)
    requires Valid(w, dims) && HEIGHT_LO <= h < HEIGHT_HI
    ensures var r := Tick(w, dims, activate, collide, h);
      |r.birds| <= |w.birds| && |r.fitness| == |w.fitness| &&
      forall k :: 0 <= k < |r.ge| ==> r.ge[k] in w.ge
  {
    TickLockstep(w, dims, activate, collide, h);
    var K := Survivors(w, dims, activate, collide, h);
    IncreasingBelowShort(K, |w.birds|);
  }

  predicate HeightsOk(heights: seq<int>) {
    forall k :: 0 <= k < |heights| ==> HEIGHT_LO <= heights[k] < HEIGHT_HI
  }

  /** Ticks until every bird is gone or the heights run out; heights holds one
      draw of the random pipe height per tick, used only when it spawns. */
  function Play(w: World, dims: Dims, activate: Controller, collide: Collider, heights: seq<int>): (r: World)
    requires Valid(w, dims) && HeightsOk(heights)
    ensures Valid(r, dims)
    decreases |heights|
  {
    if |heights| == 0 || |w.birds| == 0 then w
    else Play(Tick(w, dims, activate, collide, heights[0]), dims, activate, collide, heights[1..])
  }

  /** A generation that still has heights and birds plays one tick and goes on. */
  lemma PlayStep(w: World, dims: Dims, activate: Controller, collide: Collider, heights: seq<int>)
    requires Valid(w, dims) && HeightsOk(heights) && |heights| > 0 && |w.birds| > 0
    ensures HeightsOk(heights[1..])
    ensures Play(w, dims, activate, collide, heights) ==
      Play(Tick(w, dims, activate, collide, heights[0]), dims, activate, collide, heights[1..])
  {
  }

  /** A generation without heights or without birds has nothing left to play. */
  lemma PlayDone(w: World, dims: Dims, activate: Controller, collide: Collider, heights: seq<int>)
    requires Valid(w, dims) && HeightsOk(heights) && (|heights| == 0 || |w.birds| == 0)
    ensures Play(w, dims, activate, collide, heights) == w
  {
  }

  /** Over a whole generation the population only shrinks: every genome still
      alive was alive at the start, and the ledger keeps its size. */
  lemma {:induction false} PlayShrinks(w: World, dims: Dims, activate: Controller, collide: Collider, heights: seq<int>)
    requires Valid(w, dims) && HeightsOk(heights)
    ensures var r := Play(w, dims, activate, collide, heights);
      |r.birds| <= |w.birds| && |r.fitness| == |w.fitness| &&
      (forall k :: 0 <= k < |r.ge| ==> r.ge[k] in w.ge)
    decreases |heights|
  {
    if |heights| > 0 && |w.birds| > 0 {
      var next := Tick(w, dims, activate, collide, heights[0]);
      TickShrinks(w, dims, activate, collide, heights[0]);
      PlayShrinks(next, dims, activate, collide, heights[1..]);
    }
  }
}
