/** A pipe pair: a random gap height, the top and bottom extents derived
    from it, a constant leftward speed and a one-way `passed` flag. */
module Pipes {

  /** Vertical space between the two pipes. */
  const GAP: int := 200
  /** Pixels a pipe moves left per tick. */
  const VEL: int := 5
  /** The gap height is drawn from [HEIGHT_LO, HEIGHT_HI). */
  const HEIGHT_LO: int := 50
  const HEIGHT_HI: int := 450

  datatype PipeState = PipeState(x: int, height: int, top: int, bottom: int, passed: bool)

  /** The extents that `set_height` derives from the height, for a top image
      of the given height. */
  predicate WellFormed(p: PipeState, topHeight: nat) {
    HEIGHT_LO <= p.height < HEIGHT_HI && p.top == p.height - topHeight && p.bottom == p.height + GAP
  }

  /** A new pipe at x whose random height came out as h. */
  function Spawned(x: int, h: int, topHeight: nat): (p: PipeState)
    requires HEIGHT_LO <= h < HEIGHT_HI
    ensures WellFormed(p, topHeight) && p.x == x && p.height == h && !p.passed
    ensures p.bottom - p.height == GAP
    ensures p.bottom - p.top == GAP + topHeight
  {
    PipeState(x, h, h - topHeight, h + GAP, false)
  }

  /** State after `move`. */
  function Shifted(p: PipeState): PipeState {
    p.(x := p.x - VEL)
  }

  /** Moving changes only x, by exactly VEL, and keeps the extents. */
  lemma ShiftKeepsShape(p: PipeState, topHeight: nat)
    ensures Shifted(p).x == p.x - VEL
    ensures Shifted(p).(x := p.x) == p
    ensures WellFormed(p, topHeight) ==> WellFormed(Shifted(p), topHeight)
  {
  }

  /** The pipe has scrolled fully past the left edge. */
  predicate OffScreen(p: PipeState, width: nat) {
    p.x + width < 0
  }

  /** The pass test of the tick: an unpassed pipe left of the bird becomes passed. */
  predicate Passes(p: PipeState, birdX: int) {
    !p.passed && p.x < birdX
  }

  function Marked(p: PipeState, birdX: int): PipeState {
    if Passes(p, birdX) then p.(passed := true) else p
  }

  /** `passed` only goes from false to true, exactly when the pipe is left
      of the bird, and marking changes nothing else; a second test with the
      same bird never fires again. */
  lemma MarkOneWay(p: PipeState, birdX: int)
    ensures Marked(p, birdX).passed <==> p.passed || p.x < birdX
    ensures Marked(p, birdX).(passed := p.passed) == p
    ensures !Passes(Marked(p, birdX), birdX)
  {
  }

  /** A pipe pair of the simulation. */
  class Pipe {
    var x: int
    var height: int
    var top: int
    var bottom: int
    var passed: bool
    /** Height and width of the pipe image. */
    const topHeight: nat
    const width: nat

    function State(): PipeState
      reads this
    {
      PipeState(x, height, top, bottom, passed)
    }

    /** `Pipe(x)`, with h standing for the value `random.randrange(50, 450)` returned. */
    constructor (x0: int, h: int, topHeight: nat, width: nat)
      requires HEIGHT_LO <= h < HEIGHT_HI
      ensures State() == Spawned(x0, h, topHeight)
      ensures this.topHeight == topHeight && this.width == width
    {
      x := x0;
      height := 0;
      top := 0;
      bottom := 0;
      passed := false;
      this.topHeight := topHeight;
      this.width := width;
      new;
      SetHeight(h);
    }

    method SetHeight(h: int)
      requires HEIGHT_LO <= h < HEIGHT_HI
      modifies this
      ensures WellFormed(State(), topHeight)
      ensures State() == old(State()).(height := h, top := h - topHeight, bottom := h + GAP)
    {
      height := h;
      top := height - topHeight;
      bottom := height + GAP;
    }

    method Move()
      modifies this
      ensures State() == Shifted(old(State()))
      ensures x == old(x) - VEL
    {
      x := x - VEL;
    }
  }
}
