/** The scrolling ground: two copies of the ground image side by side that
    move left together; a copy that has left the screen is put right
    behind the other one. */
module Ground {

  /** Pixels the ground moves left per tick. */
  const VEL: int := 5
  /** Width of the game window. */
  const WIN_WIDTH: int := 500

  /** Offsets after `move`, for an image of the given width. */
  function Scrolled(x1: int, x2: int, width: nat): (int, int) {
    var a := x1 - VEL;
    var b := x2 - VEL;
    var a' := if a + width < 0 then b + width else a;
    var b' := if b + width < 0 then a' + width else b;
    (a', b')
  }

  /** One copy sits exactly one width behind the other, neither has left
      the screen, and the leftmost starts at or before the left edge. */
  predicate Tiled(x1: int, x2: int, width: nat) {
    (x2 == x1 + width || x1 == x2 + width) &&
    x1 + width >= 0 && x2 + width >= 0 &&
    (x1 <= 0 || x2 <= 0)
  }

  /** Scrolling keeps the tiling, as long as one step is not wider than the image. */
  lemma ScrollKeepsTiling(x1: int, x2: int, width: nat)
    requires width >= VEL && Tiled(x1, x2, width)
    ensures Tiled(Scrolled(x1, x2, width).0, Scrolled(x1, x2, width).1, width)
  {
  }

  /** Tiled copies cover every column from the left edge up to one image width. */
  lemma TiledCovers(x1: int, x2: int, width: nat, c: int)
    requires Tiled(x1, x2, width) && 0 <= c < width
    ensures (x1 <= c < x1 + width) || (x2 <= c < x2 + width)
  {
  }

  /** Offsets after n moves. */
  function ScrolledN(x1: int, x2: int, width: nat, n: nat): (int, int)
    decreases n
  {
    if n == 0 then (x1, x2)
    else
      var p := ScrolledN(x1, x2, width, n - 1);
      Scrolled(p.0, p.1, width)
  }

  /** From the initial offsets (0, width) the ground stays tiled forever, so
      an image at least as wide as the window always covers it. */
  lemma {:induction false} GroundAlwaysCovers(width: nat, n: nat, c: int)
    requires width >= VEL
    ensures Tiled(ScrolledN(0, width, width, n).0, ScrolledN(0, width, width, n).1, width)
    ensures width >= WIN_WIDTH && 0 <= c < WIN_WIDTH ==>
      var p := ScrolledN(0, width, width, n);
      (p.0 <= c < p.0 + width) || (p.1 <= c < p.1 + width)
  {
    if n > 0 {
      GroundAlwaysCovers(width, n - 1, c);
      var p := ScrolledN(0, width, width, n - 1);
      ScrollKeepsTiling(p.0, p.1, width);
    }
    var q := ScrolledN(0, width, width, n);
    if width >= WIN_WIDTH && 0 <= c < WIN_WIDTH {
      TiledCovers(q.0, q.1, width, c);
    }
  }

  /** The ground of the simulation. */
  class Base {
    var y: int
    var x1: int
    var x2: int
    /** Width of the ground image. */
    const width: nat

    constructor (y0: int, width: nat)
      ensures y == y0 && x1 == 0 && x2 == width && this.width == width
      ensures width >= VEL ==> Tiled(x1, x2, width)
    {
      y := y0;
      x1 := 0;
      x2 := width;
      this.width := width;
    }

    method Move()
      modifies this
      ensures (x1, x2) == Scrolled(old(x1), old(x2), width)
      ensures y == old(y)
      ensures width >= VEL && old(Tiled(x1, x2, width)) ==> Tiled(x1, x2, width)
    {
      x1 := x1 - VEL;
      x2 := x2 - VEL;
      if x1 + width < 0 {
        x1 := x2 + width;
      }
      if x2 + width < 0 {
        x2 := x1 + width;
      }
      if width >= VEL && old(Tiled(x1, x2, width)) {
        ScrollKeepsTiling(old(x1), old(x2), width);
      }
    }
  }
}
