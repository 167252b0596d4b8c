// findSafePosition: the player's spawn point. The three games carry the
// same function; it searches squares of growing radius around the grid
// centre and returns the centre of the first floor cell it meets.
module Spawn {
  import opened Grid

  /** A floor cell (code 0) inside the grid. */
  predicate IsOpen(g: Map, c: Cell)
    requires Rectangular(g)
  {
    InBounds(g, c.x, c.y) && g[c.y][c.x] == 0
  }

  predicate AnyOpen(g: Map)
    requires Rectangular(g)
  {
    exists y, x :: 0 <= y < Height(g) && 0 <= x < Width(g) && g[y][x] == 0
  }

  /** The grid centre the search starts from. */
  function CenterCell(g: Map): Cell
    requires Rectangular(g)
  {
    Cell(Width(g) / 2, Height(g) / 2)
  }

  /** Chebyshev distance between two cells: the search radius at which a
      cell is first inside the square. */
  function Ring(c: Cell, o: Cell): nat
  {
    Max(Abs(c.x - o.x), Abs(c.y - o.y))
  }

  /** The search's visiting order: by radius, then column, then row. */
  predicate SearchBefore(a: Cell, b: Cell, o: Cell)
  {
    Ring(a, o) < Ring(b, o) ||
    (Ring(a, o) == Ring(b, o) && (a.x < b.x || (a.x == b.x && a.y < b.y)))
  }

  /** Every in-bounds cell is within radius max(W, H) - 1 of the centre,
      so the radius loop reaches every cell. */
  lemma RadiusLoopCoversGrid(g: Map)
    requires Rectangular(g)
    requires forall c :: IsOpen(g, c) ==> Ring(c, CenterCell(g)) >= Max(Width(g), Height(g))
    ensures !AnyOpen(g)
  {
    if AnyOpen(g) {
      var y, x :| 0 <= y < Height(g) && 0 <= x < Width(g) && g[y][x] == 0;
      assert IsOpen(g, Cell(x, y));
    }
  }

  /** The square of one radius, column by column and row by row: the
      first floor cell on it, or None when it has none.  Cells strictly
      inside the square were searched at smaller radii. */
  method SearchSquare(g: Map, o: Cell, radius: nat) returns (found: Option<Cell>)
    requires Rectangular(g)
    requires forall c :: IsOpen(g, c) ==> Ring(c, o) >= radius
    ensures found.Some? ==> IsOpen(g, found.value) && Ring(found.value, o) == radius
    ensures found.Some? ==> forall c :: IsOpen(g, c) ==> !SearchBefore(c, found.value, o)
    ensures found.None? ==> forall c :: IsOpen(g, c) ==> Ring(c, o) >= radius + 1
  {
    var w, h := Width(g), Height(g);
    var x := o.x - radius;
    while x <= o.x + radius
      invariant o.x - radius <= x <= o.x + radius + 1
      invariant forall c :: IsOpen(g, c) && Ring(c, o) <= radius ==> c.x >= x
    {
      var y := o.y - radius;
      while y <= o.y + radius
        invariant o.y - radius <= y <= o.y + radius + 1
        invariant forall c :: IsOpen(g, c) && Ring(c, o) <= radius ==> c.x > x || (c.x == x && c.y >= y)
      {
        if 0 <= x < w && 0 <= y < h && g[y][x] == 0 {
          assert IsOpen(g, Cell(x, y));
          return Some(Cell(x, y));
        }
        y := y + 1;
      }
      x := x + 1;
    }
    return None;
  }

  /** The search returns the centre of the first open cell in visiting
      order; with no open cell it returns the centre of the centre cell. */
  method FindSafePosition(g: Map) returns (p: Point)
    requires Rectangular(g)
    ensures AnyOpen(g) ==> IsOpen(g, CellOf(p)) && p == Center(CellOf(p))
    ensures AnyOpen(g) ==> forall c :: IsOpen(g, c) ==> !SearchBefore(c, CellOf(p), CenterCell(g))
    ensures !AnyOpen(g) ==> p == Center(CenterCell(g))
  {
    var o := CenterCell(g);
    var radius := 0;
    while radius < Max(Width(g), Height(g))
      invariant 0 <= radius <= Max(Width(g), Height(g))
      invariant forall c :: IsOpen(g, c) ==> Ring(c, o) >= radius
    {
      var found := SearchSquare(g, o, radius);
      if found.Some? {
        p := Center(found.value);
        CenterInCell(found.value);
        return;
      }
      radius := radius + 1;
    }
    p := Center(o);
    RadiusLoopCoversGrid(g);
  }
}
