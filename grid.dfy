// Shared vocabulary of the maze: the tile grid, cells, points, the
// row-major cell scan every placement and sprite pass uses, the numeric
// oracle that stands in for Math.sqrt/cos/sin/atan2, and the angle
// normalisation loop that the renderers repeat.
module Grid {

  /** A value that may be absent (JavaScript's null/undefined). */
  datatype Option<T> = None | Some(value: T)

  /** The maze: rows top to bottom, each a row of tile codes
      (0 floor, 1 building, 2..11 objects). */
  type Map = seq<seq<int>>

  /** A whole-number cell address, the key the games use for
      "already collected" sets (`${Math.floor(x)},${Math.floor(y)}`). */
  datatype Cell = Cell(x: int, y: int)

  /** A continuous position in grid units. */
  datatype Point = Point(x: real, y: real)

  /** Math.sqrt, Math.atan2, Math.cos and Math.sin, supplied by the caller. */
  datatype Trig = Trig(sqrt: real -> real, atan2: (real, real) -> real,
                       cos: real -> real, sin: real -> real)

  /** What the callers rely on of Math.sqrt: a positive argument has a
      positive root. */
  ghost predicate SqrtPositive(trig: Trig)
  {
    forall r :: r > 0.0 ==> trig.sqrt(r) > 0.0
  }

  /** The fish-eye correction: a ray's distance times the cosine of its
      offset from the view direction. */
  function FishEye(distance: real, cosOffset: real): (d: real)
    ensures distance > 0.0 && cosOffset > 0.0 ==> d > 0.0
  {
    distance * cosOffset
  }

  /** The grid is a non-empty rectangle. */
  predicate Rectangular(g: Map)
  {
    |g| > 0 && |g[0]| > 0 && forall r :: 0 <= r < |g| ==> |g[r]| == |g[0]|
  }

  function Width(g: Map): nat
    requires |g| > 0
  {
    |g[0]|
  }

  function Height(g: Map): nat
  {
    |g|
  }

  predicate InBounds(g: Map, x: int, y: int)
    requires Rectangular(g)
  {
    0 <= x < Width(g) && 0 <= y < Height(g)
  }

  /** The cell a continuous position lies in. */
  function CellOf(p: Point): Cell
  {
    Cell(p.x.Floor, p.y.Floor)
  }

  /** The centre of a cell, where every object of the maze is placed. */
  function Center(c: Cell): Point
  {
    Point(c.x as real + 0.5, c.y as real + 0.5)
  }

  /** The centre of a cell lies in that cell. */
  lemma CenterInCell(c: Cell)
    ensures CellOf(Center(c)) == c
  {
  }

  function Abs(n: int): nat
  {
    if n < 0 then -n else n
  }

  function Max(a: int, b: int): int
  {
    if a < b then b else a
  }

  function MinReal(a: real, b: real): real
  {
    if a < b then a else b
  }

  function MaxReal(a: real, b: real): real
  {
    if a < b then b else a
  }

  /** `dx * dx + dy * dy`: the squared length of an offset. */
  function SumSq(dx: real, dy: real): (r: real)
    ensures r >= 0.0
  {
    dx * dx + dy * dy
  }

  /** Squared Euclidean distance between two positions. */
  function DistSq(ax: real, ay: real, qx: real, qy: real): (d: real)
    ensures d >= 0.0
  {
    (ax - qx) * (ax - qx) + (ay - qy) * (ay - qy)
  }

  // ---------------------------------------------------------------------
  // Euclidean division
  // ---------------------------------------------------------------------

  lemma MulAtLeast(t: int, d: int)
    requires t >= 1 && d > 0
    ensures t * d >= d
  {
    assert t * d == (t - 1) * d + d;
  }

  lemma MulAway(t: int, d: int)
    requires d > 0
    ensures t == 0 || t * d >= d || t * d <= -d
  {
    if t >= 1 {
      MulAtLeast(t, d);
    } else if t <= -1 {
      MulAtLeast(-t, d);
      assert (-t) * d == -(t * d);
    }
  }

  /** Euclidean division is determined by quotient and remainder. */
  lemma DivUnique(n: int, d: int, q: int, m: int)
    requires d > 0 && n == q * d + m && 0 <= m < d
    ensures n / d == q && n % d == m
  {
    var q', m' := n / d, n % d;
    assert (q' - q) * d == m - m';
    MulAway(q' - q, d);
  }

  // ---------------------------------------------------------------------
  // Row-major cell scans
  // ---------------------------------------------------------------------

  /** The cells (x0..x-1, y) of row y whose code `keep` accepts, left to right. */
  function RowScan(g: Map, keep: int -> bool, y: int, x0: int, x: int): seq<Cell>
    requires Rectangular(g) && 0 <= y < Height(g) && 0 <= x0 && x <= Width(g)
    decreases x - x0
  {
    if x <= x0 then []
    else RowScan(g, keep, y, x0, x - 1) + (if keep(g[y][x - 1]) then [Cell(x - 1, y)] else [])
  }

  /** The cells of rows y0..y-1 and columns x0..x1-1 whose code `keep`
      accepts, row by row from the top, each row left to right. */
  function Scan(g: Map, keep: int -> bool, y0: int, y: int, x0: int, x1: int): seq<Cell>
    requires Rectangular(g) && 0 <= y0 && y <= Height(g) && 0 <= x0 && x1 <= Width(g)
    decreases y - y0
  {
    if y <= y0 then []
    else Scan(g, keep, y0, y - 1, x0, x1) + RowScan(g, keep, y - 1, x0, x1)
  }

  /** Row-major order on cells. */
  predicate RowMajorBefore(a: Cell, b: Cell)
  {
    a.y < b.y || (a.y == b.y && a.x < b.x)
  }

  predicate StrictlyRowMajor(cs: seq<Cell>)
  {
    forall i, j :: 0 <= i < j < |cs| ==> RowMajorBefore(cs[i], cs[j])
  }

  lemma {:induction false} RowScanMembers(g: Map, keep: int -> bool, y: int, x0: int, x: int)
    requires Rectangular(g) && 0 <= y < Height(g) && 0 <= x0 && x <= Width(g)
    ensures forall c :: c in RowScan(g, keep, y, x0, x) <==>
                          c.y == y && x0 <= c.x < x && keep(g[c.y][c.x])
    ensures StrictlyRowMajor(RowScan(g, keep, y, x0, x))
    ensures forall c :: c in RowScan(g, keep, y, x0, x) ==> c.x < x
    decreases x - x0
  {
    if x > x0 {
      RowScanMembers(g, keep, y, x0, x - 1);
    }
  }

  /** A scan returns exactly the accepted cells of its rectangle. */
  lemma {:induction false} ScanMembership(g: Map, keep: int -> bool, y0: int, y: int, x0: int, x1: int)
    requires Rectangular(g) && 0 <= y0 && y <= Height(g) && 0 <= x0 && x1 <= Width(g)
    ensures forall c :: c in Scan(g, keep, y0, y, x0, x1) <==>
                          y0 <= c.y < y && x0 <= c.x < x1 && keep(g[c.y][c.x])
    decreases y - y0
  {
    if y > y0 {
      ScanMembership(g, keep, y0, y - 1, x0, x1);
      RowScanMembers(g, keep, y - 1, x0, x1);
    }
  }

  /** A scan lists its cells in row-major order, each once. */
  lemma {:induction false} ScanOrdered(g: Map, keep: int -> bool, y0: int, y: int, x0: int, x1: int)
    requires Rectangular(g) && 0 <= y0 && y <= Height(g) && 0 <= x0 && x1 <= Width(g)
    ensures StrictlyRowMajor(Scan(g, keep, y0, y, x0, x1))
    decreases y - y0
  {
    if y > y0 {
      ScanOrdered(g, keep, y0, y - 1, x0, x1);
      ScanMembership(g, keep, y0, y - 1, x0, x1);
      RowScanMembers(g, keep, y - 1, x0, x1);
      var a, b := Scan(g, keep, y0, y - 1, x0, x1), RowScan(g, keep, y - 1, x0, x1);
      forall u, v | u in a && v in b
        ensures RowMajorBefore(u, v)
      {
      }
      AppendOrdered(a, b);
    }
  }

  /** Two row-major runs, the first wholly before the second, make one. */
  lemma AppendOrdered(a: seq<Cell>, b: seq<Cell>)
    requires StrictlyRowMajor(a) && StrictlyRowMajor(b)
    requires forall u, v :: u in a && v in b ==> RowMajorBefore(u, v)
    ensures StrictlyRowMajor(a + b)
  {
    forall i, j | 0 <= i < j < |a + b|
      ensures RowMajorBefore((a + b)[i], (a + b)[j])
    {
      if j < |a| {
        assert (a + b)[i] == a[i] && (a + b)[j] == a[j];
      } else if i >= |a| {
        assert (a + b)[i] == b[i - |a|] && (a + b)[j] == b[j - |a|];
      } else {
        assert (a + b)[i] == a[i] && a[i] in a;
        assert (a + b)[j] == b[j - |a|] && b[j - |a|] in b;
      }
    }
  }

  lemma ScanMembers(g: Map, keep: int -> bool, y0: int, y: int, x0: int, x1: int)
    requires Rectangular(g) && 0 <= y0 && y <= Height(g) && 0 <= x0 && x1 <= Width(g)
    ensures forall c :: c in Scan(g, keep, y0, y, x0, x1) <==>
                          y0 <= c.y < y && x0 <= c.x < x1 && keep(g[c.y][c.x])
    ensures StrictlyRowMajor(Scan(g, keep, y0, y, x0, x1))
  {
    ScanMembership(g, keep, y0, y, x0, x1);
    ScanOrdered(g, keep, y0, y, x0, x1);
  }

  /** The nested `for (y ...) for (x ...)` loop that collects matching cells. */
  method ScanCells(g: Map, keep: int -> bool, y0: nat, y1: int, x0: nat, x1: int) returns (cells: seq<Cell>)
    requires Rectangular(g) && y0 <= Height(g) && y1 <= Height(g) && x0 <= Width(g) && x1 <= Width(g)
    ensures cells == Scan(g, keep, y0, y1, x0, x1)
    ensures forall c :: c in cells <==> y0 <= c.y < y1 && x0 <= c.x < x1 && keep(g[c.y][c.x])
    ensures StrictlyRowMajor(cells)
  {
    cells := [];
    var y := y0;
    while y < y1
      invariant y0 <= y <= Max(y0, y1)
      invariant cells == Scan(g, keep, y0, y, x0, x1)
    {
      var row := ScanRow(g, keep, y, x0, x1);
      cells := cells + row;
      y := y + 1;
    }
    ScanMembers(g, keep, y0, y1, x0, x1);
  }

  /** The inner `for (x ...)` loop over one row. */
  method ScanRow(g: Map, keep: int -> bool, y: nat, x0: nat, x1: int) returns (row: seq<Cell>)
    requires Rectangular(g) && y < Height(g) && x0 <= Width(g) && x1 <= Width(g)
    ensures row == RowScan(g, keep, y, x0, x1)
  {
    var x := x0;
    row := [];
    while x < x1
      invariant x0 <= x <= Max(x0, x1)
      invariant row == RowScan(g, keep, y, x0, x)
    {
      if keep(g[y][x]) {
        row := row + [Cell(x, y)];
      }
      x := x + 1;
    }
  }

  // ---------------------------------------------------------------------
  // Angles
  // ---------------------------------------------------------------------

  /** Math.PI: the exact value of the IEEE-754 double nearest to pi. */
  const PI: real := 3.141592653589793115997963468544185161590576171875
  const TWO_PI: real := 2.0 * PI

  /** `while (a > Math.PI) a -= 2 * Math.PI`. */
  function WrapDown(a: real): (r: real)
    decreases if a > PI then ((a + PI) / TWO_PI).Floor else 0
  {
    if a > PI then WrapDown(a - TWO_PI) else a
  }

  /** `while (a < -Math.PI) a += 2 * Math.PI`. */
  function WrapUp(a: real): (r: real)
    decreases if a < -PI then ((PI - a) / TWO_PI).Floor else 0
  {
    if a < -PI then WrapUp(a + TWO_PI) else a
  }

  /** The two loops one after the other. */
  function Normalized(a: real): real
  {
    WrapUp(WrapDown(a))
  }

  /** A whole number of turns separates a and b. */
  predicate WholeTurns(a: real, b: real)
  {
    (a - b) / TWO_PI == ((a - b) / TWO_PI).Floor as real
  }

  lemma {:induction false} WrapDownSpec(a: real)
    ensures WrapDown(a) <= PI
    ensures a <= PI ==> WrapDown(a) == a
    ensures a > PI ==> WrapDown(a) > -PI
    ensures WholeTurns(WrapDown(a), a)
    decreases if a > PI then ((a + PI) / TWO_PI).Floor else 0
  {
    if a > PI {
      WrapDownSpec(a - TWO_PI);
      var k := ((WrapDown(a) - (a - TWO_PI)) / TWO_PI).Floor;
      assert (WrapDown(a) - a) / TWO_PI == (WrapDown(a) - (a - TWO_PI)) / TWO_PI - 1.0;
      assert ((WrapDown(a) - a) / TWO_PI).Floor == k - 1;
    }
  }

  lemma {:induction false} WrapUpSpec(a: real)
    ensures WrapUp(a) >= -PI
    ensures a >= -PI ==> WrapUp(a) == a
    ensures a < -PI ==> WrapUp(a) < PI
    ensures WholeTurns(WrapUp(a), a)
    decreases if a < -PI then ((PI - a) / TWO_PI).Floor else 0
  {
    if a < -PI {
      WrapUpSpec(a + TWO_PI);
      var k := ((WrapUp(a) - (a + TWO_PI)) / TWO_PI).Floor;
      assert (WrapUp(a) - a) / TWO_PI == (WrapUp(a) - (a + TWO_PI)) / TWO_PI + 1.0;
      assert ((WrapUp(a) - a) / TWO_PI).Floor == k + 1;
    }
  }

  lemma WholeTurnsTrans(a: real, b: real, c: real)
    requires WholeTurns(a, b) && WholeTurns(b, c)
    ensures WholeTurns(a, c)
  {
    var u, v := (a - b) / TWO_PI, (b - c) / TWO_PI;
    var k1, k2 := u.Floor, v.Floor;
    assert u == k1 as real && v == k2 as real;
    assert (a - c) / TWO_PI == u + v;
    assert (a - c) / TWO_PI == (k1 + k2) as real;
    assert ((k1 + k2) as real).Floor == k1 + k2;
  }

  /** The normalised angle lies in [-pi, pi], differs from the input by a
      whole number of turns, and an angle already in range is untouched. */
  lemma NormalizedSpec(a: real)
    ensures -PI <= Normalized(a) <= PI
    ensures WholeTurns(Normalized(a), a)
    ensures -PI <= a <= PI ==> Normalized(a) == a
  {
    WrapDownSpec(a);
    WrapUpSpec(WrapDown(a));
    WholeTurnsTrans(Normalized(a), WrapDown(a), a);
  }

  /** The normalisation loops the sprite and floating-object passes run. */
  method NormalizeAngle(a: real) returns (r: real)
    ensures r == Normalized(a)
    ensures -PI <= r <= PI && WholeTurns(r, a)
    ensures -PI <= a <= PI ==> r == a
  {
    r := a;
    while r > PI
      invariant WrapDown(r) == WrapDown(a)
      decreases ((r + PI) / TWO_PI).Floor
    {
      r := r - TWO_PI;
    }
    while r < -PI
      invariant WrapUp(r) == WrapUp(WrapDown(a))
      decreases ((PI - r) / TWO_PI).Floor
    {
      r := r + TWO_PI;
    }
    NormalizedSpec(a);
  }
}
