// render3D of the bitECS games: one ray per pair of screen columns (at
// most 240), each marched in steps of 0.15 until it leaves the grid, meets
// a building (code 1) or reaches the maximum depth; the fish-eye-corrected
// distance is written into a depth buffer that is reused between frames
// while the canvas width stays the same.
module Raycaster {
  import opened Grid

  const STEP: real := 0.15
  const MAX_DEPTH: real := 20.0
  const MAX_RAYS: nat := 240
  const FOV: real := PI / 3.0
  /** The step index after which `distance < maxDepth` fails: 134 * 0.15 = 20.1. */
  const LAST_STEP: nat := 134

  /** What a ray reports: distance travelled, the building code it hit
      (0 when it hit nothing or left the grid) and the cell it hit. */
  datatype RayHit = RayHit(distance: real, wallType: int, cellX: int, cellY: int)

  /** `testX += cosA * step`, k times. */
  function Probe(o: real, dir: real, k: nat): real
  {
    if k == 0 then o else Probe(o, dir, k - 1) + dir * STEP
  }

  predicate Outside(g: Map, x: real, y: real)
    requires Rectangular(g)
  {
    x < 0.0 || x >= Width(g) as real || y < 0.0 || y >= Height(g) as real
  }

  /** The march after k steps that met nothing, exactly as written: leaving
      the grid reports the maximum depth, the player's own cell stops the
      ray only when it is a building, any other building stops it. */
  function MarchFrom(g: Map, px: real, py: real, c: real, s: real, k: nat): RayHit
    requires Rectangular(g)
    decreases LAST_STEP - k
  {
    if (k as real) * STEP >= MAX_DEPTH then RayHit((k as real) * STEP, 0, 0, 0)
    else
      var tx, ty := Probe(px, c, k + 1), Probe(py, s, k + 1);
      if Outside(g, tx, ty) then RayHit(MAX_DEPTH, 0, 0, 0)
      else
        var cx, cy := tx.Floor, ty.Floor;
        if cx == px.Floor && cy == py.Floor then
          if g[cy][cx] == 1 then RayHit(((k + 1) as real) * STEP, 1, cx, cy)
          else MarchFrom(g, px, py, c, s, k + 1)
        else if g[cy][cx] == 1 then RayHit(((k + 1) as real) * STEP, 1, cx, cy)
        else MarchFrom(g, px, py, c, s, k + 1)
  }

  /** Reference march: the first sample that is outside the grid or on a
      building stops the ray, whatever cell the player stands in. */
  function FirstStop(g: Map, px: real, py: real, c: real, s: real, k: nat): RayHit
    requires Rectangular(g)
    decreases LAST_STEP - k
  {
    if (k as real) * STEP >= MAX_DEPTH then RayHit((k as real) * STEP, 0, 0, 0)
    else
      var tx, ty := Probe(px, c, k + 1), Probe(py, s, k + 1);
      if Outside(g, tx, ty) then RayHit(MAX_DEPTH, 0, 0, 0)
      else if g[ty.Floor][tx.Floor] == 1 then RayHit(((k + 1) as real) * STEP, 1, tx.Floor, ty.Floor)
      else FirstStop(g, px, py, c, s, k + 1)
  }

  /** The special case for the player's own cell changes nothing: only a
      building stops a ray there, as everywhere else. */
  lemma {:induction false} OwnCellSkipIsRedundant(g: Map, px: real, py: real, c: real, s: real, k: nat)
    requires Rectangular(g)
    ensures MarchFrom(g, px, py, c, s, k) == FirstStop(g, px, py, c, s, k)
    decreases LAST_STEP - k
  {
    if (k as real) * STEP < MAX_DEPTH {
      OwnCellSkipIsRedundant(g, px, py, c, s, k + 1);
    }
  }

  /** What every ray reports: a distance between one step and 20.1, a
      building code hit only inside the grid on a building cell, and at
      least the maximum depth when no building was hit. */
  predicate WellFormedHit(g: Map, r: RayHit)
    requires Rectangular(g)
  {
    && (r.wallType == 0 || r.wallType == 1)
    && STEP <= r.distance <= (LAST_STEP as real) * STEP
    && (r.wallType == 1 ==> InBounds(g, r.cellX, r.cellY) && g[r.cellY][r.cellX] == 1)
    && (r.wallType == 0 ==> r.distance >= MAX_DEPTH && r.cellX == 0 && r.cellY == 0)
  }

  lemma {:induction false} MarchBounds(g: Map, px: real, py: real, c: real, s: real, k: nat)
    requires Rectangular(g) && k <= LAST_STEP
    ensures WellFormedHit(g, MarchFrom(g, px, py, c, s, k))
    decreases LAST_STEP - k
  {
    if (k as real) * STEP < MAX_DEPTH {
      assert k < LAST_STEP;
      MarchBounds(g, px, py, c, s, k + 1);
    }
  }

  /** One step of the march, unfolded for the loop that runs it. */
  lemma MarchStep(g: Map, px: real, py: real, c: real, s: real, k: nat)
    requires Rectangular(g) && (k as real) * STEP < MAX_DEPTH
    ensures var tx, ty := Probe(px, c, k + 1), Probe(py, s, k + 1);
      MarchFrom(g, px, py, c, s, k) ==
        if Outside(g, tx, ty) then RayHit(MAX_DEPTH, 0, 0, 0)
        else if g[ty.Floor][tx.Floor] == 1 then RayHit(((k + 1) as real) * STEP, 1, tx.Floor, ty.Floor)
        else MarchFrom(g, px, py, c, s, k + 1)
  {
  }

  /** The `while (!hitWall && distance < maxDepth)` loop of one ray. */
  method MarchRay(g: Map, px: real, py: real, c: real, s: real) returns (r: RayHit)
    requires Rectangular(g)
    ensures r == Cast(g, px, py, c, s) == FirstStop(g, px, py, c, s, 0)
  {
    ghost var result := MarchFrom(g, px, py, c, s, 0);
    var distance := 0.0;
    var hitWall := false;
    var wallType, hitCellX, hitCellY := 0, 0, 0;
    var testX, testY := px, py;
    ghost var k: nat := 0;
    while !hitWall && distance < MAX_DEPTH
      invariant k <= LAST_STEP
      invariant !hitWall ==> distance == (k as real) * STEP && testX == Probe(px, c, k) && testY == Probe(py, s, k)
      invariant !hitWall ==> wallType == 0 && hitCellX == 0 && hitCellY == 0
      invariant !hitWall ==> result == MarchFrom(g, px, py, c, s, k)
      invariant hitWall ==> RayHit(distance, wallType, hitCellX, hitCellY) == result
      decreases if hitWall then 0 else LAST_STEP + 1 - k
    {
      hitWall, distance, wallType, hitCellX, hitCellY, testX, testY :=
        MarchOnce(g, px, py, c, s, k, distance, testX, testY);
      k := k + 1;
    }
    r := RayHit(distance, wallType, hitCellX, hitCellY);
    OwnCellSkipIsRedundant(g, px, py, c, s, 0);
    MarchBounds(g, px, py, c, s, 0);
  }

  /** One pass of the loop body: advance by one step, then the grid-exit
      test, the player's-own-cell rule and the building test. */
  method MarchOnce(g: Map, px: real, py: real, c: real, s: real, ghost k: nat, distance0: real, testX0: real, testY0: real)
    returns (hitWall: bool, distance: real, wallType: int, hitCellX: int, hitCellY: int, testX: real, testY: real)
    requires Rectangular(g) && (k as real) * STEP < MAX_DEPTH
    requires distance0 == (k as real) * STEP && testX0 == Probe(px, c, k) && testY0 == Probe(py, s, k)
    ensures k + 1 <= LAST_STEP
    ensures testX == Probe(px, c, k + 1) && testY == Probe(py, s, k + 1)
    ensures hitWall ==> RayHit(distance, wallType, hitCellX, hitCellY) == MarchFrom(g, px, py, c, s, k)
    ensures !hitWall ==> distance == ((k + 1) as real) * STEP && wallType == 0 && hitCellX == 0 && hitCellY == 0 &&
                         MarchFrom(g, px, py, c, s, k) == MarchFrom(g, px, py, c, s, k + 1)
  {
    MarchStep(g, px, py, c, s, k);
    var playerCellX, playerCellY := px.Floor, py.Floor;
    hitWall := false;
    wallType, hitCellX, hitCellY := 0, 0, 0;
    distance := distance0 + STEP;
    testX := testX0 + c * STEP;
    testY := testY0 + s * STEP;
    if testX < 0.0 || testX >= Width(g) as real || testY < 0.0 || testY >= Height(g) as real {
      hitWall := true;
      distance := MAX_DEPTH;
    } else {
      var cellX, cellY := testX.Floor, testY.Floor;
      var cellValue := g[cellY][cellX];
      if cellX == playerCellX && cellY == playerCellY {
        if cellValue == 1 {
          hitWall := true;
          wallType, hitCellX, hitCellY := cellValue, cellX, cellY;
        }
      } else if cellValue == 1 {
        hitWall := true;
        wallType, hitCellX, hitCellY := cellValue, cellX, cellY;
      }
    }
  }

  // ---------------------------------------------------------------------
  // Screen columns and the depth buffer
  // ---------------------------------------------------------------------

  /** `Math.min(240, Math.floor(canvas.width / 2))`. */
  function RayCount(w: nat): nat
  {
    if w / 2 < MAX_RAYS then w / 2 else MAX_RAYS
  }

  /** `Math.ceil(canvas.width / rayCount)`. */
  function RayWidth(w: nat, rc: nat): nat
    requires rc > 0
  {
    (w + rc - 1) / rc
  }

  /** `Math.floor(ray * canvas.width / rayCount)`: the first column of a ray. */
  function RayX(r: nat, w: nat, rc: nat): nat
    requires rc > 0
  {
    (r * w) / rc
  }

  /** One past the last column a ray writes. */
  function SpanEnd(r: nat, w: nat, rc: nat): int
    requires rc > 0
  {
    if RayX(r, w, rc) + RayWidth(w, rc) < w then RayX(r, w, rc) + RayWidth(w, rc) else w
  }

  function Paint(buf: seq<real>, lo: int, hi: int, v: real): (b: seq<real>)
    ensures |b| == |buf|
  {
    seq(|buf|, i requires 0 <= i < |buf| => if lo <= i < hi then v else buf[i])
  }

  /** The buffer after `fill(maxDepth)` and the first n rays. */
  function Fill(w: nat, rc: nat, depths: seq<real>, n: nat): (b: seq<real>)
    requires n <= rc <= |depths|
    ensures |b| == w
  {
    if n == 0 then seq(w, _ => MAX_DEPTH)
    else Paint(Fill(w, rc, depths, n - 1), RayX(n - 1, w, rc), SpanEnd(n - 1, w, rc), depths[n - 1])
  }

  /** The last ray whose first column is at or left of x. */
  function LastRayAt(x: nat, w: nat, rc: nat, r: nat): (l: nat)
    requires 0 < rc && r < rc
    ensures l <= r && RayX(l, w, rc) <= x
    ensures forall j :: l < j <= r ==> RayX(j, w, rc) > x
  {
    if RayX(r, w, rc) <= x || r == 0 then r else LastRayAt(x, w, rc, r - 1)
  }

  /** `Math.ceil` of a positive integer quotient. */
  lemma CeilDiv(w: nat, rc: nat)
    requires rc > 0
    ensures RayWidth(w, rc) == w / rc + (if w % rc == 0 then 0 else 1)
  {
    var q2, m2 := w / rc, w % rc;
    assert w == q2 * rc + m2;
    if m2 == 0 {
      DivUnique(w + rc - 1, rc, q2, rc - 1);
    } else {
      assert w + rc - 1 == (q2 + 1) * rc + (m2 - 1);
      DivUnique(w + rc - 1, rc, q2 + 1, m2 - 1);
    }
  }
  /** Neighbouring rays leave no gap: the next ray starts at most one ray
      width after this one. */
  lemma NextRayStartsWithinWidth(r: nat, w: nat, rc: nat)
    requires rc > 0
    ensures RayX(r + 1, w, rc) <= RayX(r, w, rc) + RayWidth(w, rc)
  {
    var a := r * w;
    var q1, m1 := a / rc, a % rc;
    var q2, m2 := w / rc, w % rc;
    assert a == q1 * rc + m1;
    assert w == q2 * rc + m2;
    assert (r + 1) * w == a + w;
    assert a + w == (q1 + q2) * rc + (m1 + m2);
    CeilDiv(w, rc);
    if m1 + m2 < rc {
      DivUnique((r + 1) * w, rc, q1 + q2, m1 + m2);
    } else {
      assert a + w == (q1 + q2 + 1) * rc + (m1 + m2 - rc);
      DivUnique((r + 1) * w, rc, q1 + q2 + 1, m1 + m2 - rc);
    }
  }
  /** The last ray reaches the right edge of the canvas. */
  lemma LastRayReachesEdge(w: nat, rc: nat)
    requires rc > 0
    ensures RayX(rc - 1, w, rc) + RayWidth(w, rc) >= w
  {
    var q2, m2 := w / rc, w % rc;
    assert w == q2 * rc + m2;
    assert (rc - 1) * w == rc * w - w;
    CeilDiv(w, rc);
    if m2 == 0 {
      assert (rc - 1) * w == (w - q2) * rc;
      DivUnique((rc - 1) * w, rc, w - q2, 0);
    } else {
      assert (rc - 1) * w == (w - q2 - 1) * rc + (rc - m2);
      DivUnique((rc - 1) * w, rc, w - q2 - 1, rc - m2);
    }
  }

  lemma {:induction false} FillAt(w: nat, rc: nat, depths: seq<real>, n: nat, x: nat)
    requires 0 < rc <= |depths| && x < w
    requires LastRayAt(x, w, rc, rc - 1) < n <= rc
    ensures Fill(w, rc, depths, n)[x] == depths[LastRayAt(x, w, rc, rc - 1)]
    decreases n
  {
    var l := LastRayAt(x, w, rc, rc - 1);
    if n - 1 == l {
      if l + 1 < rc {
        NextRayStartsWithinWidth(l, w, rc);
      } else {
        LastRayReachesEdge(w, rc);
      }
    } else {
      FillAt(w, rc, depths, n - 1, x);
    }
  }

  /** Every column of a canvas at least two pixels wide ends up holding the
      depth of the last ray whose span covers it; no column keeps the
      initial maximum depth unless that is the ray's own depth. */
  lemma DepthBufferCoverage(w: nat, depths: seq<real>)
    requires RayCount(w) > 0 && |depths| == RayCount(w)
    ensures forall x :: 0 <= x < w ==>
      Fill(w, RayCount(w), depths, RayCount(w))[x] == depths[LastRayAt(x, w, RayCount(w), RayCount(w) - 1)]
  {
    var rc := RayCount(w);
    forall x | 0 <= x < w
      ensures Fill(w, rc, depths, rc)[x] == depths[LastRayAt(x, w, rc, rc - 1)]
    {
      FillAt(w, rc, depths, rc, x);
    }
  }

  /** A canvas narrower than two pixels casts no ray at all. */
  lemma NarrowCanvasCastsNothing(w: nat, depths: seq<real>)
    requires RayCount(w) == 0 && depths == []
    ensures w < 2 && forall x :: 0 <= x < w ==> Fill(w, 0, depths, 0)[x] == MAX_DEPTH
  {
  }

  /** One renderObject call: where the wall slice of a ray is drawn. */
  datatype Column = Column(x: int, top: real, width: int, height: real, wallType: int,
                           brightness: real, distance: real, cellX: int, cellY: int)

  function RayAngle(a: real, r: nat, rc: nat): real
    requires rc > 0
  {
    a - FOV / 2.0 + ((r as real) / (rc as real)) * FOV
  }

  /** One ray marched from the player's position. */
  function Cast(g: Map, px: real, py: real, c: real, s: real): (r: RayHit)
    requires Rectangular(g)
    ensures WellFormedHit(g, r)
  {
    MarchBounds(g, px, py, c, s, 0);
    MarchFrom(g, px, py, c, s, 0)
  }

  /** The corrected distance of ray r of rc. */
  function Corrected(g: Map, px: real, py: real, a: real, trig: Trig, r: nat, rc: nat): real
    requires Rectangular(g) && rc > 0
  {
    var ang := RayAngle(a, r, rc);
    FishEye(Cast(g, px, py, trig.cos(ang), trig.sin(ang)).distance, trig.cos(ang - a))
  }

  predicate CorrectionPositive(g: Map, px: real, py: real, a: real, trig: Trig, rc: nat)
    requires Rectangular(g)
  {
    forall r :: 0 <= r < rc ==> trig.cos(RayAngle(a, r, rc) - a) > 0.0
  }

  /** The wall slice of a ray whose corrected distance is cd: centred on
      the horizon, its height inversely proportional to cd, its brightness
      fading with distance but never below 0.1. */
  function Slice(x: int, width: int, h: nat, hit: RayHit, cd: real): (col: Column)
    requires cd > 0.0
    ensures col.distance == cd && col.wallType == hit.wallType
    ensures col.cellX == hit.cellX && col.cellY == hit.cellY
    ensures col.height * col.distance == h as real / 2.0
    ensures col.top + col.height / 2.0 == h as real / 2.0
    ensures 0.1 <= col.brightness <= 1.0
    ensures cd <= 18.0 ==> col.brightness == 1.0 - cd / MAX_DEPTH
    ensures cd >= 18.0 ==> col.brightness == 0.1
    ensures col.x == x && col.width == width
  {
    var wallHeight := (h as real / cd) * 0.5;
    assert wallHeight * cd == h as real / 2.0;
    Column(x, h as real / 2.0 - wallHeight / 2.0, width,
           wallHeight, hit.wallType, MaxReal(0.1, 1.0 - cd / MAX_DEPTH), cd, hit.cellX, hit.cellY)
  }

  lemma CorrectedPositive(g: Map, px: real, py: real, a: real, trig: Trig, r: nat, rc: nat)
    requires Rectangular(g) && rc > 0
    requires trig.cos(RayAngle(a, r, rc) - a) > 0.0
    ensures Corrected(g, px, py, a, trig, r, rc) > 0.0
  {
  }

  /** The wall slice one ray of a frame draws (shaped as Slice states): its
      depth is positive and it shows a building code only for a building
      cell inside the grid. */
  function ColumnOf(g: Map, w: nat, h: nat, px: real, py: real, a: real, trig: Trig, r: nat, rc: nat): (col: Column)
    requires Rectangular(g) && rc > 0
    requires trig.cos(RayAngle(a, r, rc) - a) > 0.0
    ensures col.distance > 0.0
    ensures col.wallType == 1 ==> InBounds(g, col.cellX, col.cellY) && g[col.cellY][col.cellX] == 1
  {
    var ang := RayAngle(a, r, rc);
    CorrectedPositive(g, px, py, a, trig, r, rc);
    Slice(RayX(r, w, rc), RayWidth(w, rc), h, Cast(g, px, py, trig.cos(ang), trig.sin(ang)),
          Corrected(g, px, py, a, trig, r, rc))
  }

  /** `zBuffer.fill(maxDepth)`. */
  method FillMax(z: array<real>)
    modifies z
    ensures z[..] == seq(z.Length, _ => MAX_DEPTH)
  {
    var i := 0;
    while i < z.Length
      invariant 0 <= i <= z.Length
      invariant forall j :: 0 <= j < i ==> z[j] == MAX_DEPTH
    {
      z[i] := MAX_DEPTH;
      i := i + 1;
    }
  }

  /** `for (x = rayX; x < min(rayX + rayWidth, width); x++) zBuffer[x] = d`. */
  method PaintSpan(z: array<real>, lo: nat, hi: int, v: real)
    requires hi <= z.Length
    modifies z
    ensures z[..] == Paint(old(z[..]), lo, hi, v)
  {
    var x := lo;
    while x < hi
      invariant lo <= x && (lo <= hi ==> x <= hi) && (hi < lo ==> x == lo)
      invariant forall j :: 0 <= j < z.Length ==> z[j] == if lo <= j < x then v else old(z[j])
    {
      z[x] := v;
      x := x + 1;
    }
    assert forall j :: 0 <= j < z.Length ==> z[j] == Paint(old(z[..]), lo, hi, v)[j];
  }

  /** The `while (!hitWall ...)` march and the fish-eye correction of one ray. */
  method CastColumn(g: Map, w: nat, h: nat, px: real, py: real, a: real, trig: Trig, ray: nat, rc: nat)
    returns (col: Column, cd: real)
    requires Rectangular(g) && rc > 0
    requires trig.cos(RayAngle(a, ray, rc) - a) > 0.0
    ensures cd == Corrected(g, px, py, a, trig, ray, rc) && cd > 0.0
    ensures col == ColumnOf(g, w, h, px, py, a, trig, ray, rc)
  {
    var rayAngle := RayAngle(a, ray, rc);
    var hit := MarchRay(g, px, py, trig.cos(rayAngle), trig.sin(rayAngle));
    cd := FishEye(hit.distance, trig.cos(rayAngle - a));
    col := Slice(RayX(ray, w, rc), RayWidth(w, rc), h, hit, cd);
  }

  /** The shared depth buffer (`sharedZBuffer`, `sharedZWidth`). */
  class DepthRenderer {
    var zBuffer: array?<real>
    var zWidth: int

    predicate Valid()
      reads this
    {
      zBuffer != null ==> zBuffer.Length == zWidth
    }

    constructor ()
      ensures Valid() && zBuffer == null && zWidth == 0
    {
      zBuffer := null;
      zWidth := 0;
    }

    /** One frame: reuse or reallocate the buffer, fill it with the maximum
        depth, march every ray, write its corrected distance over its
        columns and report the wall slice it draws. */
    method Render3D(g: Map, w: nat, h: nat, px: real, py: real, a: real, trig: Trig)
      returns (columns: seq<Column>)
      requires Valid() && Rectangular(g)
      requires CorrectionPositive(g, px, py, a, trig, RayCount(w))
      modifies this, zBuffer
      ensures Valid() && zBuffer != null && zBuffer.Length == w && zWidth == w
      ensures old(zBuffer) != null && old(zWidth) == w ==> zBuffer == old(zBuffer)
      ensures old(zBuffer) == null || old(zWidth) != w ==> fresh(zBuffer)
      ensures zBuffer[..] == Fill(w, RayCount(w), Depths(g, px, py, a, trig, RayCount(w)), RayCount(w))
      ensures |columns| == RayCount(w)
      ensures forall r :: 0 <= r < |columns| ==> columns[r] == ColumnOf(g, w, h, px, py, a, trig, r, RayCount(w))
    {
      var rc := RayCount(w);
      if zBuffer == null || zWidth != w {
        zBuffer := new real[w];
        zWidth := w;
      }
      FillMax(zBuffer);
      columns := CastAll(zBuffer, g, w, h, px, py, a, trig);
    }
  }

  /** columns[r] is the wall slice of ray r, for every r (stated on
      prefixes, so that the loop below extends it one ray at a time). */
  ghost predicate ColumnsOf(columns: seq<Column>, g: Map, w: nat, h: nat, px: real, py: real, a: real,
                            trig: Trig, rc: nat)
    requires Rectangular(g) && rc > 0 && CorrectionPositive(g, px, py, a, trig, rc)
    decreases |columns|
  {
    |columns| == 0 ||
    (|columns| <= rc && ColumnsOf(columns[..|columns| - 1], g, w, h, px, py, a, trig, rc) &&
     columns[|columns| - 1] == ColumnOf(g, w, h, px, py, a, trig, |columns| - 1, rc))
  }

  lemma {:induction false} ColumnsOfAt(columns: seq<Column>, g: Map, w: nat, h: nat, px: real, py: real,
                                       a: real, trig: Trig, rc: nat, r: nat)
    requires Rectangular(g) && rc > 0 && CorrectionPositive(g, px, py, a, trig, rc)
    requires ColumnsOf(columns, g, w, h, px, py, a, trig, rc) && r < |columns|
    ensures r < rc && columns[r] == ColumnOf(g, w, h, px, py, a, trig, r, rc)
    decreases |columns|
  {
    if r < |columns| - 1 {
      ColumnsOfAt(columns[..|columns| - 1], g, w, h, px, py, a, trig, rc, r);
    }
  }

  /** The `for (ray = 0; ray < rayCount; ray++)` loop over a buffer already
      filled with the maximum depth. */
  method CastAll(z: array<real>, g: Map, w: nat, h: nat, px: real, py: real, a: real, trig: Trig)
    returns (columns: seq<Column>)
    requires Rectangular(g) && z.Length == w && z[..] == seq(w, _ => MAX_DEPTH)
    requires CorrectionPositive(g, px, py, a, trig, RayCount(w))
    modifies z
    ensures z[..] == Fill(w, RayCount(w), Depths(g, px, py, a, trig, RayCount(w)), RayCount(w))
    ensures |columns| == RayCount(w)
    ensures forall r :: 0 <= r < |columns| ==> columns[r] == ColumnOf(g, w, h, px, py, a, trig, r, RayCount(w))
  {
    var rc := RayCount(w);
    ghost var depths := Depths(g, px, py, a, trig, rc);
    columns := [];
    if rc == 0 {
      return;
    }
    var ray := 0;
    while ray < rc
      invariant 0 <= ray <= rc
      invariant z[..] == Fill(w, rc, depths, ray)
      invariant |columns| == ray
      invariant ColumnsOf(columns, g, w, h, px, py, a, trig, rc)
    {
      var col, correctedDistance := CastColumn(g, w, h, px, py, a, trig, ray, rc);
      PaintSpan(z, RayX(ray, w, rc), SpanEnd(ray, w, rc), correctedDistance);
      assert (columns + [col])[..ray] == columns;
      columns := columns + [col];
      ray := ray + 1;
    }
    forall r | 0 <= r < |columns|
      ensures columns[r] == ColumnOf(g, w, h, px, py, a, trig, r, rc)
    {
      ColumnsOfAt(columns, g, w, h, px, py, a, trig, rc, r);
    }
  }

  /** The corrected distance of every ray of a frame. */
  function Depths(g: Map, px: real, py: real, a: real, trig: Trig, rc: nat): (d: seq<real>)
    requires Rectangular(g)
    ensures |d| == rc
  {
    seq(rc, r requires 0 <= r < rc => Corrected(g, px, py, a, trig, r, rc))
  }
}
