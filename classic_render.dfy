// The renderer of the original ECS version (systems/rendering.js): a
// ray marcher with step 0.05 that reports any non-floor code as a hit, the
// list of hits that render3D builds, the brightness and renderer lookup of
// renderObject, the view test of the floating objects, and the renderer
// registry ObjectRendererFactory.
module ClassicRender {
  import opened Grid

  const STEP: real := 0.05
  const MAX_DISTANCE: real := 20.0
  /** The march takes at most 400 steps: 400 * 0.05 = 20. */
  const LAST_STEP: nat := 400
  const FOV: real := PI / 3.0

  /** What castRay returns when it stops. */
  datatype Hit = Hit(distance: real, wallType: int)

  // ---------------------------------------------------------------------
  // castRay
  // ---------------------------------------------------------------------

  /** The point probed at step j (j = 1..400), whose travelled distance is
      j * 0.05: `origin + d * distance` with the per-step offset
      d = (dx, dy) as the caller passes it. */
  function SampleX(ox: real, dx: real, distance: real): real
  {
    ox + dx * distance
  }

  function SampleY(oy: real, dy: real, distance: real): real
  {
    oy + dy * distance
  }

  /** The distance travelled after j steps. */
  function Dist(j: nat): real
  {
    j as real * STEP
  }

  predicate Outside(g: Map, x: real, y: real)
    requires Rectangular(g)
  {
    x < 0.0 || x >= Width(g) as real || y < 0.0 || y >= Height(g) as real
  }

  predicate OutsideAt(g: Map, ox: real, oy: real, dx: real, dy: real, j: nat)
    requires Rectangular(g)
  {
    Outside(g, SampleX(ox, dx, Dist(j)), SampleY(oy, dy, Dist(j)))
  }

  /** The code castRay reads at step j: 1 outside the grid. */
  function CodeAt(g: Map, ox: real, oy: real, dx: real, dy: real, j: nat): int
    requires Rectangular(g)
  {
    var tx, ty := SampleX(ox, dx, Dist(j)), SampleY(oy, dy, Dist(j));
    if Outside(g, tx, ty) then 1 else g[ty.Floor][tx.Floor]
  }

  /** Step j lets the ray go on: inside the grid on a code <= 0. */
  predicate Clear(g: Map, ox: real, oy: real, dx: real, dy: real, j: nat)
    requires Rectangular(g)
  {
    !OutsideAt(g, ox, oy, dx, dy, j) && CodeAt(g, ox, oy, dx, dy, j) <= 0
  }

  /** The march after k clear steps. */
  function MarchAt(g: Map, ox: real, oy: real, dx: real, dy: real, k: nat): Option<Hit>
    requires Rectangular(g) && k <= LAST_STEP
    decreases LAST_STEP - k
  {
    if k == LAST_STEP then None
    else if !Clear(g, ox, oy, dx, dy, k + 1) then
      Some(Hit((k + 1) as real * STEP, CodeAt(g, ox, oy, dx, dy, k + 1)))
    else MarchAt(g, ox, oy, dx, dy, k + 1)
  }

  /** Clear steps k+1..j change nothing: the march after them is the same. */
  lemma {:induction false} ClearPrefix(g: Map, ox: real, oy: real, dx: real, dy: real, k: nat, j: nat)
    requires Rectangular(g) && k <= j <= LAST_STEP
    requires forall i :: k < i <= j ==> Clear(g, ox, oy, dx, dy, i)
    ensures MarchAt(g, ox, oy, dx, dy, k) == MarchAt(g, ox, oy, dx, dy, j)
    decreases j - k
  {
    if k < j {
      ClearPrefix(g, ox, oy, dx, dy, k + 1, j);
    }
  }

  /** The march reports either nothing, when all remaining steps up to 20
      are clear, or the first step that is not clear: its distance, and
      code 1 outside the grid or the positive code it met. */
  lemma {:induction false} MarchResult(g: Map, ox: real, oy: real, dx: real, dy: real, k: nat)
    requires Rectangular(g) && k <= LAST_STEP
    ensures MarchAt(g, ox, oy, dx, dy, k).None? <==>
              forall i :: k < i <= LAST_STEP ==> Clear(g, ox, oy, dx, dy, i)
    ensures MarchAt(g, ox, oy, dx, dy, k).Some? ==>
              var h := MarchAt(g, ox, oy, dx, dy, k).value;
              h.wallType > 0 && (k + 1) as real * STEP <= h.distance <= MAX_DISTANCE &&
              exists j :: k < j <= LAST_STEP && h.distance == j as real * STEP &&
                          !Clear(g, ox, oy, dx, dy, j) && h.wallType == CodeAt(g, ox, oy, dx, dy, j) &&
                          forall i :: k < i < j ==> Clear(g, ox, oy, dx, dy, i)
    decreases LAST_STEP - k
  {
    if k < LAST_STEP {
      MarchResult(g, ox, oy, dx, dy, k + 1);
      if !Clear(g, ox, oy, dx, dy, k + 1) {
        assert !(forall i :: k < i <= LAST_STEP ==> Clear(g, ox, oy, dx, dy, i));
      }
    }
  }

  /** One step of the march, unfolded for the loop that runs it. */
  lemma MarchStep(g: Map, ox: real, oy: real, dx: real, dy: real, k: nat)
    requires Rectangular(g) && k < LAST_STEP
    ensures var tx, ty := SampleX(ox, dx, Dist(k + 1)), SampleY(oy, dy, Dist(k + 1));
            MarchAt(g, ox, oy, dx, dy, k) ==
              if Outside(g, tx, ty) then Some(Hit((k + 1) as real * STEP, 1))
              else if g[ty.Floor][tx.Floor] > 0 then Some(Hit((k + 1) as real * STEP, g[ty.Floor][tx.Floor]))
              else MarchAt(g, ox, oy, dx, dy, k + 1)
  {
  }

  /** A reported hit has a positive code and a distance between the next
      step and 20. */
  lemma {:induction false} MarchShape(g: Map, ox: real, oy: real, dx: real, dy: real, k: nat)
    requires Rectangular(g) && k <= LAST_STEP
    ensures MarchAt(g, ox, oy, dx, dy, k).Some? ==>
              MarchAt(g, ox, oy, dx, dy, k).value.wallType > 0 &&
              Dist(k + 1) <= MarchAt(g, ox, oy, dx, dy, k).value.distance <= MAX_DISTANCE
    decreases LAST_STEP - k
  {
    if k < LAST_STEP {
      MarchShape(g, ox, oy, dx, dy, k + 1);
    }
  }

  /** The castRay loop for a given per-step offset (dx, dy). */
  method March(g: Map, ox: real, oy: real, dx: real, dy: real) returns (r: Option<Hit>)
    requires Rectangular(g)
    ensures r == MarchAt(g, ox, oy, dx, dy, 0)
  {
    ghost var result := MarchAt(g, ox, oy, dx, dy, 0);
    var distance := 0.0;
    var hitWall := false;
    var wallType := 0;
    ghost var k: nat := 0;
    while !hitWall && distance < MAX_DISTANCE
      invariant k <= LAST_STEP && distance == k as real * STEP
      invariant !hitWall ==> result == MarchAt(g, ox, oy, dx, dy, k)
      invariant hitWall ==> result == Some(Hit(distance, wallType))
      decreases LAST_STEP - k
    {
      MarchStep(g, ox, oy, dx, dy, k);
      distance := distance + STEP;
      k := k + 1;
      var testX := SampleX(ox, dx, distance);
      var testY := SampleY(oy, dy, distance);
      assert distance == Dist(k);
      assert testX == SampleX(ox, dx, Dist(k)) && testY == SampleY(oy, dy, Dist(k));
      if testX < 0.0 || testX >= Width(g) as real || testY < 0.0 || testY >= Height(g) as real {
        hitWall := true;
        wallType := 1;
      } else {
        wallType := g[testY.Floor][testX.Floor];
        if wallType > 0 {
          hitWall := true;
        }
      }
    }
    if hitWall {
      r := Some(Hit(distance, wallType));
    } else {
      r := None;
    }
  }

  /** castRay as written: `dx = cos(angle) * stepSize` and the sample is
      `originX + dx * distance`, so the step size is applied twice. */
  method CastRayAsWritten(g: Map, ox: real, oy: real, cos: real, sin: real) returns (r: Option<Hit>)
    requires Rectangular(g)
    ensures r == MarchAt(g, ox, oy, cos * STEP, sin * STEP, 0)
  {
    r := March(g, ox, oy, cos * STEP, sin * STEP);
  }

  /** castRay with the unit direction as the per-step offset, so that the
      sample at travelled distance d lies d away from the origin. */
  method CastRay(g: Map, ox: real, oy: real, cos: real, sin: real) returns (r: Option<Hit>)
    requires Rectangular(g)
    ensures r == MarchAt(g, ox, oy, cos, sin, 0)
  {
    r := March(g, ox, oy, cos, sin);
  }

  lemma UnitScale(c: real, s: real, t: real)
    requires c * c + s * s == 1.0
    ensures (c * t) * (c * t) + (s * t) * (s * t) == t * t
  {
    assert (c * t) * (c * t) + (s * t) * (s * t) == (c * c + s * s) * (t * t);
  }

  /** As written, a unit direction never samples farther than one grid
      unit from the origin, although it reports distances up to 20. */
  lemma AsWrittenReachesOneUnit(ox: real, oy: real, c: real, s: real, j: nat)
    requires c * c + s * s == 1.0 && j <= LAST_STEP
    ensures DistSq(SampleX(ox, c * STEP, Dist(j)), SampleY(oy, s * STEP, Dist(j)), ox, oy) <= 1.0
  {
    var t := j as real * 0.0025;
    assert SampleX(ox, c * STEP, Dist(j)) - ox == c * t;
    assert SampleY(oy, s * STEP, Dist(j)) - oy == s * t;
    UnitScale(c, s, t);
    assert 0.0 <= t <= 1.0;
    assert t * t <= t;
  }

  /** Corrected, the sample at step j lies exactly j * 0.05 from the
      origin: the reported distance is the distance travelled. */
  lemma CorrectedSampleDistance(ox: real, oy: real, c: real, s: real, j: nat)
    requires c * c + s * s == 1.0
    ensures DistSq(SampleX(ox, c, Dist(j)), SampleY(oy, s, Dist(j)), ox, oy) == Dist(j) * Dist(j)
  {
    var t := Dist(j);
    assert SampleX(ox, c, Dist(j)) - ox == c * t;
    assert SampleY(oy, s, Dist(j)) - oy == s * t;
    UnitScale(c, s, t);
  }

  /** A one-row maze with a building three cells east of the player. */
  const EAST_WALL: Map := [[0, 0, 0, 1]]

  /** As written, the ray from (0.5, 0.5) heading east never gets past
      x = 1.5 and returns null. */
  lemma AsWrittenMissesEastWall()
    ensures MarchAt(EAST_WALL, 0.5, 0.5, 1.0 * STEP, 0.0 * STEP, 0).None?
  {
    var g, dx, dy := EAST_WALL, 1.0 * STEP, 0.0 * STEP;
    forall i | 0 < i <= LAST_STEP
      ensures Clear(g, 0.5, 0.5, dx, dy, i)
    {
      var tx := SampleX(0.5, dx, Dist(i));
      assert tx == 0.5 + i as real * 0.0025;
      assert 0.5 < tx <= 1.5;
      assert tx.Floor == 0 || tx.Floor == 1;
      assert SampleY(0.5, dy, Dist(i)) == 0.5;
    }
    MarchResult(g, 0.5, 0.5, dx, dy, 0);
  }

  /** Corrected, the same ray stops at the building, 2.5 away. */
  lemma CorrectedHitsEastWall()
    ensures MarchAt(EAST_WALL, 0.5, 0.5, 1.0, 0.0, 0) == Some(Hit(2.5, 1))
  {
    var g := EAST_WALL;
    forall i | 0 < i <= 49
      ensures Clear(g, 0.5, 0.5, 1.0, 0.0, i)
    {
      var tx := SampleX(0.5, 1.0, Dist(i));
      assert tx == 0.5 + i as real * 0.05;
      assert 0.5 < tx < 3.0;
      assert 0 <= tx.Floor <= 2;
      assert SampleY(0.5, 0.0, Dist(i)) == 0.5;
    }
    ClearPrefix(g, 0.5, 0.5, 1.0, 0.0, 0, 49);
    assert SampleX(0.5, 1.0, Dist(50)) == 3.0 && SampleY(0.5, 0.0, Dist(50)) == 0.5;
    assert !Clear(g, 0.5, 0.5, 1.0, 0.0, 50);
  }

  // ---------------------------------------------------------------------
  // render3D: the hit list
  // ---------------------------------------------------------------------

  /** One entry of render3D's `hits`. */
  datatype HitRecord = HitRecord(x: nat, distance: real, wallType: int, wallHeight: real, rayAngle: real)

  /** Ray i of `canvas.width / 2` rays, which is not rounded down. */
  function RayAngle(a: real, i: nat, w: nat): real
    requires w > 0
  {
    a - FOV / 2.0 + (i as real / (w as real / 2.0)) * FOV
  }

  /** The rays castRay is run for. */
  predicate IsRay(i: int, w: nat)
  {
    0 <= i && 2 * i < w
  }

  /** `i < canvas.width / 2`, with the real-valued bound of the source,
      picks out the rays 0..(w+1)/2 - 1. */
  lemma RayBound(w: nat, i: int)
    ensures 0 <= i && (i as real) < w as real / 2.0 <==> IsRay(i, w)
    ensures IsRay(i, w) <==> 0 <= i < (w + 1) / 2
  {
  }

  /** The cosine oracle is positive on every ray's offset from the view
      direction (all offsets are within pi/6). */
  ghost predicate CosPositive(trig: Trig, a: real, w: nat)
  {
    forall i: nat :: IsRay(i, w) ==> trig.cos(RayAngle(a, i, w) - a) > 0.0
  }

  /** `canvas.height / correctedDistance`. */
  function WallHeight(h: nat, cd: real): (wh: real)
    requires cd > 0.0
    ensures wh * cd == h as real && wh >= 0.0
  {
    h as real / cd
  }

  /** A positive wall type and corrected distance, and a wall height that
      times the distance gives the canvas height. */
  predicate GoodRecord(rec: HitRecord, h: nat)
  {
    rec.wallType > 0 && rec.distance > 0.0 && rec.wallHeight * rec.distance == h as real
  }

  /** The record of ray i for a castRay hit, corrected by the cosine of
      the ray's offset from the view direction. */
  function Record(i: nat, hit: Hit, ang: real, cosOffset: real, h: nat): (rec: HitRecord)
    requires hit.distance > 0.0 && hit.wallType > 0 && cosOffset > 0.0
    ensures rec.x == i && rec.wallType == hit.wallType && rec.rayAngle == ang && GoodRecord(rec, h)
  {
    var cd := FishEye(hit.distance, cosOffset);
    HitRecord(i, cd, hit.wallType, WallHeight(h, cd), ang)
  }

  /** Which castRay render3D calls: the one the source has, whose
      per-step offset is the direction times the step size, or the
      corrected one, whose offset is the unit direction. */
  datatype Stepping = AsWritten | Corrected

  /** The per-step offset castRay is given for one direction component. */
  function Offset(s: Stepping, c: real): real
  {
    match s
    case AsWritten => c * STEP
    case Corrected => c
  }

  /** What render3D pushes for ray i: nothing when castRay returns null. */
  function RayRecord(g: Map, w: nat, h: nat, px: real, py: real, a: real, trig: Trig, s: Stepping, i: nat)
    : (r: Option<HitRecord>)
    requires Rectangular(g) && IsRay(i, w) && CosPositive(trig, a, w)
    ensures r.Some? ==> r.value.x == i && GoodRecord(r.value, h)
  {
    var ang := RayAngle(a, i, w);
    var hit := MarchAt(g, px, py, Offset(s, trig.cos(ang)), Offset(s, trig.sin(ang)), 0);
    MarchShape(g, px, py, Offset(s, trig.cos(ang)), Offset(s, trig.sin(ang)), 0);
    match hit
    case None => None
    case Some(hv) => Some(Record(i, hv, ang, trig.cos(ang - a), h))
  }

  /** A ray has a record exactly when castRay did not return null. */
  lemma RayRecordIffHit(g: Map, w: nat, h: nat, px: real, py: real, a: real, trig: Trig, s: Stepping, i: nat)
    requires Rectangular(g) && IsRay(i, w) && CosPositive(trig, a, w)
    ensures RayRecord(g, w, h, px, py, a, trig, s, i).Some? <==>
            MarchAt(g, px, py, Offset(s, trig.cos(RayAngle(a, i, w))), Offset(s, trig.sin(RayAngle(a, i, w))), 0).Some?
  {
  }

  /** In render3D, a first ray heading due east from (0.5, 0.5) in the
      map with a building three cells east pushes nothing as written and
      a record of the building when corrected. */
  lemma AsWrittenRayMissesEastWall(w: nat, h: nat, a: real, trig: Trig)
    requires w > 0 && CosPositive(trig, a, w)
    requires trig.cos(RayAngle(a, 0, w)) == 1.0 && trig.sin(RayAngle(a, 0, w)) == 0.0
    ensures RayRecord(EAST_WALL, w, h, 0.5, 0.5, a, trig, AsWritten, 0).None?
    ensures RayRecord(EAST_WALL, w, h, 0.5, 0.5, a, trig, Corrected, 0).Some?
  {
    AsWrittenMissesEastWall();
    CorrectedHitsEastWall();
  }

  /** The body of render3D's ray loop for ray i. */
  method CastOne(g: Map, w: nat, h: nat, px: real, py: real, a: real, trig: Trig, s: Stepping, i: nat)
    returns (rec: Option<HitRecord>)
    requires Rectangular(g) && IsRay(i, w) && CosPositive(trig, a, w)
    ensures rec == RayRecord(g, w, h, px, py, a, trig, s, i)
  {
    var ang := RayAngle(a, i, w);
    var hit;
    if s == AsWritten {
      hit := CastRayAsWritten(g, px, py, trig.cos(ang), trig.sin(ang));
    } else {
      hit := CastRay(g, px, py, trig.cos(ang), trig.sin(ang));
    }
    rec := None;
    if hit.Some? {
      MarchShape(g, px, py, Offset(s, trig.cos(ang)), Offset(s, trig.sin(ang)), 0);
      var cd := FishEye(hit.value.distance, trig.cos(ang - a));
      rec := Some(HitRecord(i, cd, hit.value.wallType, WallHeight(h, cd), ang));
      assert rec.value == Record(i, hit.value, ang, trig.cos(ang - a), h);
    }
  }

  /** The present entries of a list of optional records, in order. */
  function Present(s: seq<Option<HitRecord>>): seq<HitRecord>
    decreases |s|
  {
    if |s| == 0 then []
    else Present(s[..|s| - 1]) + (match s[|s| - 1] case None => [] case Some(rec) => [rec])
  }

  /** Entry i, when present, is the record of ray i. */
  predicate Indexed(s: seq<Option<HitRecord>>)
  {
    forall i :: 0 <= i < |s| && s[i].Some? ==> s[i].value.x == i
  }

  /** Every kept record is the entry at its own index. */
  lemma {:induction false} PresentSound(s: seq<Option<HitRecord>>)
    requires Indexed(s)
    ensures forall k :: 0 <= k < |Present(s)| ==>
              Present(s)[k].x < |s| && s[Present(s)[k].x] == Some(Present(s)[k])
    decreases |s|
  {
    if |s| > 0 {
      var init := s[..|s| - 1];
      assert forall i :: 0 <= i < |init| ==> init[i] == s[i];
      PresentSound(init);
      var p, q := Present(init), Present(s);
      assert forall k :: 0 <= k < |p| ==> q[k] == p[k];
    }
  }

  /** The kept records are in increasing index order. */
  lemma {:induction false} PresentOrdered(s: seq<Option<HitRecord>>)
    requires Indexed(s)
    ensures forall k1, k2 :: 0 <= k1 < k2 < |Present(s)| ==> Present(s)[k1].x < Present(s)[k2].x
    decreases |s|
  {
    if |s| > 0 {
      var init := s[..|s| - 1];
      assert forall i :: 0 <= i < |init| ==> init[i] == s[i];
      PresentOrdered(init);
      PresentSound(init);
      var p, q := Present(init), Present(s);
      assert forall k :: 0 <= k < |p| ==> q[k] == p[k];
    }
  }

  /** No present entry is missed. */
  lemma {:induction false} PresentComplete(s: seq<Option<HitRecord>>, i: nat)
    requires Indexed(s) && i < |s| && s[i].Some?
    ensures exists k :: 0 <= k < |Present(s)| && Present(s)[k].x == i
    decreases |s|
  {
    var init := s[..|s| - 1];
    var p, q := Present(init), Present(s);
    assert forall k :: 0 <= k < |p| ==> q[k] == p[k];
    if i < |init| {
      assert forall j :: 0 <= j < |init| ==> init[j] == s[j];
      PresentComplete(init, i);
      var k :| 0 <= k < |p| && p[k].x == i;
      assert q[k].x == i;
    } else {
      assert q[|p|].x == i;
    }
  }

  /** Entry j of recs is the record of ray j, for every j. */
  ghost predicate RecordsOf(recs: seq<Option<HitRecord>>, g: Map, w: nat, h: nat, px: real, py: real, a: real, trig: Trig,
                            s: Stepping)
    requires Rectangular(g) && CosPositive(trig, a, w)
    decreases |recs|
  {
    |recs| == 0 ||
    (IsRay(|recs| - 1, w) && RecordsOf(recs[..|recs| - 1], g, w, h, px, py, a, trig, s) &&
     recs[|recs| - 1] == RayRecord(g, w, h, px, py, a, trig, s, |recs| - 1))
  }

  lemma {:induction false} RecordsOfAt(recs: seq<Option<HitRecord>>, g: Map, w: nat, h: nat, px: real, py: real,
                                       a: real, trig: Trig, s: Stepping, j: nat)
    requires Rectangular(g) && CosPositive(trig, a, w)
    requires RecordsOf(recs, g, w, h, px, py, a, trig, s) && j < |recs|
    ensures IsRay(j, w) && recs[j] == RayRecord(g, w, h, px, py, a, trig, s, j)
    decreases |recs|
  {
    if j < |recs| - 1 {
      RecordsOfAt(recs[..|recs| - 1], g, w, h, px, py, a, trig, s, j);
    }
  }

  /** render3D's ray loop: `for (i = 0; i < numRays; i++)` pushing the
      record of every ray whose castRay was not null. The hit list holds
      exactly the records of the rays that hit, in ray order; each has a
      positive wall type, a positive corrected distance, and
      wallHeight * distance = canvas height. render3D as written is
      CollectHits with AsWritten. */
  method CollectHits(g: Map, w: nat, h: nat, px: real, py: real, a: real, trig: Trig, s: Stepping)
    returns (hits: seq<HitRecord>, ghost recs: seq<Option<HitRecord>>)
    requires Rectangular(g) && CosPositive(trig, a, w)
    ensures |recs| == (w + 1) / 2 && hits == Present(recs)
    ensures forall i :: 0 <= i < |recs| ==> IsRay(i, w) && recs[i] == RayRecord(g, w, h, px, py, a, trig, s, i)
    ensures forall k :: 0 <= k < |hits| ==>
              hits[k].x < |recs| && recs[hits[k].x] == Some(hits[k]) && GoodRecord(hits[k], h)
    ensures forall k1, k2 :: 0 <= k1 < k2 < |hits| ==> hits[k1].x < hits[k2].x
    ensures forall i :: 0 <= i < |recs| && recs[i].Some? ==> exists k :: 0 <= k < |hits| && hits[k].x == i
  {
    hits := [];
    recs := [];
    var i := 0;
    while (i as real) < w as real / 2.0
      invariant 0 <= i <= (w + 1) / 2 && |recs| == i
      invariant RecordsOf(recs, g, w, h, px, py, a, trig, s)
      invariant hits == Present(recs)
    {
      RayBound(w, i);
      var rec := CastOne(g, w, h, px, py, a, trig, s, i);
      if rec.Some? {
        hits := hits + [rec.value];
      }
      assert (recs + [rec])[..i] == recs;
      recs := recs + [rec];
      i := i + 1;
    }
    RayBound(w, i);
    forall j | 0 <= j < |recs|
      ensures IsRay(j, w) && recs[j] == RayRecord(g, w, h, px, py, a, trig, s, j)
    {
      RecordsOfAt(recs, g, w, h, px, py, a, trig, s, j);
    }
    PresentSound(recs);
    PresentOrdered(recs);
    forall j | 0 <= j < |recs| && recs[j].Some?
      ensures exists k :: 0 <= k < |hits| && hits[k].x == j
    {
      PresentComplete(recs, j);
    }
  }

  // ---------------------------------------------------------------------
  // renderObject and the renderer registry
  // ---------------------------------------------------------------------

  /** A registered drawing routine, known by the tile code it was
      registered for by initializeAll (Builtin) or by any other caller. */
  datatype Renderer = Builtin(code: int) | Custom(id: int)

  /** `Math.max(0.2, 1 - distance / 20)`. */
  function WallBrightness(distance: real): (b: real)
    ensures b >= 0.2
    ensures distance >= 0.0 ==> b <= 1.0
    ensures distance <= 16.0 ==> b == 1.0 - distance / MAX_DISTANCE
    ensures distance >= 16.0 ==> b == 0.2
  {
    MaxReal(0.2, 1.0 - distance / MAX_DISTANCE)
  }

  /** The arguments renderObject hands to the renderer it looked up. */
  datatype WallDraw = WallDraw(renderer: Renderer, x: real, y: real, width: real, height: real,
                               brightness: real, distance: real)

  /** `Map.prototype.get`: the renderer registered for a type, or undefined. */
  function Lookup(renderers: map<int, Renderer>, t: int): (r: Option<Renderer>)
    ensures r.Some? <==> t in renderers
    ensures r.Some? ==> r.value == renderers[t]
  {
    if t in renderers then Some(renderers[t]) else None
  }

  /** renderObject: the registered renderer of `type` is called with the
      slice as given, a width of 3 and the wall brightness of the
      distance; an unknown type draws nothing. */
  function RenderObject(renderers: map<int, Renderer>, canvasWidth: nat, x: real, y: real, t: int,
                        height: real, distance: real): (d: Option<WallDraw>)
    requires canvasWidth > 0
    ensures d.Some? <==> t in renderers
    ensures d.Some? ==> d.value.renderer == renderers[t] && d.value.width == 3.0 &&
                        d.value.brightness >= 0.2 && d.value.distance == distance
    ensures d.Some? ==> d.value.brightness == WallBrightness(distance) &&
                        d.value.x == x && d.value.y == y && d.value.height == height
  {
    var width := canvasWidth as real / (canvasWidth as real / 2.0);
    match Lookup(renderers, t)
    case None => None
    case Some(r) => Some(WallDraw(r, x, y, width + 1.0, height, WallBrightness(distance), distance))
  }

  /** ObjectRendererFactory: a Map from tile code to renderer. */
  class ObjectRendererFactory {
    var renderers: map<int, Renderer>

    constructor ()
      ensures renderers == map[]
    {
      renderers := map[];
    }

    /** `register(type, renderer)`: sets or replaces the entry of type. */
    method Register(t: int, r: Renderer)
      modifies this
      ensures renderers == old(renderers)[t := r]
      ensures GetRenderer(t) == Some(r)
      ensures forall u :: u != t ==> GetRenderer(u) == old(GetRenderer(u))
    {
      renderers := renderers[t := r];
    }

    function GetRenderer(t: int): Option<Renderer>
      reads this
    {
      Lookup(renderers, t)
    }

    /** `initializeAll()`: registers the built-in renderers of codes 1..7. */
    method InitializeAll()
      modifies this
      ensures forall t :: 1 <= t <= 7 ==> GetRenderer(t) == Some(Builtin(t))
      ensures forall t :: !(1 <= t <= 7) ==> GetRenderer(t) == old(GetRenderer(t))
    {
      var t := 1;
      while t <= 7
        invariant 1 <= t <= 8
        invariant forall u :: 1 <= u < t ==> GetRenderer(u) == Some(Builtin(u))
        invariant forall u :: !(1 <= u < t) ==> GetRenderer(u) == old(GetRenderer(u))
      {
        Register(t, Builtin(t));
        t := t + 1;
      }
    }
  }

  /** A later registration of the same type overrides the earlier one;
      other types keep theirs. */
  lemma RegisterOverrides(renderers: map<int, Renderer>, t: int, r1: Renderer, r2: Renderer, u: int)
    ensures Lookup(renderers[t := r1][t := r2], t) == Some(r2)
    ensures u != t ==> Lookup(renderers[t := r1][t := r2], u) == Lookup(renderers, u)
  {
  }

  /** After initializeAll from an empty registry, exactly the types 1..7
      draw, each with its own built-in renderer. */
  method InitializedFactory() returns (f: ObjectRendererFactory)
    ensures fresh(f)
    ensures forall t :: f.GetRenderer(t).Some? <==> 1 <= t <= 7
    ensures forall t :: 1 <= t <= 7 ==> f.GetRenderer(t) == Some(Builtin(t))
  {
    f := new ObjectRendererFactory();
    f.InitializeAll();
  }

  // ---------------------------------------------------------------------
  // renderFloatingObject / renderFloatingWitch: the view test
  // ---------------------------------------------------------------------

  /** The view distance of the floating passes: ghosts (2) 6, pumpkins (3)
      4, the witch (7) 8; other codes are not drawn by these passes. */
  function ViewDistance(code: int): (v: Option<real>)
    ensures v.Some? <==> code == 2 || code == 3 || code == 7
    ensures code == 2 ==> v == Some(6.0)
    ensures code == 3 ==> v == Some(4.0)
    ensures code == 7 ==> v == Some(8.0)
  {
    if code == 2 then Some(6.0)
    else if code == 3 then Some(4.0)
    else if code == 7 then Some(8.0)
    else None
  }

  /** Where a floating object is drawn: its screen column and brightness. */
  datatype FloatingView = FloatingView(screenX: real, brightness: real, angleDiff: real)

  predicate InView(angleDiff: real)
  {
    -FOV < angleDiff < FOV
  }

  /** The drawing position of a visible object: the normalised angle
      maps linearly onto the canvas. */
  function Placement(w: nat, angleDiff: real, distance: real): (v: FloatingView)
    requires InView(angleDiff)
    ensures 0.0 <= v.screenX <= w as real
    ensures w > 0 ==> 0.0 < v.screenX < w as real
    ensures v.brightness >= 0.2
    ensures v.angleDiff == angleDiff
    ensures v.screenX == w as real / 2.0 + (angleDiff / FOV) * (w as real / 2.0)
    ensures distance <= 8.0 ==> v.brightness == 1.0 - distance / 10.0
    ensures distance >= 8.0 ==> v.brightness == 0.2
  {
    var half := w as real / 2.0;
    var ratio := angleDiff / FOV;
    assert -1.0 < ratio < 1.0;
    assert half * ratio <= half && half * ratio >= -half;
    assert w > 0 ==> half * ratio < half && half * ratio > -half;
    FloatingView(half + ratio * half, MaxReal(0.2, 1.0 - distance / 10.0), angleDiff)
  }

  /** The object at cell (gridX, gridY) is shown iff its oracle distance is
      below the view distance and its angle from the view direction,
      normalised into [-pi, pi], is strictly within pi/3. */
  method RenderFloatingObject(px: real, py: real, angle: real, gridX: int, gridY: int,
                              viewDistance: real, trig: Trig, w: nat) returns (v: Option<FloatingView>)
    ensures var dx, dy := gridX as real - px + 0.5, gridY as real - py + 0.5;
            var d := trig.sqrt(SumSq(dx, dy));
            v.Some? <==> d < viewDistance && InView(Normalized(trig.atan2(dy, dx) - angle))
    ensures v.Some? ==> -PI <= v.value.angleDiff <= PI && 0.0 <= v.value.screenX <= w as real &&
                        v.value.brightness >= 0.2
    ensures var dx, dy := gridX as real - px + 0.5, gridY as real - py + 0.5;
            var ad := Normalized(trig.atan2(dy, dx) - angle);
            v.Some? ==> InView(ad) && v.value == Placement(w, ad, trig.sqrt(SumSq(dx, dy)))
  {
    var dx := gridX as real - px + 0.5;
    var dy := gridY as real - py + 0.5;
    var distance := trig.sqrt(SumSq(dx, dy));
    v := None;
    if distance < viewDistance {
      var angleDiff := NormalizeAngle(trig.atan2(dy, dx) - angle);
      if InView(angleDiff) {
        v := Some(Placement(w, angleDiff, distance));
      }
    }
  }
}
