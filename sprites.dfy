// The Halloween game's sprite pass: the static sprites read once from the
// grid and cached, the per-frame visibility filter over static sprites,
// placed pumpkins, the guide and the live enemies, the painter's-order
// sort, and the z-buffer test that decides whether a sprite is drawn.
module Sprites {
  import opened Grid

  /** A billboard object: its tile code and its position. */
  datatype Sprite = Sprite(kind: int, x: real, y: real)

  /** A sprite that passed the visibility filter: its distance from the
      player and its normalised bearing relative to the view direction. */
  datatype Visible = Visible(kind: int, x: real, y: real, distance: real, angle: real)

  const MAX_DISTANCE: real := 15.0
  const FOV: real := PI / 3.0

  // ---------------------------------------------------------------------
  // collectStaticSprites and the sprite cache
  // ---------------------------------------------------------------------

  /** Tile codes that are drawn as sprites. */
  predicate IsSpriteCode(t: int)
  {
    2 <= t <= 11
  }

  /** The sprite of a cell: its code, at the cell centre. */
  function SpriteAt(g: Map, c: Cell): Sprite
    requires Rectangular(g) && InBounds(g, c.x, c.y)
  {
    Sprite(g[c.y][c.x], Center(c).x, Center(c).y)
  }

  /** The cell a sprite stands in (its cell key). */
  function SpriteCell(s: Sprite): Cell
  {
    CellOf(Point(s.x, s.y))
  }

  function SpritesAt(g: Map, cs: seq<Cell>): seq<Sprite>
    requires Rectangular(g) && forall c :: c in cs ==> InBounds(g, c.x, c.y)
  {
    if |cs| == 0 then [] else [SpriteAt(g, cs[0])] + SpritesAt(g, cs[1..])
  }

  lemma {:induction false} SpritesAtIndex(g: Map, cs: seq<Cell>)
    requires Rectangular(g) && forall c :: c in cs ==> InBounds(g, c.x, c.y)
    ensures |SpritesAt(g, cs)| == |cs|
    ensures forall i :: 0 <= i < |cs| ==> SpritesAt(g, cs)[i] == SpriteAt(g, cs[i])
  {
    if |cs| > 0 {
      SpritesAtIndex(g, cs[1..]);
    }
  }

  /** The sprite list of a grid: the sprite of every cell with a sprite
      code, in row-major order. */
  function StaticSprites(g: Map): seq<Sprite>
    requires Rectangular(g)
  {
    ScanMembers(g, IsSpriteCode, 0, Height(g), 0, Width(g));
    SpritesAt(g, Scan(g, IsSpriteCode, 0, Height(g), 0, Width(g)))
  }

  /** Sprite i of the static list is the sprite of cell i of the scan. */
  lemma StaticSpritesCells(g: Map)
    requires Rectangular(g)
    ensures var cs := Scan(g, IsSpriteCode, 0, Height(g), 0, Width(g));
            |StaticSprites(g)| == |cs| &&
            forall i :: 0 <= i < |cs| ==> InBounds(g, cs[i].x, cs[i].y) &&
                                          StaticSprites(g)[i] == SpriteAt(g, cs[i]) &&
                                          SpriteCell(StaticSprites(g)[i]) == cs[i]
  {
    ScanMembers(g, IsSpriteCode, 0, Height(g), 0, Width(g));
    SpritesAtIndex(g, Scan(g, IsSpriteCode, 0, Height(g), 0, Width(g)));
  }

  /** The static list holds exactly the cells whose code is 2..11, each at
      its centre carrying its code. */
  lemma StaticSpritesSpec(g: Map)
    requires Rectangular(g)
    ensures forall s :: s in StaticSprites(g) <==>
              InBounds(g, SpriteCell(s).x, SpriteCell(s).y) &&
              IsSpriteCode(g[SpriteCell(s).y][SpriteCell(s).x]) &&
              s == SpriteAt(g, SpriteCell(s))
  {
    var cs := Scan(g, IsSpriteCode, 0, Height(g), 0, Width(g));
    ScanMembers(g, IsSpriteCode, 0, Height(g), 0, Width(g));
    StaticSpritesCells(g);
    var ss := StaticSprites(g);
    forall s | s in ss
      ensures InBounds(g, SpriteCell(s).x, SpriteCell(s).y) &&
              IsSpriteCode(g[SpriteCell(s).y][SpriteCell(s).x]) &&
              s == SpriteAt(g, SpriteCell(s))
    {
      var i :| 0 <= i < |ss| && ss[i] == s;
      assert cs[i] in cs;
    }
    forall s | InBounds(g, SpriteCell(s).x, SpriteCell(s).y) &&
               IsSpriteCode(g[SpriteCell(s).y][SpriteCell(s).x]) &&
               s == SpriteAt(g, SpriteCell(s))
      ensures s in ss
    {
      var c := SpriteCell(s);
      assert c in cs;
      var i :| 0 <= i < |cs| && cs[i] == c;
      assert ss[i] == s;
    }
  }

  /** The static list is in row-major order of cells, so no cell appears
      twice. */
  lemma StaticSpritesOrdered(g: Map)
    requires Rectangular(g)
    ensures forall i, j :: 0 <= i < j < |StaticSprites(g)| ==>
              RowMajorBefore(SpriteCell(StaticSprites(g)[i]), SpriteCell(StaticSprites(g)[j]))
  {
    ScanMembers(g, IsSpriteCode, 0, Height(g), 0, Width(g));
    StaticSpritesCells(g);
  }

  /** collectStaticSprites: the nested row/column scan, pushing a sprite
      for every cell with code 2..11. */
  method CollectStaticSprites(g: Map) returns (sprites: seq<Sprite>)
    requires Rectangular(g)
    ensures sprites == StaticSprites(g)
  {
    var cells := ScanCells(g, IsSpriteCode, 0, Height(g), 0, Width(g));
    sprites := SpritesAt(g, cells);
  }

  /** The module-level `cachedSprites`: null until the first frame, then
      the static list of the grid seen on that frame. */
  class SpriteCache {
    var cached: Option<seq<Sprite>>

    constructor ()
      ensures cached.None?
    {
      cached := None;
    }

    /** The first call collects the grid's sprites and keeps them; every
        later call returns the kept list, whatever grid it is given. */
    method Get(g: Map) returns (sprites: seq<Sprite>)
      requires Rectangular(g)
      modifies this
      ensures old(cached).Some? ==> cached == old(cached)
      ensures old(cached).None? ==> cached == Some(StaticSprites(g))
      ensures cached == Some(sprites)
    {
      if cached.None? {
        var s := CollectStaticSprites(g);
        cached := Some(s);
      }
      sprites := cached.value;
    }
  }

  // ---------------------------------------------------------------------
  // The visibility filter of renderSprites
  // ---------------------------------------------------------------------

  /** One object through the distance window and the field-of-view test:
      present iff 0.25 < d² < 15², and the bearing, normalised into
      [-π, π], lies strictly within ±π/3. */
  function CandidateOf(kind: int, x: real, y: real, px: real, py: real, pa: real, trig: Trig): (r: Option<Visible>)
    ensures r.Some? ==> r.value.kind == kind && r.value.x == x && r.value.y == y &&
                        -FOV < r.value.angle < FOV && 0.25 < SumSq(x - px, y - py) < MAX_DISTANCE * MAX_DISTANCE &&
                        r.value.distance == trig.sqrt(SumSq(x - px, y - py))
  {
    var d2 := SumSq(x - px, y - py);
    if d2 < MAX_DISTANCE * MAX_DISTANCE && d2 > 0.25 then
      var ang := Normalized(trig.atan2(y - py, x - px) - pa);
      if ang > -FOV && ang < FOV then Some(Visible(kind, x, y, trig.sqrt(d2), ang)) else None
    else None
  }

  /** An object is a candidate iff it is inside the distance window and
      its normalised bearing is inside the field of view; its bearing is
      then the normalised one, in [-π, π]. */
  lemma CandidateSpec(kind: int, x: real, y: real, px: real, py: real, pa: real, trig: Trig)
    ensures CandidateOf(kind, x, y, px, py, pa, trig).Some? <==>
              0.25 < SumSq(x - px, y - py) < MAX_DISTANCE * MAX_DISTANCE &&
              -FOV < Normalized(trig.atan2(y - py, x - px) - pa) < FOV
    ensures CandidateOf(kind, x, y, px, py, pa, trig).Some? ==>
              CandidateOf(kind, x, y, px, py, pa, trig).value.angle == Normalized(trig.atan2(y - py, x - px) - pa) &&
              -PI <= CandidateOf(kind, x, y, px, py, pa, trig).value.angle <= PI
  {
    NormalizedSpec(trig.atan2(y - py, x - px) - pa);
  }

  /** A candidate's distance is positive when the square root is. */
  lemma CandidateDistance(kind: int, x: real, y: real, px: real, py: real, pa: real, trig: Trig)
    requires SqrtPositive(trig) && CandidateOf(kind, x, y, px, py, pa, trig).Some?
    ensures CandidateOf(kind, x, y, px, py, pa, trig).value.distance > 0.0
  {
    var d2 := SumSq(x - px, y - py);
    assert d2 > 0.0;
  }

  /** The loop body shared by the four passes: squared distance, then the
      two normalisation loops, then the field-of-view test. */
  method Consider(kind: int, x: real, y: real, px: real, py: real, pa: real, trig: Trig)
    returns (r: Option<Visible>)
    ensures r == CandidateOf(kind, x, y, px, py, pa, trig)
    ensures r.Some? ==> InWindow(r.value, px, py, trig)
  {
    var dx := x - px;
    var dy := y - py;
    var distanceSquared := SumSq(dx, dy);
    r := None;
    if distanceSquared < MAX_DISTANCE * MAX_DISTANCE && distanceSquared > 0.25 {
      var angle := trig.atan2(dy, dx) - pa;
      var normalizedAngle := NormalizeAngle(angle);
      if normalizedAngle > -FOV && normalizedAngle < FOV {
        r := Some(Visible(kind, x, y, trig.sqrt(distanceSquared), normalizedAngle));
      }
    }
  }

  function Seen(o: Option<Visible>): seq<Visible>
  {
    match o
    case None => []
    case Some(v) => [v]
  }

  /** Static sprites that renderSprites skips: enemy types 2, 7 and 10
      while live enemies are drawn, collected lanterns and exploded bats
      (by cell key). */
  predicate Skipped(s: Sprite, useStatic: bool, lanterns: set<Cell>, bats: set<Cell>)
  {
    (!useStatic && (s.kind == 2 || s.kind == 7 || s.kind == 10)) ||
    (s.kind == 4 && SpriteCell(s) in lanterns) ||
    (s.kind == 8 && SpriteCell(s) in bats)
  }

  /** The first pass, over the cached static sprites. */
  function StaticPass(ss: seq<Sprite>, useStatic: bool, lanterns: set<Cell>, bats: set<Cell>,
                      px: real, py: real, pa: real, trig: Trig): seq<Visible>
    decreases |ss|
  {
    if |ss| == 0 then []
    else
      var s := ss[|ss| - 1];
      StaticPass(ss[..|ss| - 1], useStatic, lanterns, bats, px, py, pa, trig) +
      (if Skipped(s, useStatic, lanterns, bats) then [] else Seen(CandidateOf(s.kind, s.x, s.y, px, py, pa, trig)))
  }

  /** The second pass, over the placed pumpkins not yet collected; they
      are drawn as type 3. */
  function PumpkinPass(ps: seq<Point>, collected: set<Cell>, px: real, py: real, pa: real, trig: Trig): seq<Visible>
    decreases |ps|
  {
    if |ps| == 0 then []
    else
      var p := ps[|ps| - 1];
      PumpkinPass(ps[..|ps| - 1], collected, px, py, pa, trig) +
      (if CellOf(p) in collected then [] else Seen(CandidateOf(3, p.x, p.y, px, py, pa, trig)))
  }

  /** The last pass, over the live enemies, each with its own type. */
  function EnemyPass(es: seq<Sprite>, px: real, py: real, pa: real, trig: Trig): seq<Visible>
    decreases |es|
  {
    if |es| == 0 then []
    else
      var e := es[|es| - 1];
      EnemyPass(es[..|es| - 1], px, py, pa, trig) + Seen(CandidateOf(e.kind, e.x, e.y, px, py, pa, trig))
  }

  /** The guide, drawn as type 11 when present. */
  function GuidePass(guide: Option<Point>, px: real, py: real, pa: real, trig: Trig): seq<Visible>
  {
    match guide
    case None => []
    case Some(p) => Seen(CandidateOf(11, p.x, p.y, px, py, pa, trig))
  }

  /** The visible list before sorting: the four passes in source order. */
  function Candidates(ss: seq<Sprite>, collected: set<Cell>, pumpkins: seq<Point>, guide: Option<Point>,
                      enemies: Option<seq<Sprite>>, lanterns: set<Cell>, bats: set<Cell>,
                      px: real, py: real, pa: real, trig: Trig): seq<Visible>
  {
    StaticPass(ss, enemies.None?, lanterns, bats, px, py, pa, trig) +
    PumpkinPass(pumpkins, collected, px, py, pa, trig) +
    GuidePass(guide, px, py, pa, trig) +
    (match enemies case None => [] case Some(es) => EnemyPass(es, px, py, pa, trig))
  }

  /** Every object the filter keeps lies in the distance window and the
      field of view. */
  predicate InWindow(v: Visible, px: real, py: real, trig: Trig)
  {
    0.25 < SumSq(v.x - px, v.y - py) < MAX_DISTANCE * MAX_DISTANCE &&
    -FOV < v.angle < FOV && v.distance == trig.sqrt(SumSq(v.x - px, v.y - py))
  }

  /** A static sprite is kept iff it is not skipped and passes the
      window; the kept ones carry their own type and position. */
  lemma {:induction false} StaticPassSpec(ss: seq<Sprite>, useStatic: bool, lanterns: set<Cell>, bats: set<Cell>,
                                          px: real, py: real, pa: real, trig: Trig)
    ensures forall v :: v in StaticPass(ss, useStatic, lanterns, bats, px, py, pa, trig) <==>
              exists i :: 0 <= i < |ss| && !Skipped(ss[i], useStatic, lanterns, bats) &&
                          CandidateOf(ss[i].kind, ss[i].x, ss[i].y, px, py, pa, trig) == Some(v)
    decreases |ss|
  {
    if |ss| > 0 {
      var init := ss[..|ss| - 1];
      StaticPassSpec(init, useStatic, lanterns, bats, px, py, pa, trig);
      assert forall i :: 0 <= i < |init| ==> init[i] == ss[i];
      var s := ss[|ss| - 1];
      var tail := if Skipped(s, useStatic, lanterns, bats) then [] else Seen(CandidateOf(s.kind, s.x, s.y, px, py, pa, trig));
      assert StaticPass(ss, useStatic, lanterns, bats, px, py, pa, trig) ==
             StaticPass(init, useStatic, lanterns, bats, px, py, pa, trig) + tail;
      forall v | v in StaticPass(ss, useStatic, lanterns, bats, px, py, pa, trig)
        ensures exists i :: 0 <= i < |ss| && !Skipped(ss[i], useStatic, lanterns, bats) &&
                            CandidateOf(ss[i].kind, ss[i].x, ss[i].y, px, py, pa, trig) == Some(v)
      {
        if v !in StaticPass(init, useStatic, lanterns, bats, px, py, pa, trig) {
          assert v in tail;
          assert ss[|ss| - 1] == s;
        }
      }
    }
  }

  /** With live enemies drawn, no static enemy (2, 7, 10) is kept;
      collected lanterns and exploded bats are never kept. */
  lemma StaticSkips(ss: seq<Sprite>, useStatic: bool, lanterns: set<Cell>, bats: set<Cell>,
                    px: real, py: real, pa: real, trig: Trig)
    ensures forall v :: v in StaticPass(ss, useStatic, lanterns, bats, px, py, pa, trig) ==>
              (!useStatic ==> v.kind != 2 && v.kind != 7 && v.kind != 10) &&
              (v.kind == 4 ==> CellOf(Point(v.x, v.y)) !in lanterns) &&
              (v.kind == 8 ==> CellOf(Point(v.x, v.y)) !in bats) &&
              InWindow(v, px, py, trig)
  {
    StaticPassSpec(ss, useStatic, lanterns, bats, px, py, pa, trig);
  }

  /** A placed pumpkin is kept iff its cell is not collected and it
      passes the window; it is drawn as type 3. */
  lemma {:induction false} PumpkinPassSpec(ps: seq<Point>, collected: set<Cell>, px: real, py: real, pa: real, trig: Trig)
    ensures forall v :: v in PumpkinPass(ps, collected, px, py, pa, trig) <==>
              exists i :: 0 <= i < |ps| && CellOf(ps[i]) !in collected &&
                          CandidateOf(3, ps[i].x, ps[i].y, px, py, pa, trig) == Some(v)
    decreases |ps|
  {
    if |ps| > 0 {
      var init := ps[..|ps| - 1];
      PumpkinPassSpec(init, collected, px, py, pa, trig);
      assert forall i :: 0 <= i < |init| ==> init[i] == ps[i];
      var p := ps[|ps| - 1];
      var tail := if CellOf(p) in collected then [] else Seen(CandidateOf(3, p.x, p.y, px, py, pa, trig));
      assert PumpkinPass(ps, collected, px, py, pa, trig) == PumpkinPass(init, collected, px, py, pa, trig) + tail;
      forall v | v in PumpkinPass(ps, collected, px, py, pa, trig)
        ensures exists i :: 0 <= i < |ps| && CellOf(ps[i]) !in collected &&
                            CandidateOf(3, ps[i].x, ps[i].y, px, py, pa, trig) == Some(v)
      {
        if v !in PumpkinPass(init, collected, px, py, pa, trig) {
          assert v in tail;
          assert ps[|ps| - 1] == p;
        }
      }
    }
  }

  /** Collected pumpkins are never kept; the kept ones are type 3 and in
      the window. */
  lemma PumpkinSkips(ps: seq<Point>, collected: set<Cell>, px: real, py: real, pa: real, trig: Trig)
    ensures forall v :: v in PumpkinPass(ps, collected, px, py, pa, trig) ==>
              v.kind == 3 && CellOf(Point(v.x, v.y)) !in collected && InWindow(v, px, py, trig)
  {
    PumpkinPassSpec(ps, collected, px, py, pa, trig);
  }

  /** The loop over the cached sprites, with its skip rules. */
  method StaticVisible(ss: seq<Sprite>, useStatic: bool, lanterns: set<Cell>, bats: set<Cell>,
                       px: real, py: real, pa: real, trig: Trig) returns (vs: seq<Visible>)
    ensures vs == StaticPass(ss, useStatic, lanterns, bats, px, py, pa, trig)
    ensures forall v :: v in vs ==> InWindow(v, px, py, trig)
  {
    vs := [];
    var i := 0;
    while i < |ss|
      invariant 0 <= i <= |ss|
      invariant vs == StaticPass(ss[..i], useStatic, lanterns, bats, px, py, pa, trig)
      invariant forall v :: v in vs ==> InWindow(v, px, py, trig)
    {
      var s := ss[i];
      assert ss[..i + 1][..i] == ss[..i];
      if !Skipped(s, useStatic, lanterns, bats) {
        var o := Consider(s.kind, s.x, s.y, px, py, pa, trig);
        vs := vs + Seen(o);
      }
      i := i + 1;
    }
    assert ss[..i] == ss;
  }

  /** The loop over the placed pumpkins. */
  method PumpkinVisible(ps: seq<Point>, collected: set<Cell>, px: real, py: real, pa: real, trig: Trig)
    returns (vs: seq<Visible>)
    ensures vs == PumpkinPass(ps, collected, px, py, pa, trig)
    ensures forall v :: v in vs ==> InWindow(v, px, py, trig)
  {
    vs := [];
    var i := 0;
    while i < |ps|
      invariant 0 <= i <= |ps|
      invariant vs == PumpkinPass(ps[..i], collected, px, py, pa, trig)
      invariant forall v :: v in vs ==> InWindow(v, px, py, trig)
    {
      var p := ps[i];
      assert ps[..i + 1][..i] == ps[..i];
      if CellOf(p) !in collected {
        var o := Consider(3, p.x, p.y, px, py, pa, trig);
        vs := vs + Seen(o);
      }
      i := i + 1;
    }
    assert ps[..i] == ps;
  }

  /** The loop over the live enemies. */
  method EnemyVisible(es: seq<Sprite>, px: real, py: real, pa: real, trig: Trig) returns (vs: seq<Visible>)
    ensures vs == EnemyPass(es, px, py, pa, trig)
    ensures forall v :: v in vs ==> InWindow(v, px, py, trig)
  {
    vs := [];
    var i := 0;
    while i < |es|
      invariant 0 <= i <= |es|
      invariant vs == EnemyPass(es[..i], px, py, pa, trig)
      invariant forall v :: v in vs ==> InWindow(v, px, py, trig)
    {
      var e := es[i];
      assert es[..i + 1][..i] == es[..i];
      var o := Consider(e.kind, e.x, e.y, px, py, pa, trig);
      vs := vs + Seen(o);
      i := i + 1;
    }
    assert es[..i] == es;
  }

  /** The filter: the cached sprites with the skip rules, the placed
      pumpkins, the guide, then the live enemies. */
  method VisibleSprites(ss: seq<Sprite>, collected: set<Cell>, pumpkins: seq<Point>, guide: Option<Point>,
                        enemies: Option<seq<Sprite>>, lanterns: set<Cell>, bats: set<Cell>,
                        px: real, py: real, pa: real, trig: Trig) returns (vs: seq<Visible>)
    ensures vs == Candidates(ss, collected, pumpkins, guide, enemies, lanterns, bats, px, py, pa, trig)
    ensures forall v :: v in vs ==> InWindow(v, px, py, trig)
  {
    vs := StaticVisible(ss, enemies.None?, lanterns, bats, px, py, pa, trig);
    var more := PumpkinVisible(pumpkins, collected, px, py, pa, trig);
    vs := vs + more;
    if guide.Some? {
      var o := Consider(11, guide.value.x, guide.value.y, px, py, pa, trig);
      vs := vs + Seen(o);
    }
    if enemies.Some? {
      more := EnemyVisible(enemies.value, px, py, pa, trig);
      vs := vs + more;
    }
  }

  // ---------------------------------------------------------------------
  // Painter's order
  // ---------------------------------------------------------------------

  /** Non-increasing distance: far sprites first. */
  predicate FarFirst(s: seq<Visible>)
  {
    forall i, j :: 0 <= i < j < |s| ==> s[i].distance >= s[j].distance
  }

  /** `visibleSprites.sort((a, b) => b.distance - a.distance)`: an
      insertion sort in place. */
  method SortByDistance(a: array<Visible>)
    modifies a
    ensures FarFirst(a[..])
    ensures multiset(a[..]) == multiset(old(a[..]))
  {
    var i := 0;
    while i < a.Length
      invariant 0 <= i <= a.Length
      invariant FarFirst(a[..i])
      invariant multiset(a[..]) == multiset(old(a[..]))
    {
      Sink(a, i);
      i := i + 1;
    }
    assert a[..i] == a[..];
  }

  /** During an insertion step: the sprites of s[..i+1] other than the
      one at j are far-first, and the one at j is farther than all after
      it. */
  predicate Sinking(s: seq<Visible>, j: nat, i: nat)
    requires j <= i < |s|
  {
    (forall p, q :: 0 <= p < q <= i && p != j && q != j ==> s[p].distance >= s[q].distance) &&
    (forall q :: j < q <= i ==> s[j].distance > s[q].distance)
  }

  lemma SinkingStarts(s: seq<Visible>, i: nat)
    requires i < |s| && FarFirst(s[..i])
    ensures Sinking(s, i, i)
  {
    assert forall p :: 0 <= p < i ==> s[..i][p] == s[p];
  }

  /** Swapping the sinking sprite with a nearer left neighbour keeps the
      shape, one place further left. */
  lemma SinkingSwap(s: seq<Visible>, j: nat, i: nat)
    requires 0 < j <= i < |s| && Sinking(s, j, i) && s[j - 1].distance < s[j].distance
    ensures Sinking(s[j - 1 := s[j]][j := s[j - 1]], j - 1, i)
    ensures multiset(s[j - 1 := s[j]][j := s[j - 1]]) == multiset(s)
  {
  }

  /** The step ends when the left neighbour is at least as far. */
  lemma SinkingEnds(s: seq<Visible>, j: nat, i: nat)
    requires j <= i < |s| && Sinking(s, j, i) && (j == 0 || s[j - 1].distance >= s[j].distance)
    ensures FarFirst(s[..i + 1])
  {
    assert forall p :: 0 <= p <= i ==> s[..i + 1][p] == s[p];
  }

  /** One insertion step: a[i] moves left by adjacent swaps past every
      nearer sprite, so a[..i+1] is far-first. */
  method Sink(a: array<Visible>, i: nat)
    requires i < a.Length && FarFirst(a[..i])
    modifies a
    ensures FarFirst(a[..i + 1])
    ensures multiset(a[..]) == multiset(old(a[..]))
  {
    SinkingStarts(a[..], i);
    var j := i;
    while j > 0 && a[j - 1].distance < a[j].distance
      invariant 0 <= j <= i
      invariant Sinking(a[..], j, i)
      invariant multiset(a[..]) == multiset(old(a[..]))
    {
      ghost var s := a[..];
      SinkingSwap(s, j, i);
      a[j - 1], a[j] := a[j], a[j - 1];
      assert a[..] == s[j - 1 := s[j]][j := s[j - 1]];
      j := j - 1;
    }
    SinkingEnds(a[..], j, i);
  }

  // ---------------------------------------------------------------------
  // drawSprite: placement and the z-buffer test
  // ---------------------------------------------------------------------

  /** Where and how large a sprite is drawn. */
  datatype Placement = Placement(screenX: real, height: real, width: real)

  function ScreenX(angle: real, w: nat): real
  {
    (angle / FOV + 0.5) * w as real
  }

  function SpriteHeight(h: nat, distance: real): real
    requires distance > 0.0
  {
    (h as real / distance) * 0.8
  }

  function SpriteWidth(height: real): real
  {
    height * 0.8
  }

  /** A sprite straight ahead is centred; it is 0.8·h/d tall and 0.8 of
      that wide. */
  lemma PlacementSpec(angle: real, w: nat, h: nat, distance: real)
    requires distance > 0.0
    ensures angle == 0.0 ==> ScreenX(angle, w) == w as real / 2.0
    ensures SpriteHeight(h, distance) * distance == 0.8 * h as real
    ensures SpriteWidth(SpriteHeight(h, distance)) * distance == 0.64 * h as real
  {
    var sh := SpriteHeight(h, distance);
    calc {
      sh * distance;
      (h as real / distance) * 0.8 * distance;
      (h as real / distance) * distance * 0.8;
      0.8 * h as real;
    }
    calc {
      SpriteWidth(sh) * distance;
      sh * 0.8 * distance;
      sh * distance * 0.8;
      0.8 * h as real * 0.8;
    }
  }

  /** The first column the sprite covers, clamped to 0. */
  function SpanLeft(screenX: real, width: real): int
  {
    Max(0, (screenX - width / 2.0).Floor)
  }

  /** The last column it covers, clamped to w - 1. */
  function SpanRight(w: nat, screenX: real, width: real): int
  {
    var r := (screenX + width / 2.0).Floor;
    if w - 1 < r then w - 1 else r
  }

  /** Sample k of the 5 evenly spread over [left, right]. */
  function CheckX(left: int, right: int, k: nat): int
  {
    (left as real + (right - left) as real * (k as real / 4.0)).Floor
  }

  /** The samples run from `left` to `right` and stay inside the span. */
  lemma CheckXInSpan(left: int, right: int, k: nat)
    requires left <= right && k <= 4
    ensures left <= CheckX(left, right, k) <= right
    ensures k == 0 ==> CheckX(left, right, k) == left
    ensures k == 4 ==> CheckX(left, right, k) == right
  {
    var t := k as real / 4.0;
    var span := (right - left) as real;
    assert 0.0 <= span * t <= span by {
      assert 0.0 <= t <= 1.0;
    }
    var v := left as real + span * t;
    assert left as real <= v <= right as real;
    assert k == 0 ==> v == left as real;
    assert k == 4 ==> v == right as real;
  }

  /** A sample column shows the sprite: it is a buffer index and the
      sprite is nearer than the wall there, with 0.1 slack. */
  predicate SampleShows(z: seq<real>, col: int, distance: real)
  {
    0 <= col < |z| && distance < z[col] + 0.1
  }

  /** How many of the first n samples show the sprite. */
  function ShownCount(z: seq<real>, left: int, right: int, distance: real, n: nat): (c: nat)
    ensures c <= n
  {
    if n == 0 then 0
    else ShownCount(z, left, right, distance, n - 1) + (if SampleShows(z, CheckX(left, right, n - 1), distance) then 1 else 0)
  }

  /** The span test on a depth buffer: left/right from the placement, then
      5 samples. */
  function Shown(z: seq<real>, w: nat, p: Placement, distance: real): nat
  {
    ShownCount(z, SpanLeft(p.screenX, p.width), SpanRight(w, p.screenX, p.width), distance, 5)
  }

  /** A sprite that is drawn at every sample column passes; one behind the
      wall at every sample fails. */
  lemma {:induction false} ShownExtremes(z: seq<real>, left: int, right: int, distance: real, n: nat)
    ensures (forall k :: 0 <= k < n ==> SampleShows(z, CheckX(left, right, k), distance)) ==>
              ShownCount(z, left, right, distance, n) == n
    ensures (forall k :: 0 <= k < n ==> !SampleShows(z, CheckX(left, right, k), distance)) ==>
              ShownCount(z, left, right, distance, n) == 0
  {
    if n > 0 {
      ShownExtremes(z, left, right, distance, n - 1);
    }
  }

  /** The depth buffer drawSprite is given, if any. */
  function Buffer(z: array?<real>): Option<seq<real>>
    reads z
  {
    if z == null then None else Some(z[..])
  }

  /** drawSprite's decision: the placement, drawn iff there is no buffer
      or at least 3 of the 5 samples show the sprite. */
  function DrawOf(v: Visible, w: nat, h: nat, z: Option<seq<real>>): Option<Placement>
    requires v.distance > 0.0
  {
    var p := Placement(ScreenX(v.angle, w), SpriteHeight(h, v.distance), SpriteWidth(SpriteHeight(h, v.distance)));
    if z.None? || Shown(z.value, w, p, v.distance) >= 3 then Some(p) else None
  }

  /** drawSprite up to the creature routine: the placement, and whether
      the sprite is drawn. With a buffer it is drawn iff at least 3 of the
      5 samples show it (fewer than 5/2 returns early); with none it is
      always drawn. */
  method DrawSprite(v: Visible, w: nat, h: nat, zBuffer: array?<real>) returns (draw: Option<Placement>)
    requires v.distance > 0.0
    ensures draw == DrawOf(v, w, h, Buffer(zBuffer))
  {
    var screenX := ScreenX(v.angle, w);
    var spriteHeight := SpriteHeight(h, v.distance);
    var spriteWidth := SpriteWidth(spriteHeight);
    var p := Placement(screenX, spriteHeight, spriteWidth);
    if zBuffer != null {
      var spriteLeft := SpanLeft(screenX, spriteWidth);
      var spriteRight := SpanRight(w, screenX, spriteWidth);
      var visiblePoints := 0;
      var checkPoints := 5;
      var i := 0;
      while i < checkPoints
        invariant 0 <= i <= checkPoints
        invariant visiblePoints == ShownCount(zBuffer[..], spriteLeft, spriteRight, v.distance, i)
      {
        var checkX := CheckX(spriteLeft, spriteRight, i);
        if checkX >= 0 && checkX < zBuffer.Length {
          if v.distance < zBuffer[checkX] + 0.1 {
            visiblePoints := visiblePoints + 1;
          }
        }
        i := i + 1;
      }
      if (visiblePoints as real) < checkPoints as real / 2.0 {
        return None;
      }
    }
    draw := Some(p);
  }

  // ---------------------------------------------------------------------
  // renderSprites
  // ---------------------------------------------------------------------

  /** renderSprites: fill the cache on the first frame, filter, sort far
      to near, then run drawSprite on each sprite in that order. */
  method RenderSprites(cache: SpriteCache, g: Map, w: nat, h: nat, px: real, py: real, pa: real, trig: Trig,
                       collected: set<Cell>, pumpkins: seq<Point>, guide: Option<Point>,
                       zBuffer: array?<real>, enemies: Option<seq<Sprite>>,
                       lanterns: set<Cell>, bats: set<Cell>)
    returns (order: seq<Visible>, draws: seq<Option<Placement>>)
    requires Rectangular(g) && SqrtPositive(trig)
    modifies cache
    ensures old(cache.cached).Some? ==> cache.cached == old(cache.cached)
    ensures old(cache.cached).None? ==> cache.cached == Some(StaticSprites(g))
    ensures cache.cached.Some? &&
            multiset(order) == multiset(Candidates(cache.cached.value, collected, pumpkins, guide, enemies,
                                                   lanterns, bats, px, py, pa, trig))
    ensures FarFirst(order)
    ensures |draws| == |order|
    ensures forall i :: 0 <= i < |order| ==> order[i].distance > 0.0 &&
                                             draws[i] == DrawOf(order[i], w, h, Buffer(zBuffer))
  {
    var ss := cache.Get(g);
    var vs := VisibleSprites(ss, collected, pumpkins, guide, enemies, lanterns, bats, px, py, pa, trig);
    var a := new Visible[|vs|](k requires 0 <= k < |vs| => vs[k]);
    assert a[..] == vs;
    SortByDistance(a);
    order := a[..];
    WindowPositive(vs, px, py, trig);
    SamePositive(order, vs);
    draws := DrawAll(order, w, h, zBuffer);
  }

  /** With a sound square root, everything in the window is at a
      positive distance. */
  lemma WindowPositive(vs: seq<Visible>, px: real, py: real, trig: Trig)
    requires SqrtPositive(trig) && forall v :: v in vs ==> InWindow(v, px, py, trig)
    ensures forall v :: v in vs ==> v.distance > 0.0
  {
    forall v | v in vs
      ensures v.distance > 0.0
    {
      assert SumSq(v.x - px, v.y - py) > 0.0;
    }
  }

  /** Sorting keeps the sprites, so it keeps their distances positive. */
  lemma SamePositive(s: seq<Visible>, t: seq<Visible>)
    requires multiset(s) == multiset(t) && forall v :: v in t ==> v.distance > 0.0
    ensures forall v :: v in s ==> v.distance > 0.0
  {
    forall v | v in s
      ensures v.distance > 0.0
    {
      assert v in multiset(s);
      assert v in multiset(t);
    }
  }

  /** The drawing loop: drawSprite on every sprite, in the given order. */
  method DrawAll(order: seq<Visible>, w: nat, h: nat, zBuffer: array?<real>) returns (draws: seq<Option<Placement>>)
    requires forall v :: v in order ==> v.distance > 0.0
    ensures |draws| == |order|
    ensures forall i :: 0 <= i < |order| ==> draws[i] == DrawOf(order[i], w, h, Buffer(zBuffer))
  {
    draws := [];
    var i := 0;
    while i < |order|
      invariant 0 <= i <= |order| && |draws| == i
      invariant forall k :: 0 <= k < i ==> draws[k] == DrawOf(order[k], w, h, Buffer(zBuffer))
    {
      var d := DrawSprite(order[i], w, h, zBuffer);
      draws := draws + [d];
      i := i + 1;
    }
  }

  /** Every candidate lies in the window and, with a sound square root,
      has a positive distance. */
  lemma CandidatesPositive(ss: seq<Sprite>, collected: set<Cell>, pumpkins: seq<Point>, guide: Option<Point>,
                           enemies: Option<seq<Sprite>>, lanterns: set<Cell>, bats: set<Cell>,
                           px: real, py: real, pa: real, trig: Trig)
    requires SqrtPositive(trig)
    ensures forall v :: v in Candidates(ss, collected, pumpkins, guide, enemies, lanterns, bats, px, py, pa, trig) ==>
              InWindow(v, px, py, trig) && v.distance > 0.0
  {
    StaticSkips(ss, enemies.None?, lanterns, bats, px, py, pa, trig);
    PumpkinSkips(pumpkins, collected, px, py, pa, trig);
    if enemies.Some? {
      EnemyPassWindow(enemies.value, px, py, pa, trig);
    }
    WindowPositive(Candidates(ss, collected, pumpkins, guide, enemies, lanterns, bats, px, py, pa, trig), px, py, trig);
  }

  lemma {:induction false} EnemyPassWindow(es: seq<Sprite>, px: real, py: real, pa: real, trig: Trig)
    ensures forall v :: v in EnemyPass(es, px, py, pa, trig) ==> InWindow(v, px, py, trig)
    decreases |es|
  {
    if |es| > 0 {
      EnemyPassWindow(es[..|es| - 1], px, py, pa, trig);
    }
  }
}
