// The player's movement controller (InputSystem.update) in its two
// variants: the bitECS one, where every cell but a building (code 1) is
// walkable, and the strict one, where only floor (code 0) is. Rotation,
// the forward/backward proposal with its collision test, the clamp to
// the grid boundary and the bounded search for a nearby free spot when
// the player ends up inside a wall.
module Movement {
  import opened Grid

  /** Which cells the variant lets the player stand in. */
  datatype WallRule =
    | NotBuilding  // halloween/systems/input-bitecs.js: `cellValue !== 1`
    | OnlyFloor    // halloween/systems/input.js: `=== 0`

  predicate Walkable(rule: WallRule, code: int)
  {
    match rule
    case NotBuilding => code != 1
    case OnlyFloor => code == 0
  }


  const MOVE_MARGIN: real := 0.2
  const BOUNDS_MARGIN: real := 0.5
  const MAX_RADIUS: int := 3

  // ---------------------------------------------------------------------
  // canMoveTo
  // ---------------------------------------------------------------------

  /** Within 0.2 of the boundary: refused before the grid is read. */
  predicate NearEdge(g: Map, x: real, y: real)
    requires Rectangular(g)
  {
    x < MOVE_MARGIN || x >= Width(g) as real - MOVE_MARGIN ||
    y < MOVE_MARGIN || y >= Height(g) as real - MOVE_MARGIN
  }

  /** canMoveTo: false near the edge, otherwise the wall rule on the cell
      the point lies in (a cell that is then always inside the grid). */
  function CanMoveTo(rule: WallRule, g: Map, x: real, y: real): (ok: bool)
    requires Rectangular(g)
    ensures NearEdge(g, x, y) ==> !ok
    ensures !NearEdge(g, x, y) ==> InBounds(g, x.Floor, y.Floor) && (ok <==> Walkable(rule, g[y.Floor][x.Floor]))
  {
    if NearEdge(g, x, y) then false
    else Walkable(rule, g[y.Floor][x.Floor])
  }

  // ---------------------------------------------------------------------
  // findNearbySafePosition
  // ---------------------------------------------------------------------

  /** The point shifted by a whole-cell offset is at least 0.5 inside the
      boundary and its cell is walkable. */
  predicate Safe(rule: WallRule, g: Map, x: real, y: real, o: Cell)
    requires Rectangular(g)
  {
    var nx, ny := x + o.x as real, y + o.y as real;
    BOUNDS_MARGIN <= nx < Width(g) as real - BOUNDS_MARGIN &&
    BOUNDS_MARGIN <= ny < Height(g) as real - BOUNDS_MARGIN &&
    Walkable(rule, g[ny.Floor][nx.Floor])
  }

  /** The radius pass at which the search first meets an offset: its
      Chebyshev length, but at least 1 (the search starts at radius 1). */
  function Pass(o: Cell): int
  {
    var c := Max(Abs(o.x), Abs(o.y));
    if c < 1 then 1 else c
  }

  predicate InSearch(o: Cell)
  {
    -MAX_RADIUS <= o.x <= MAX_RADIUS && -MAX_RADIUS <= o.y <= MAX_RADIUS
  }

  /** The search's visiting order: by pass, then dx, then dy. */
  predicate SearchBefore(a: Cell, b: Cell)
  {
    Pass(a) < Pass(b) || (Pass(a) == Pass(b) && (a.x < b.x || (a.x == b.x && a.y < b.y)))
  }

  /** The safe offsets within radius 3. */
  function SafeOffsets(rule: WallRule, g: Map, x: real, y: real): set<Cell>
    requires Rectangular(g)
  {
    set dx: int, dy: int | -MAX_RADIUS <= dx <= MAX_RADIUS && -MAX_RADIUS <= dy <= MAX_RADIUS &&
                           Safe(rule, g, x, y, Cell(dx, dy)) :: Cell(dx, dy)
  }

  lemma SafeOffsetsMembers(rule: WallRule, g: Map, x: real, y: real)
    requires Rectangular(g)
    ensures forall o :: o in SafeOffsets(rule, g, x, y) <==> InSearch(o) && Safe(rule, g, x, y, o)
  {
    forall o | InSearch(o) && Safe(rule, g, x, y, o)
      ensures o in SafeOffsets(rule, g, x, y)
    {
      assert o == Cell(o.x, o.y);
    }
  }

  /** The search from pass r at offset (dx, dy) on, over a set of safe
      offsets: the radius loop 1..3, the dx loop and the dy loop,
      stopping at the first safe offset. */
  function SearchIn(safe: set<Cell>, r: int, dx: int, dy: int): Option<Cell>
    requires 1 <= r <= MAX_RADIUS + 1 && -r <= dx <= r + 1 && -r <= dy <= r + 1
    decreases MAX_RADIUS + 1 - r, r + 1 - dx, r + 1 - dy
  {
    if r > MAX_RADIUS then None
    else if dx > r then SearchIn(safe, r + 1, -(r + 1), -(r + 1))
    else if dy > r then SearchIn(safe, r, dx + 1, -r)
    else if Cell(dx, dy) in safe then Some(Cell(dx, dy))
    else SearchIn(safe, r, dx, dy + 1)
  }

  /** Offsets the search has passed at (r, dx, dy). */
  predicate Passed(o: Cell, r: int, dx: int, dy: int)
  {
    Pass(o) < r || (Pass(o) == r && (o.x < dx || (o.x == dx && o.y < dy)))
  }

  lemma PassedAtNextRadius(o: Cell, r: int, dx: int, dy: int)
    requires 1 <= r && dx > r && InSearch(o) && Passed(o, r + 1, -(r + 1), -(r + 1))
    ensures Passed(o, r, dx, dy)
  {
  }

  lemma PassedAtNextColumn(o: Cell, r: int, dx: int, dy: int)
    requires 1 <= r && dy > r && Passed(o, r, dx + 1, -r)
    ensures Passed(o, r, dx, dy)
  {
  }

  lemma PassedAtNextRow(o: Cell, r: int, dx: int, dy: int)
    requires Passed(o, r, dx, dy + 1)
    ensures Passed(o, r, dx, dy) || o == Cell(dx, dy)
  {
  }

  lemma {:induction false} SearchInFinds(safe: set<Cell>, r: int, dx: int, dy: int)
    requires 1 <= r <= MAX_RADIUS + 1 && -r <= dx <= r + 1 && -r <= dy <= r + 1
    requires forall o :: InSearch(o) && Passed(o, r, dx, dy) ==> o !in safe
    ensures SearchIn(safe, r, dx, dy).Some? ==>
              var o := SearchIn(safe, r, dx, dy).value;
              InSearch(o) && o in safe &&
              forall o' :: InSearch(o') && o' in safe ==> !SearchBefore(o', o)
    ensures SearchIn(safe, r, dx, dy).None? ==> forall o :: InSearch(o) ==> o !in safe
    decreases MAX_RADIUS + 1 - r, r + 1 - dx, r + 1 - dy
  {
    if r > MAX_RADIUS {
      assert forall o :: InSearch(o) ==> Passed(o, r, dx, dy);
    } else if dx > r {
      forall o | InSearch(o) && Passed(o, r + 1, -(r + 1), -(r + 1))
        ensures o !in safe
      {
        PassedAtNextRadius(o, r, dx, dy);
      }
      SearchInFinds(safe, r + 1, -(r + 1), -(r + 1));
    } else if dy > r {
      forall o | InSearch(o) && Passed(o, r, dx + 1, -r)
        ensures o !in safe
      {
        PassedAtNextColumn(o, r, dx, dy);
      }
      SearchInFinds(safe, r, dx + 1, -r);
    } else if Cell(dx, dy) in safe {
      assert !Passed(Cell(dx, dy), r, dx, dy);
    } else {
      forall o | InSearch(o) && Passed(o, r, dx, dy + 1)
        ensures o !in safe
      {
        PassedAtNextRow(o, r, dx, dy);
      }
      SearchInFinds(safe, r, dx, dy + 1);
    }
  }

  /** The first safe offset in visiting order, if any within radius 3. */
  function FirstSafe(rule: WallRule, g: Map, x: real, y: real): Option<Cell>
    requires Rectangular(g)
  {
    SearchIn(SafeOffsets(rule, g, x, y), 1, -1, -1)
  }

  /** The search returns a safe offset within radius 3 that no other safe
      offset precedes in visiting order, and nothing only when no offset
      within radius 3 is safe. */
  lemma FirstSafeSpec(rule: WallRule, g: Map, x: real, y: real)
    requires Rectangular(g)
    ensures FirstSafe(rule, g, x, y).Some? ==>
              var o := FirstSafe(rule, g, x, y).value;
              InSearch(o) && Safe(rule, g, x, y, o) &&
              forall o' :: InSearch(o') && Safe(rule, g, x, y, o') ==> !SearchBefore(o', o)
    ensures FirstSafe(rule, g, x, y).None? <==> forall o :: InSearch(o) ==> !Safe(rule, g, x, y, o)
  {
    SafeOffsetsMembers(rule, g, x, y);
    SearchInFinds(SafeOffsets(rule, g, x, y), 1, -1, -1);
  }

  /** Where findNearbySafePosition puts the player. */
  function Nearby(rule: WallRule, g: Map, x: real, y: real): Point
    requires Rectangular(g)
  {
    match FirstSafe(rule, g, x, y)
    case Some(o) => Point(x + o.x as real, y + o.y as real)
    case None => Point(x, y)
  }

  /** findNearbySafePosition either moves to a point at least 0.5 inside
      the boundary whose cell is walkable, or, when no offset within
      radius 3 is safe, stays where it is. */
  lemma NearbySpec(rule: WallRule, g: Map, x: real, y: real)
    requires Rectangular(g)
    ensures var q := Nearby(rule, g, x, y);
            (BOUNDS_MARGIN <= q.x < Width(g) as real - BOUNDS_MARGIN &&
             BOUNDS_MARGIN <= q.y < Height(g) as real - BOUNDS_MARGIN &&
             Walkable(rule, g[q.y.Floor][q.x.Floor])) ||
            (q == Point(x, y) && forall o :: InSearch(o) ==> !Safe(rule, g, x, y, o))
  {
    FirstSafeSpec(rule, g, x, y);
  }

  /** findNearbySafePosition: three nested loops with an early return. */
  method FindNearbySafePosition(rule: WallRule, g: Map, x: real, y: real) returns (p: Point)
    requires Rectangular(g)
    ensures p == Nearby(rule, g, x, y)
  {
    ghost var safe := SafeOffsets(rule, g, x, y);
    var radius := 1;
    while radius <= MAX_RADIUS
      invariant 1 <= radius <= MAX_RADIUS + 1
      invariant SearchIn(safe, radius, -radius, -radius) == FirstSafe(rule, g, x, y)
    {
      var dx := -radius;
      while dx <= radius
        invariant -radius <= dx <= radius + 1
        invariant SearchIn(safe, radius, dx, -radius) == FirstSafe(rule, g, x, y)
      {
        var found := ScanOffsets(rule, g, x, y, radius, dx);
        if found.Some? {
          return found.value;
        }
        dx := dx + 1;
      }
      radius := radius + 1;
    }
    p := Point(x, y);
  }

  /** The innermost loop of findNearbySafePosition: dy from -radius to
      radius at one dx. */
  method ScanOffsets(rule: WallRule, g: Map, x: real, y: real, radius: int, dx: int) returns (found: Option<Point>)
    requires Rectangular(g) && 1 <= radius <= MAX_RADIUS && -radius <= dx <= radius
    ensures found.Some? ==>
              exists dy :: -radius <= dy <= radius &&
                SearchIn(SafeOffsets(rule, g, x, y), radius, dx, -radius) == Some(Cell(dx, dy)) &&
                found.value == Point(x + dx as real, y + dy as real)
    ensures found.None? ==>
              SearchIn(SafeOffsets(rule, g, x, y), radius, dx, -radius) == SearchIn(SafeOffsets(rule, g, x, y), radius, dx + 1, -radius)
  {
    ghost var safe := SafeOffsets(rule, g, x, y);
    SafeOffsetsMembers(rule, g, x, y);
    var dy := -radius;
    while dy <= radius
      invariant -radius <= dy <= radius + 1
      invariant SearchIn(safe, radius, dx, -radius) == SearchIn(safe, radius, dx, dy)
    {
      var newX := x + dx as real;
      var newY := y + dy as real;
      if newX >= 0.5 && newX < Width(g) as real - 0.5 && newY >= 0.5 && newY < Height(g) as real - 0.5 {
        var gridX, gridY := newX.Floor, newY.Floor;
        if Walkable(rule, g[gridY][gridX]) {
          assert Cell(dx, dy) in safe;
          return Some(Point(newX, newY));
        }
      }
      assert Cell(dx, dy) !in safe;
      dy := dy + 1;
    }
    found := None;
  }

  // ---------------------------------------------------------------------
  // checkBounds
  // ---------------------------------------------------------------------

  /** One axis of the clamp: below 0.5 becomes 0.5, at or above n - 0.5
      becomes n - 0.6. */
  function ClampAxis(v: real, n: nat): (r: real)
    ensures n >= 2 ==> BOUNDS_MARGIN <= r < n as real - BOUNDS_MARGIN
    ensures BOUNDS_MARGIN <= v < n as real - BOUNDS_MARGIN ==> r == v
  {
    if v < BOUNDS_MARGIN then BOUNDS_MARGIN
    else if v >= n as real - BOUNDS_MARGIN then n as real - BOUNDS_MARGIN - 0.1
    else v
  }

  function Clamped(g: Map, p: Point): Point
    requires Rectangular(g)
  {
    Point(ClampAxis(p.x, Width(g)), ClampAxis(p.y, Height(g)))
  }

  /** Where checkBounds puts the player: the clamped point, or, when its
      cell is one the rule forbids, the nearby safe spot. */
  function Bounded(rule: WallRule, g: Map, p: Point): Point
    requires Rectangular(g)
  {
    var c := Clamped(g, p);
    var gx, gy := c.x.Floor, c.y.Floor;
    if InBounds(g, gx, gy) && !Walkable(rule, g[gy][gx]) then Nearby(rule, g, c.x, c.y) else c
  }

  /** On a grid of at least 2 x 2 cells, checkBounds leaves the player at
      least 0.5 inside the boundary on both axes; the cell there is
      walkable unless no offset within radius 3 of the clamped point was
      safe. */
  lemma BoundedSpec(rule: WallRule, g: Map, p: Point)
    requires Rectangular(g) && Width(g) >= 2 && Height(g) >= 2
    ensures var q := Bounded(rule, g, p);
            BOUNDS_MARGIN <= q.x < Width(g) as real - BOUNDS_MARGIN &&
            BOUNDS_MARGIN <= q.y < Height(g) as real - BOUNDS_MARGIN
    ensures var q := Bounded(rule, g, p);
            var c := Clamped(g, p);
            Walkable(rule, g[q.y.Floor][q.x.Floor]) || (q == c && forall o :: InSearch(o) ==> !Safe(rule, g, c.x, c.y, o))
  {
    var c := Clamped(g, p);
    NearbySpec(rule, g, c.x, c.y);
  }

  /** checkBounds is idempotent: a second call does not move the player. */
  lemma BoundedIdempotent(rule: WallRule, g: Map, p: Point)
    requires Rectangular(g) && Width(g) >= 2 && Height(g) >= 2
    ensures Bounded(rule, g, Bounded(rule, g, p)) == Bounded(rule, g, p)
  {
    var q := Bounded(rule, g, p);
    BoundedSpec(rule, g, p);
    assert Clamped(g, q) == q;
    if !Walkable(rule, g[q.y.Floor][q.x.Floor]) {
      NearbySpec(rule, g, q.x, q.y);
    }
  }

  /** The position and rotation components of the player, updated in place. */
  class Pose {
    var x: real
    var y: real
    var angle: real

    constructor (x0: real, y0: real, a0: real)
      ensures x == x0 && y == y0 && angle == a0
    {
      x, y, angle := x0, y0, a0;
    }

    function At(): Point
      reads this
    {
      Point(x, y)
    }
  }

  /** checkBounds on the player's components. */
  method CheckBounds(rule: WallRule, g: Map, pose: Pose)
    requires Rectangular(g)
    modifies pose
    ensures pose.At() == Bounded(rule, g, old(pose.At())) && pose.angle == old(pose.angle)
  {
    if pose.x < BOUNDS_MARGIN {
      pose.x := BOUNDS_MARGIN;
    } else if pose.x >= Width(g) as real - BOUNDS_MARGIN {
      pose.x := Width(g) as real - BOUNDS_MARGIN - 0.1;
    }
    if pose.y < BOUNDS_MARGIN {
      pose.y := BOUNDS_MARGIN;
    } else if pose.y >= Height(g) as real - BOUNDS_MARGIN {
      pose.y := Height(g) as real - BOUNDS_MARGIN - 0.1;
    }
    assert pose.At() == Clamped(g, old(pose.At()));
    var gridX, gridY := pose.x.Floor, pose.y.Floor;
    if 0 <= gridX < Width(g) && 0 <= gridY < Height(g) && !Walkable(rule, g[gridY][gridX]) {
      var safePos := FindNearbySafePosition(rule, g, pose.x, pose.y);
      pose.x, pose.y := safePos.x, safePos.y;
    }
  }

  // ---------------------------------------------------------------------
  // update
  // ---------------------------------------------------------------------

  /** The arrow keys held this frame. */
  datatype Keys = Keys(left: bool, right: bool, up: bool, down: bool)

  /** One forward or backward proposal: taken when canMoveTo accepts the
      new point, otherwise checkBounds runs on the current one. */
  function Advance(rule: WallRule, g: Map, p: Point, n: Point): Point
    requires Rectangular(g)
  {
    if CanMoveTo(rule, g, n.x, n.y) then n else Bounded(rule, g, p)
  }

  /** A rejected proposal leaves a player that checkBounds would not move
      where it is: nothing is translated. */
  lemma RejectedMoveStays(rule: WallRule, g: Map, p: Point, nx: real, ny: real)
    requires Rectangular(g) && Width(g) >= 2 && Height(g) >= 2
    requires p == Bounded(rule, g, p) && !CanMoveTo(rule, g, nx, ny)
    ensures Advance(rule, g, p, Point(nx, ny)) == p
  {
  }

  /** An accepted proposal lands on a walkable cell at least 0.2 inside
      the boundary. */
  lemma AcceptedMoveIsClear(rule: WallRule, g: Map, p: Point, nx: real, ny: real)
    requires Rectangular(g) && CanMoveTo(rule, g, nx, ny)
    ensures Advance(rule, g, p, Point(nx, ny)) == Point(nx, ny)
    ensures InBounds(g, nx.Floor, ny.Floor) && Walkable(rule, g[ny.Floor][nx.Floor])
    ensures MOVE_MARGIN <= nx < Width(g) as real - MOVE_MARGIN && MOVE_MARGIN <= ny < Height(g) as real - MOVE_MARGIN
  {
  }

  /** The point one step of `speed` along `a` ahead of (forward) or
      behind p. */
  function Step(p: Point, a: real, forward: bool, speed: real, trig: Trig): Point
  {
    var dx, dy := trig.cos(a) * speed, trig.sin(a) * speed;
    if forward then Point(p.x + dx, p.y + dy) else Point(p.x - dx, p.y - dy)
  }

  /** Where the two proposals of one frame leave the player, before the
      final checkBounds: forward first (ArrowUp), then backward (ArrowDown)
      from wherever the first left it. */
  function Translate(rule: WallRule, g: Map, p: Point, a: real, keys: Keys, speed: real, trig: Trig): Point
    requires Rectangular(g)
  {
    var p1 := if keys.up then Advance(rule, g, p, Step(p, a, true, speed, trig)) else p;
    if keys.down then Advance(rule, g, p1, Step(p1, a, false, speed, trig)) else p1
  }

  /** The rotation of one frame: ArrowLeft subtracts rotSpeed, ArrowRight
      adds it. */
  function Turned(a: real, keys: Keys, rotSpeed: real): real
  {
    a - (if keys.left then rotSpeed else 0.0) + (if keys.right then rotSpeed else 0.0)
  }

  /** Holding both turn keys, or neither, leaves the heading as it was;
      one key turns by exactly rotSpeed. */
  lemma TurnedSpec(a: real, keys: Keys, rotSpeed: real)
    ensures keys.left == keys.right ==> Turned(a, keys, rotSpeed) == a
    ensures keys.left && !keys.right ==> Turned(a, keys, rotSpeed) == a - rotSpeed
    ensures keys.right && !keys.left ==> Turned(a, keys, rotSpeed) == a + rotSpeed
  {
  }

  /** One proposal in place: move when canMoveTo accepts, otherwise
      checkBounds. */
  method Propose(rule: WallRule, g: Map, pose: Pose, forward: bool, speed: real, trig: Trig)
    requires Rectangular(g)
    modifies pose
    ensures pose.angle == old(pose.angle)
    ensures pose.At() == Advance(rule, g, old(pose.At()), Step(old(pose.At()), pose.angle, forward, speed, trig))
  {
    ghost var p := pose.At();
    ghost var n := Step(p, pose.angle, forward, speed, trig);
    var cosA, sinA := trig.cos(pose.angle), trig.sin(pose.angle);
    var newX, newY;
    if forward {
      newX, newY := pose.x + cosA * speed, pose.y + sinA * speed;
    } else {
      newX, newY := pose.x - cosA * speed, pose.y - sinA * speed;
    }
    assert n == Point(newX, newY);
    if CanMoveTo(rule, g, newX, newY) {
      pose.x, pose.y := newX, newY;
      assert Advance(rule, g, p, n) == n;
    } else {
      assert Advance(rule, g, p, n) == Bounded(rule, g, p);
      CheckBounds(rule, g, pose);
    }
  }

  /** update: rotate, propose a step forward then one backward along the
      new heading, request a footstep with `up || down` when a sound
      manager is attached, then run checkBounds. Nothing happens without
      a player. */
  method Update(rule: WallRule, g: Map, pose: Pose?, keys: Keys, speed: real, rotSpeed: real,
                trig: Trig, hasSound: bool) returns (footstep: Option<bool>)
    requires Rectangular(g)
    modifies pose
    ensures pose == null ==> footstep == None
    ensures pose != null ==> footstep == (if hasSound then Some(keys.up || keys.down) else None)
    ensures pose != null ==> pose.angle == Turned(old(pose.angle), keys, rotSpeed)
    ensures pose != null ==>
              pose.At() == Bounded(rule, g, Translate(rule, g, old(pose.At()), pose.angle, keys, speed, trig))
  {
    footstep := None;
    if pose == null {
      return;
    }
    if keys.left {
      pose.angle := pose.angle - rotSpeed;
    }
    if keys.right {
      pose.angle := pose.angle + rotSpeed;
    }
    assert pose.angle == Turned(old(pose.angle), keys, rotSpeed);
    if keys.up {
      Propose(rule, g, pose, true, speed, trig);
    }
    if keys.down {
      Propose(rule, g, pose, false, speed, trig);
    }
    if hasSound {
      footstep := Some(keys.up || keys.down);
    }
    CheckBounds(rule, g, pose);
  }

  /** After every update on a grid of at least 2 x 2 cells the player is
      at least 0.5 inside the boundary and checkBounds would not move it. */
  lemma UpdateKeepsBounds(rule: WallRule, g: Map, p2: Point)
    requires Rectangular(g) && Width(g) >= 2 && Height(g) >= 2
    ensures var q := Bounded(rule, g, p2);
            BOUNDS_MARGIN <= q.x < Width(g) as real - BOUNDS_MARGIN &&
            BOUNDS_MARGIN <= q.y < Height(g) as real - BOUNDS_MARGIN &&
            Bounded(rule, g, q) == q
  {
    BoundedSpec(rule, g, p2);
    BoundedIdempotent(rule, g, p2);
  }
}
