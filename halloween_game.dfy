// The halloween game's tick-based simulation: the phase machine
// INTRO -> COLLECT -> RETURN -> BETRAYAL -> ESCAPE -> VICTORY / GAMEOVER,
// the pickups (pumpkins, lanterns, bats), HP with its invincibility
// window, the escalations of the escape (speed-up, cats turning, the
// guide attacking), enemy steering and the guide's projectiles.
//
// Distances are compared squared where the source only compares them
// (`Math.sqrt(dx*dx+dy*dy) < r` becomes `dx*dx+dy*dy < r*r`); the enemy
// loop, which also divides by the distance, takes Math.sqrt from the
// `Trig` oracle, as it takes the sine of the sidestep and the projectile
// angle.  Sound requests go to an optional port and are recorded in order.
module HalloweenGame {
  import opened Grid
  import Placement

  datatype Phase = Intro | Collect | Return | Betrayal | Escape | GameOver | Victory

  const TOTAL_PUMPKINS: nat := 5
  const MAX_HP: int := 3
  const INVINCIBLE_DURATION: int := 1000
  const ESCAPE_DURATION: int := 60000
  const FRAME_INTERVAL: int := 20          // 1000 / targetFPS (50)
  const TALK_REACH_SQ: real := 2.25        // distance < 1.5
  const PICKUP_REACH_SQ: real := 0.25      // distance < 0.5
  const BAT_REACH_SQ: real := 1.0          // distance < 1.0
  const MAGIC_LIFETIME: int := 5000
  const MAGIC_COOLDOWN: int := 3000
  const MAGIC_SPEED: real := 0.05
  const EXPLOSION_LIFETIME: int := 600

  /** A request to the sound port. */
  datatype SoundCall =
    | Play(name: string)
    | Footstep
    | StopHeartbeat
    | StopWarning
    | EnemyProximity(nearest: Option<real>)   // None: no enemy (Infinity)
    | CatProximity(nearest: Option<real>)

  // ---------------------------------------------------------------------
  // Phases
  // ---------------------------------------------------------------------

  /** How far along the story a phase is; the two endings share the last stage. */
  function Stage(p: Phase): nat
  {
    match p
    case Intro => 0
    case Collect => 1
    case Return => 2
    case Betrayal => 3
    case Escape => 4
    case GameOver => 5
    case Victory => 5
  }

  predicate Terminal(p: Phase)
  {
    p == GameOver || p == Victory
  }

  /** The phase updatePhase leaves, from whether the guide is within reach,
      the clock, the betrayal deadline, the escape start and the HP after
      the enemies have moved. */
  function NextPhase(p: Phase, near: bool, t: int, betrayalUntil: int, escapeStart: int, hp: int): Phase
  {
    match p
    case Intro => if near then Collect else Intro
    case Collect => Collect
    case Return => if near then Betrayal else Return
    case Betrayal => if t >= betrayalUntil then Escape else Betrayal
    case Escape =>
      if hp <= 0 then GameOver
      else if t - escapeStart >= ESCAPE_DURATION then Victory
      else Escape
    case GameOver => GameOver
    case Victory => Victory
  }

  /** The story only moves forward, one stage at a time, and both endings
      are final. */
  lemma PhaseForward(p: Phase, near: bool, t: int, betrayalUntil: int, escapeStart: int, hp: int)
    ensures Stage(NextPhase(p, near, t, betrayalUntil, escapeStart, hp)) >= Stage(p)
    ensures NextPhase(p, near, t, betrayalUntil, escapeStart, hp) != p ==>
              Stage(NextPhase(p, near, t, betrayalUntil, escapeStart, hp)) == Stage(p) + 1
    ensures Terminal(p) ==> NextPhase(p, near, t, betrayalUntil, escapeStart, hp) == p
  {
  }

  /** What each phase waits for: reaching the guide (INTRO, RETURN), the
      betrayal deadline (BETRAYAL), the escape duration (ESCAPE), COLLECT
      being left by the pickups only; a same-tick HP loss beats VICTORY. */
  lemma PhaseTriggers(p: Phase, near: bool, t: int, betrayalUntil: int, escapeStart: int, hp: int)
    ensures p == Intro ==> (NextPhase(p, near, t, betrayalUntil, escapeStart, hp) == Collect <==> near)
    ensures p == Collect ==> NextPhase(p, near, t, betrayalUntil, escapeStart, hp) == Collect
    ensures p == Return ==> (NextPhase(p, near, t, betrayalUntil, escapeStart, hp) == Betrayal <==> near)
    ensures p == Betrayal ==>
              (NextPhase(p, near, t, betrayalUntil, escapeStart, hp) == Escape <==> t >= betrayalUntil)
    ensures p == Escape ==> (NextPhase(p, near, t, betrayalUntil, escapeStart, hp) == GameOver <==> hp <= 0)
    ensures p == Escape ==>
              (NextPhase(p, near, t, betrayalUntil, escapeStart, hp) == Victory <==>
                 hp > 0 && t - escapeStart >= ESCAPE_DURATION)
  {
  }

  // ---------------------------------------------------------------------
  // HP and the invincibility window
  // ---------------------------------------------------------------------

  datatype Vitals = Vitals(hp: int, lastDamage: int)

  /** One damage source reaching the player at time t: one HP, and only
      when the last damage is more than INVINCIBLE_DURATION ago. */
  function Damaged(v: Vitals, t: int): Vitals
  {
    if t - v.lastDamage > INVINCIBLE_DURATION then Vitals(v.hp - 1, t) else v
  }

  /** Damage costs exactly one HP and restarts the window; a second source
      in the same tick, or any source within INVINCIBLE_DURATION after it,
      changes nothing. */
  lemma DamageWindow(v: Vitals, t: int, t': int)
    ensures Damaged(v, t) != v <==> t - v.lastDamage > INVINCIBLE_DURATION
    ensures Damaged(v, t) != v ==> Damaged(v, t) == Vitals(v.hp - 1, t)
    ensures Damaged(Damaged(v, t), t) == Damaged(v, t)
    ensures Damaged(v, t) != v && t' - t <= INVINCIBLE_DURATION ==>
              Damaged(Damaged(v, t), t') == Damaged(v, t)
  {
  }

  /** From v0 to v1 within one tick at time t the player took at most one
      hit, and only one the window allowed; healing may come on top. */
  predicate OneHitAtMost(v0: Vitals, v1: Vitals, t: int)
  {
    (v1.lastDamage == v0.lastDamage && v1.hp >= v0.hp) ||
    (v1.lastDamage == t && t - v0.lastDamage > INVINCIBLE_DURATION && v1.hp >= v0.hp - 1)
  }

  /** Any number of damage sources and lanterns in one tick still cost at
      most one HP: the steps compose. */
  lemma OneHitCompose(a: Vitals, b: Vitals, c: Vitals, t: int)
    requires OneHitAtMost(a, b, t) && OneHitAtMost(b, c, t)
    ensures OneHitAtMost(a, c, t)
  {
    if b.lastDamage == t && b.lastDamage != a.lastDamage {
      assert c.lastDamage == t && c.hp >= b.hp;
    }
  }

  /** A damage source is one such step, and so is a heal below the
      maximum. */
  lemma DamagedOneHit(v: Vitals, t: int)
    requires v.hp <= MAX_HP
    ensures OneHitAtMost(v, Damaged(v, t), t)
    ensures OneHitAtMost(v, v.(hp := Healed(v.hp)), t)
  {
  }

  /** `Math.min(maxHP, playerHP + 1)`. */
  function Healed(hp: int): int
  {
    if MAX_HP < hp + 1 then MAX_HP else hp + 1
  }

  /** k lanterns in a row. */
  function HealedBy(hp: int, k: nat): int
  {
    if k == 0 then hp else Healed(HealedBy(hp, k - 1))
  }

  /** Healing never exceeds the maximum: k lanterns bring hp to
      min(MAX_HP, hp + k). */
  lemma {:induction false} HealedBySpec(hp: int, k: nat)
    requires hp <= MAX_HP
    ensures HealedBy(hp, k) == if hp + k <= MAX_HP then hp + k else MAX_HP
  {
    if k > 0 {
      HealedBySpec(hp, k - 1);
    }
  }

  // ---------------------------------------------------------------------
  // Pickups: pumpkins, lanterns and bats
  // ---------------------------------------------------------------------

  /** The keys of some items.  Every item of the maze stands at the centre
      of its cell, so the key `floor(x),floor(y)` of its position is the
      cell itself (`Center` ensures as much); items are kept as cells. */
  function KeysOf(cs: seq<Cell>): set<Cell>
  {
    if |cs| == 0 then {} else KeysOf(cs[..|cs| - 1]) + {cs[|cs| - 1]}
  }

  predicate Within(q: Point, p: Point, reachSq: real)
  {
    DistSq(q.x, q.y, p.x, p.y) < reachSq
  }

  /** The items among cs[..n] a pickup loop takes, in order: those within
      reach whose key is neither in `keys` nor taken earlier in the same
      loop. */
  function Taken(keys: set<Cell>, cs: seq<Cell>, n: nat, p: Point, reachSq: real): seq<Cell>
    requires n <= |cs|
  {
    if n == 0 then []
    else
      var prev := Taken(keys, cs, n - 1, p, reachSq);
      var c := cs[n - 1];
      if c !in keys + KeysOf(prev) && Within(Center(c), p, reachSq) then prev + [c] else prev
  }

  lemma KeysOfSnoc(cs: seq<Cell>, c: Cell)
    ensures KeysOf(cs + [c]) == KeysOf(cs) + {c}
  {
    assert (cs + [c])[..|cs|] == cs;
  }

  lemma TakenStep(keys: set<Cell>, cs: seq<Cell>, n: nat, p: Point, reachSq: real)
    requires 0 < n <= |cs|
    ensures var k := Taken(keys, cs, n - 1, p, reachSq);
            Taken(keys, cs, n, p, reachSq) ==
              if cs[n - 1] !in keys + KeysOf(k) && Within(Center(cs[n - 1]), p, reachSq) then k + [cs[n - 1]] else k
  {
  }

  /** Every taken item was in reach and its key new. */
  lemma {:induction false} TakenFresh(keys: set<Cell>, cs: seq<Cell>, n: nat, p: Point, reachSq: real)
    requires n <= |cs|
    ensures forall c :: c in Taken(keys, cs, n, p, reachSq) ==>
              c in cs[..n] && Within(Center(c), p, reachSq) && c !in keys
    decreases n
  {
    if n > 0 {
      TakenFresh(keys, cs, n - 1, p, reachSq);
      assert cs[..n] == cs[..n - 1] + [cs[n - 1]];
    }
  }

  /** Every item in reach ends up with its key taken. */
  lemma {:induction false} TakenComplete(keys: set<Cell>, cs: seq<Cell>, n: nat, p: Point, reachSq: real)
    requires n <= |cs|
    ensures forall j :: 0 <= j < n && Within(Center(cs[j]), p, reachSq) ==>
              cs[j] in keys + KeysOf(Taken(keys, cs, n, p, reachSq))
    decreases n
  {
    if n > 0 {
      TakenComplete(keys, cs, n - 1, p, reachSq);
      KeysOfSnoc(Taken(keys, cs, n - 1, p, reachSq), cs[n - 1]);
    }
  }

  /** The taken keys are fresh and pairwise different, so the key set
      grows by exactly the number of items taken. */
  lemma {:induction false} TakenCount(keys: set<Cell>, cs: seq<Cell>, n: nat, p: Point, reachSq: real)
    requires n <= |cs|
    ensures |keys + KeysOf(Taken(keys, cs, n, p, reachSq))| == |keys| + |Taken(keys, cs, n, p, reachSq)|
    decreases n
  {
    if n > 0 {
      TakenCount(keys, cs, n - 1, p, reachSq);
      var prev := Taken(keys, cs, n - 1, p, reachSq);
      var c := cs[n - 1];
      KeysOfSnoc(prev, c);
      if c !in keys + KeysOf(prev) && Within(Center(c), p, reachSq) {
        assert keys + KeysOf(prev + [c]) == (keys + KeysOf(prev)) + {c};
      }
    }
  }

  /** Sweeping again from the keys a sweep left takes nothing, so going
      back over a taken item changes nothing and plays nothing. */
  lemma {:induction false} TakenAgain(keys: set<Cell>, cs: seq<Cell>, n: nat, p: Point, reachSq: real)
    requires n <= |cs|
    ensures Taken(keys + KeysOf(Taken(keys, cs, n, p, reachSq)), cs, n, p, reachSq) == []
  {
    TakenComplete(keys, cs, n, p, reachSq);
    TakenNone(keys + KeysOf(Taken(keys, cs, n, p, reachSq)), cs, n, p, reachSq);
  }

  lemma {:induction false} TakenNone(keys: set<Cell>, cs: seq<Cell>, n: nat, p: Point, reachSq: real)
    requires n <= |cs|
    requires forall j :: 0 <= j < n && Within(Center(cs[j]), p, reachSq) ==> cs[j] in keys
    ensures Taken(keys, cs, n, p, reachSq) == []
    decreases n
  {
    if n > 0 {
      TakenNone(keys, cs, n - 1, p, reachSq);
    }
  }

  /** The sounds of the pumpkin loop: "pumpkin" for each of the m pumpkins
      taken, each followed by "jump" once the set has reached the total. */
  function PumpkinCalls(before: nat, m: nat): seq<SoundCall>
  {
    if m == 0 then []
    else
      PumpkinCalls(before, m - 1) + PumpkinNote(before + m >= TOTAL_PUMPKINS)
  }

  function Repeat(c: SoundCall, m: nat): (r: seq<SoundCall>)
    ensures |r| == m
  {
    if m == 0 then [] else Repeat(c, m - 1) + [c]
  }

  /** An explosion effect (its random particles are not modelled). */
  datatype Explosion = Explosion(x: real, y: real, createdAt: int)

  /** The explosions at the centres of some bats' cells. */
  function Explosions(cs: seq<Cell>, t: int): (r: seq<Explosion>)
    ensures |r| == |cs|
  {
    if |cs| == 0 then [] else Explosions(cs[..|cs| - 1], t) + [Explosion(Center(cs[|cs| - 1]).x, Center(cs[|cs| - 1]).y, t)]
  }

  /** The filter of updateAndRenderExplosions at render time `now`: it
      keeps exactly the explosions created less than 600 ms before. */
  function Recent(es: seq<Explosion>, now: int): (r: seq<Explosion>)
    ensures |r| <= |es|
    ensures forall e :: e in r <==> e in es && now - e.createdAt < EXPLOSION_LIFETIME
  {
    if |es| == 0 then []
    else (if now - es[0].createdAt < EXPLOSION_LIFETIME then [es[0]] else []) + Recent(es[1..], now)
  }

  /** The filter keeps the order: filtering a joined list is joining the
      filtered parts. */
  lemma {:induction false} RecentAppend(a: seq<Explosion>, b: seq<Explosion>, now: int)
    ensures Recent(a + b, now) == Recent(a, now) + Recent(b, now)
  {
    if |a| == 0 {
      assert a + b == b;
    } else {
      assert (a + b)[0] == a[0];
      assert (a + b)[1..] == a[1..] + b;
      RecentAppend(a[1..], b, now);
    }
  }

  /** A list of explosions all younger than 600 ms is left as it is. */
  lemma {:induction false} RecentKeepsYoung(es: seq<Explosion>, now: int)
    requires forall k :: 0 <= k < |es| ==> now - es[k].createdAt < EXPLOSION_LIFETIME
    ensures Recent(es, now) == es
  {
    if |es| > 0 {
      RecentKeepsYoung(es[1..], now);
      assert [es[0]] + es[1..] == es;
    }
  }

  /** Filtering twice at the same time is filtering once. */
  lemma RecentIdempotent(es: seq<Explosion>, now: int)
    ensures Recent(Recent(es, now), now) == Recent(es, now)
  {
    var r := Recent(es, now);
    forall k | 0 <= k < |r|
      ensures now - r[k].createdAt < EXPLOSION_LIFETIME
    {
      assert r[k] in r;
    }
    RecentKeepsYoung(r, now);
  }

  // ---------------------------------------------------------------------
  // Escalation of the escape
  // ---------------------------------------------------------------------

  /** 1.0, then 1.5 from 30 s into the escape, then 2.0 from 45 s. */
  function SpeedMultiplier(elapsed: int): real
  {
    if elapsed >= 45000 then 2.0 else if elapsed >= 30000 then 1.5 else 1.0
  }

  /** The multiplier only grows, from 1.0 to 2.0. */
  lemma SpeedMultiplierMonotone(e1: int, e2: int)
    requires e1 <= e2
    ensures 1.0 <= SpeedMultiplier(e1) <= SpeedMultiplier(e2) <= 2.0
  {
  }

  // ---------------------------------------------------------------------
  // Enemies
  // ---------------------------------------------------------------------

  /** An enemy: a map creature (2 ghost, 7 witch, 10 skeleton), a cat (9)
      once it has turned, or the guide (11). */
  datatype Enemy = Enemy(kind: int, x: real, y: real, baseSpeed: real, speed: real,
                         isCat: bool, isWitchGirl: bool, lastMagicTime: int)

  function Pos(e: Enemy): Point
  {
    Point(e.x, e.y)
  }

  predicate IsHostile(code: int)
  {
    code == 2 || code == 7 || code == 10
  }

  predicate IsCat(code: int)
  {
    code == 9
  }

  /** The enemy placed on a map cell of a hostile code. */
  function Recruit(c: Cell, code: int): Enemy
  {
    var speed := if code == 2 then 0.015 else if code == 7 then 0.015 else 0.012;
    Enemy(code, c.x as real + 0.5, c.y as real + 0.5, speed, speed, false, false, 0)
  }

  /** A cat, which joins the enemies later. */
  function Kitten(c: Cell): Enemy
  {
    Enemy(9, c.x as real + 0.5, c.y as real + 0.5, 0.018, 0.018, true, false, 0)
  }

  /** The guide turned enemy. */
  function Assailant(q: Point): Enemy
  {
    Enemy(11, q.x, q.y, 0.025, 0.025, false, true, 0)
  }

  /** The code of a cell of the map. */
  function Code(g: Map, c: Cell): int
    requires Rectangular(g) && InBounds(g, c.x, c.y)
  {
    assert |g[c.y]| == Width(g);
    g[c.y][c.x]
  }

  function Recruits(g: Map, cs: seq<Cell>): (es: seq<Enemy>)
    requires Rectangular(g) && forall c :: c in cs ==> InBounds(g, c.x, c.y)
    ensures |es| == |cs|
    ensures forall k :: 0 <= k < |cs| ==> es[k] == Recruit(cs[k], Code(g, cs[k]))
  {
    if |cs| == 0 then []
    else
      var c := cs[|cs| - 1];
      assert c in cs;
      Recruits(g, cs[..|cs| - 1]) + [Recruit(c, Code(g, c))]
  }

  function Kittens(cs: seq<Cell>): (es: seq<Enemy>)
    ensures |es| == |cs|
    ensures forall k :: 0 <= k < |cs| ==> es[k] == Kitten(cs[k])
  {
    if |cs| == 0 then [] else Kittens(cs[..|cs| - 1]) + [Kitten(cs[|cs| - 1])]
  }

  /** isWalkable: inside the map and not a building. */
  predicate Walkable(g: Map, x: real, y: real)
    requires Rectangular(g)
  {
    var c := CellOf(Point(x, y));
    InBounds(g, c.x, c.y) && g[c.y][c.x] != 1
  }

  /** Where an enemy heading by (mx, my) ends up.  A ghost (2) passes
      through walls; the others try the whole step, then the x part, then
      the y part, then the sidestep (sx, sy), and otherwise stay. */
  function Steer(g: Map, e: Enemy, mx: real, my: real, sx: real, sy: real): (q: Point)
    requires Rectangular(g)
    ensures e.kind != 2 ==> q == Pos(e) || Walkable(g, q.x, q.y)
    ensures e.kind == 2 ==> q == Point(e.x + mx, e.y + my)
  {
    if e.kind == 2 then Point(e.x + mx, e.y + my)
    else if Walkable(g, e.x + mx, e.y + my) then Point(e.x + mx, e.y + my)
    else if Walkable(g, e.x + mx, e.y) then Point(e.x + mx, e.y)
    else if Walkable(g, e.x, e.y + my) then Point(e.x, e.y + my)
    else if Walkable(g, sx, sy) then Point(sx, sy)
    else Pos(e)
  }

  function DistTo(e: Enemy, p: Point, trig: Trig): real
  {
    trig.sqrt(SumSq(p.x - e.x, p.y - e.y))
  }

  /** `Math.sin(currentTime * 0.005 + i) > 0`: the sidestep sign is +1. */
  predicate SidestepLeft(k: nat, t: int, trig: Trig)
  {
    trig.sin(t as real * 0.005 + k as real) > 0.0
  }

  /** The step of enemy number k towards the player at distance d > 0.1:
      speed along the unit direction, and for the sidestep 0.8 of it along
      the tangent, signed by sin(t * 0.005 + k). */
  function Stepped(g: Map, e: Enemy, k: nat, p: Point, t: int, d: real, trig: Trig): (q: Point)
    requires Rectangular(g) && d > 0.1
    ensures e.kind != 2 ==> q == Pos(e) || Walkable(g, q.x, q.y)
  {
    var dx, dy := p.x - e.x, p.y - e.y;
    var mx, my := dx / d * e.speed, dy / d * e.speed;
    var side := if SidestepLeft(k, t, trig) then e.speed * 0.8 else -(e.speed * 0.8);
    Steer(g, e, mx, my, e.x + (-dy / d) * side, e.y + (dx / d) * side)
  }

  /** The guide casts when the player is within 3.0 and its last cast is
      more than MAGIC_COOLDOWN ago. */
  predicate Fires(e: Enemy, d: real, t: int)
  {
    e.isWitchGirl && d < 3.0 && t - e.lastMagicTime > MAGIC_COOLDOWN
  }

  /** Enemy number k after its turn: speed rescaled, moved when farther
      than 0.1, and its cast time renewed when it casts.  Non-ghost
      enemies only ever stand still or step onto walkable ground, and
      nobody moves within 0.1 of the player. */
  function Chased(g: Map, e: Enemy, k: nat, p: Point, t: int, mult: real, trig: Trig): (r: Enemy)
    requires Rectangular(g)
    ensures e.kind != 2 ==> Pos(r) == Pos(e) || Walkable(g, r.x, r.y)
    ensures DistTo(e, p, trig) <= 0.1 ==> Pos(r) == Pos(e)
    ensures r.kind == e.kind && r.isCat == e.isCat && r.isWitchGirl == e.isWitchGirl
  {
    var e1 := e.(speed := e.baseSpeed * mult);
    var d := DistTo(e, p, trig);
    var q := if d > 0.1 then Stepped(g, e1, k, p, t, d, trig) else Pos(e);
    var e2 := e1.(x := q.x, y := q.y);
    if Fires(e, d, t) then e2.(lastMagicTime := t) else e2
  }

  /** A projectile. */
  datatype Magic = Magic(x: real, y: real, vx: real, vy: real, createdAt: int)

  /** The projectile the guide casts from where it now stands, aimed along
      the offset (dx, dy) it saw before moving. */
  function Shot(e: Enemy, dx: real, dy: real, t: int, trig: Trig): Magic
  {
    var a := trig.atan2(dy, dx);
    Magic(e.x, e.y, trig.cos(a) * MAGIC_SPEED, trig.sin(a) * MAGIC_SPEED, t)
  }

  /** What the enemy loop accumulates. */
  datatype Sweep = Sweep(moved: seq<Enemy>, shots: seq<Magic>, vitals: Vitals, calls: seq<SoundCall>,
                         closest: Option<real>, closestCat: Option<real>)

  /** `if (d < best) best = d`, with None for Infinity. */
  function Nearer(best: Option<real>, d: real): Option<real>
  {
    if best.None? || d < best.value then Some(d) else best
  }

  /** One turn of the enemy loop for enemy number k. */
  function ChaseOne(g: Map, e: Enemy, k: nat, p: Point, t: int, mult: real, trig: Trig, a: Sweep): Sweep
    requires Rectangular(g)
  {
    var d := DistTo(e, p, trig);
    var e' := Chased(g, e, k, p, t, mult, trig);
    var fire := Fires(e, d, t);
    var v := if d < 0.5 then Damaged(a.vitals, t) else a.vitals;
    Sweep(a.moved + [e'],
          a.shots + (if fire then [Shot(e', p.x - e.x, p.y - e.y, t, trig)] else []),
          v,
          a.calls + (if fire then [Play("magic")] else []) + (if v != a.vitals then [Play("ghost")] else []),
          Nearer(a.closest, d),
          if e.isCat then Nearer(a.closestCat, d) else a.closestCat)
  }

  /** The enemy loop over es[..n]. */
  function Chase(g: Map, es: seq<Enemy>, n: nat, p: Point, t: int, mult: real, trig: Trig, a: Sweep): Sweep
    requires Rectangular(g) && n <= |es|
    decreases n, 1
  {
    if n == 0 then a else ChaseLast(g, es, n, p, t, mult, trig, a)
  }

  /** The last turn of the loop over es[..n], after those before it. */
  function ChaseLast(g: Map, es: seq<Enemy>, n: nat, p: Point, t: int, mult: real, trig: Trig, a: Sweep): Sweep
    requires Rectangular(g) && 0 < n <= |es|
    decreases n, 0
  {
    ChaseOne(g, es[n - 1], n - 1, p, t, mult, trig, Chase(g, es, n - 1, p, t, mult, trig, a))
  }

  /** Some of es[..n] touches the player (distance < 0.5). */
  predicate Touches(es: seq<Enemy>, n: nat, p: Point, trig: Trig)
    requires n <= |es|
  {
    n > 0 && (DistTo(es[n - 1], p, trig) < 0.5 || Touches(es, n - 1, p, trig))
  }

  /** Enemy k of the loop's result is enemy k after its own turn. */
  lemma {:induction false} ChaseMoved(g: Map, es: seq<Enemy>, n: nat, p: Point, t: int, mult: real, trig: Trig, a: Sweep)
    requires Rectangular(g) && n <= |es|
    ensures |Chase(g, es, n, p, t, mult, trig, a).moved| == |a.moved| + n
    ensures forall k :: 0 <= k < n ==>
              Chase(g, es, n, p, t, mult, trig, a).moved[|a.moved| + k] == Chased(g, es[k], k, p, t, mult, trig)
    decreases n
  {
    if n > 0 {
      ChaseMoved(g, es, n - 1, p, t, mult, trig, a);
    }
  }

  /** However many enemies touch the player in one pass, HP falls at most
      once: by the window rule if any touch, not at all otherwise. */
  lemma {:induction false} ChaseVitals(g: Map, es: seq<Enemy>, n: nat, p: Point, t: int, mult: real, trig: Trig, a: Sweep)
    requires Rectangular(g) && n <= |es|
    ensures Chase(g, es, n, p, t, mult, trig, a).vitals ==
              if Touches(es, n, p, trig) then Damaged(a.vitals, t) else a.vitals
    decreases n
  {
    if n > 0 {
      ChaseVitals(g, es, n - 1, p, t, mult, trig, a);
      DamageWindow(a.vitals, t, t);
    }
  }

  /** The distance reported to the proximity sound is the least distance
      of any enemy (None when there is none), and the cat distance the
      least of the cats. */
  lemma {:induction false} ChaseClosest(g: Map, es: seq<Enemy>, n: nat, p: Point, t: int, mult: real, trig: Trig, a: Sweep)
    requires Rectangular(g) && n <= |es| && a.closest.None?
    ensures Chase(g, es, n, p, t, mult, trig, a).closest.None? <==> n == 0
    ensures forall k :: 0 <= k < n ==> Chase(g, es, n, p, t, mult, trig, a).closest.value <= DistTo(es[k], p, trig)
    ensures n > 0 ==> exists k :: 0 <= k < n && Chase(g, es, n, p, t, mult, trig, a).closest.value == DistTo(es[k], p, trig)
    decreases n
  {
    if n > 0 {
      ChaseClosest(g, es, n - 1, p, t, mult, trig, a);
      assert Chase(g, es, n, p, t, mult, trig, a) == ChaseLast(g, es, n, p, t, mult, trig, a);
      var d := DistTo(es[n - 1], p, trig);
      var prev := Chase(g, es, n - 1, p, t, mult, trig, a).closest;
      if prev.Some? && prev.value <= d {
        var k :| 0 <= k < n - 1 && prev.value == DistTo(es[k], p, trig);
        assert Chase(g, es, n, p, t, mult, trig, a).closest.value == DistTo(es[k], p, trig);
      } else {
        assert Chase(g, es, n, p, t, mult, trig, a).closest.value == DistTo(es[n - 1], p, trig);
      }
    }
  }

  // ---------------------------------------------------------------------
  // Projectiles
  // ---------------------------------------------------------------------

  /** The filter dropping projectiles aged MAGIC_LIFETIME or more. */
  function Live(ms: seq<Magic>, t: int): (r: seq<Magic>)
    ensures |r| <= |ms|
    ensures forall m :: m in r ==> m in ms && t - m.createdAt < MAGIC_LIFETIME
  {
    if |ms| == 0 then []
    else (if t - ms[0].createdAt < MAGIC_LIFETIME then [ms[0]] else []) + Live(ms[1..], t)
  }

  function Fly(m: Magic): Magic
  {
    m.(x := m.x + m.vx, y := m.y + m.vy)
  }

  predicate Strikes(m: Magic, p: Point)
  {
    DistSq(m.x, m.y, p.x, p.y) < PICKUP_REACH_SQ
  }

  /** The projectiles left after each has moved once, those that hit the
      player removed. */
  function Flown(ms: seq<Magic>, p: Point): (r: seq<Magic>)
    ensures |r| <= |ms|
    ensures forall m :: m in r ==> !Strikes(m, p)
  {
    if |ms| == 0 then []
    else (if Strikes(Fly(ms[0]), p) then [] else [Fly(ms[0])]) + Flown(ms[1..], p)
  }

  predicate AnyStrike(ms: seq<Magic>, p: Point)
  {
    |ms| > 0 && (Strikes(Fly(ms[0]), p) || AnyStrike(ms[1..], p))
  }

  /** A projectile survives the update iff it is younger than its lifetime
      and, moved once, misses the player; the survivors keep their order. */
  lemma {:induction false} FlownSpec(ms: seq<Magic>, p: Point, t: int)
    ensures forall m :: m in Flown(Live(ms, t), p) ==>
              t - m.createdAt < MAGIC_LIFETIME && !Strikes(m, p)
    ensures forall k :: 0 <= k < |ms| && t - ms[k].createdAt < MAGIC_LIFETIME && !Strikes(Fly(ms[k]), p) ==>
              Fly(ms[k]) in Flown(Live(ms, t), p)
    decreases |ms|
  {
    if |ms| > 0 {
      FlownSpec(ms[1..], p, t);
      FlownLive(ms, p, t);
      var live := Live(ms, t);
      forall m | m in Flown(live, p)
        ensures t - m.createdAt < MAGIC_LIFETIME
      {
        FlownFrom(live, p, m);
      }
      forall k | 0 <= k < |ms| && t - ms[k].createdAt < MAGIC_LIFETIME && !Strikes(Fly(ms[k]), p)
        ensures Fly(ms[k]) in Flown(live, p)
      {
        if k > 0 {
          assert ms[k] == ms[1..][k - 1];
        }
      }
    }
  }

  /** Flowing the live list is flowing the head (if live) then the rest. */
  lemma FlownLive(ms: seq<Magic>, p: Point, t: int)
    requires |ms| > 0
    ensures Flown(Live(ms, t), p) ==
              (if t - ms[0].createdAt < MAGIC_LIFETIME && !Strikes(Fly(ms[0]), p) then [Fly(ms[0])] else []) +
              Flown(Live(ms[1..], t), p)
  {
    if t - ms[0].createdAt < MAGIC_LIFETIME {
      var l := [ms[0]] + Live(ms[1..], t);
      assert Live(ms, t) == l;
      assert l[1..] == Live(ms[1..], t);
    } else {
      assert Live(ms, t) == Live(ms[1..], t);
    }
  }

  /** A surviving projectile is one of the inputs, moved once. */
  lemma {:induction false} FlownFrom(ms: seq<Magic>, p: Point, m: Magic)
    requires m in Flown(ms, p)
    ensures exists k :: 0 <= k < |ms| && m == Fly(ms[k])
    decreases |ms|
  {
    if m != Fly(ms[0]) || Strikes(Fly(ms[0]), p) {
      FlownFrom(ms[1..], p, m);
      var k :| 0 <= k < |ms[1..]| && m == Fly(ms[1..][k]);
      assert m == Fly(ms[k + 1]);
    }
  }

  // ---------------------------------------------------------------------
  // The enemy turn of updateEnemies
  // ---------------------------------------------------------------------

  /** The enemies the escalations of updateEnemies add: the cats when they
      betray, then the guide when she attacks. */
  function Joining(cats: seq<Enemy>, guide: Option<Point>, catsTurn: bool, guideTurn: bool): seq<Enemy>
  {
    (if catsTurn then cats else []) + (if guideTurn && guide.Some? then [Assailant(guide.value)] else [])
  }

  /** The sounds the escalations request. */
  function JoiningCalls(catsTurn: bool, guideTurn: bool): seq<SoundCall>
  {
    (if catsTurn then [Play("ghost")] else []) + (if guideTurn then [Play("witchLaugh")] else [])
  }

  /** The requests of the end checks: "victory" and both stops once the
      escape is over, both stops again when HP is gone. */
  function SettleCalls(over: bool, dead: bool): seq<SoundCall>
  {
    (if over then [Play("victory"), StopHeartbeat, StopWarning] else []) +
    (if dead then [StopHeartbeat, StopWarning] else [])
  }

  /** What the enemy loop and the updateMagicAttacks call after it leave. */
  datatype Onslaught = Onslaught(moved: seq<Enemy>, magic: seq<Magic>, vitals: Vitals, calls: seq<SoundCall>)

  /** The enemy loop from HP v over es, then the projectiles ms and the
      enemies' casts flying once; the requests are the loop's, the
      projectile "ghost", and the two proximity updates. */
  function EnemyTurn(g: Map, es: seq<Enemy>, ms: seq<Magic>, v: Vitals, p: Point, t: int, mult: real, trig: Trig): Onslaught
    requires Rectangular(g)
  {
    var sw := Chase(g, es, |es|, p, t, mult, trig, Sweep([], [], v, [], None, None));
    var live := Live(ms + sw.shots, t);
    var v' := if AnyStrike(live, p) then Damaged(sw.vitals, t) else sw.vitals;
    Onslaught(sw.moved, Flown(live, p), v',
              sw.calls + (if v' != sw.vitals then [Play("ghost")] else []) +
              [EnemyProximity(sw.closest), CatProximity(sw.closestCat)])
  }

  /** In the enemy turn each enemy takes its own turn, in order. */
  lemma EnemyTurnMoved(g: Map, es: seq<Enemy>, ms: seq<Magic>, v: Vitals, p: Point, t: int, mult: real, trig: Trig)
    requires Rectangular(g)
    ensures var r := EnemyTurn(g, es, ms, v, p, t, mult, trig);
            |r.moved| == |es| &&
            (forall k :: 0 <= k < |es| ==> r.moved[k] == Chased(g, es[k], k, p, t, mult, trig))
  {
    var a0 := Sweep([], [], v, [], None, None);
    ChaseMoved(g, es, |es|, p, t, mult, trig, a0);
    assert EnemyTurn(g, es, ms, v, p, t, mult, trig).moved == Chase(g, es, |es|, p, t, mult, trig, a0).moved;
  }

  /** Contact and projectile damage together cost at most one hit. */
  lemma EnemyTurnVitals(g: Map, es: seq<Enemy>, ms: seq<Magic>, v: Vitals, p: Point, t: int, mult: real, trig: Trig)
    requires Rectangular(g)
    ensures var r := EnemyTurn(g, es, ms, v, p, t, mult, trig);
            OneHitAtMost(v, r.vitals, t) && r.vitals.hp <= v.hp
  {
    var a0 := Sweep([], [], v, [], None, None);
    var sw := Chase(g, es, |es|, p, t, mult, trig, a0);
    ChaseVitals(g, es, |es|, p, t, mult, trig, a0);
    DamageWindow(v, t, t);
    DamageWindow(sw.vitals, t, t);
    var v' := EnemyTurn(g, es, ms, v, p, t, mult, trig).vitals;
    assert v' == Damaged(sw.vitals, t) || v' == sw.vitals;
    assert OneHitAtMost(v, sw.vitals, t);
    assert OneHitAtMost(sw.vitals, v', t);
    OneHitCompose(v, sw.vitals, v', t);
  }

  /** The projectiles left are young and miss the player. */
  lemma EnemyTurnMagic(g: Map, es: seq<Enemy>, ms: seq<Magic>, v: Vitals, p: Point, t: int, mult: real, trig: Trig)
    requires Rectangular(g)
    ensures var r := EnemyTurn(g, es, ms, v, p, t, mult, trig);
            forall m :: m in r.magic ==> t - m.createdAt < MAGIC_LIFETIME && !Strikes(m, p)
  {
    var sw := Chase(g, es, |es|, p, t, mult, trig, Sweep([], [], v, [], None, None));
    FlownSpec(ms + sw.shots, p, t);
  }

  /** The proximity request carries the least enemy distance, None
      without enemies, and the cat request follows it. */
  lemma EnemyTurnClosest(g: Map, es: seq<Enemy>, ms: seq<Magic>, v: Vitals, p: Point, t: int, mult: real, trig: Trig)
    requires Rectangular(g)
    ensures var c := EnemyTurn(g, es, ms, v, p, t, mult, trig).calls;
            |c| >= 2 && c[|c| - 2].EnemyProximity? && c[|c| - 1].CatProximity? &&
            (c[|c| - 2].nearest.None? <==> |es| == 0) &&
            (forall k :: 0 <= k < |es| ==> c[|c| - 2].nearest.value <= DistTo(es[k], p, trig))
  {
    var a0 := Sweep([], [], v, [], None, None);
    var sw := Chase(g, es, |es|, p, t, mult, trig, a0);
    ChaseClosest(g, es, |es|, p, t, mult, trig, a0);
    var c := EnemyTurn(g, es, ms, v, p, t, mult, trig).calls;
    assert c[|c| - 2] == EnemyProximity(sw.closest);
  }

  // ---------------------------------------------------------------------
  // The loops of a frame, as folds
  // ---------------------------------------------------------------------

  /** What the pumpkin loop carries. */
  datatype PumpkinSweep = PumpkinSweep(collected: set<Cell>, phase: Phase, returnOverlayUntil: int,
                                       calls: seq<SoundCall>)

  /** One pumpkin: in reach with a new key it is collected ("pumpkin"),
      and a set that has reached the total moves on to RETURN ("jump"). */
  function PumpkinStep(a: PumpkinSweep, c: Cell, p: Point, t: int): PumpkinSweep
  {
    if c !in a.collected && Within(Center(c), p, PICKUP_REACH_SQ) then
      var s := a.collected + {c};
      if |s| >= TOTAL_PUMPKINS then PumpkinSweep(s, Return, t + 3500, a.calls + [Play("pumpkin"), Play("jump")])
      else a.(collected := s, calls := a.calls + [Play("pumpkin")])
    else a
  }

  /** The pumpkin loop over cs[..n]. */
  function PumpkinLoop(a: PumpkinSweep, cs: seq<Cell>, n: nat, p: Point, t: int): PumpkinSweep
    requires n <= |cs|
  {
    if n == 0 then a else PumpkinStep(PumpkinLoop(a, cs, n - 1, p, t), cs[n - 1], p, t)
  }

  /** The pumpkin loop collects the keys of exactly the pumpkins `Taken`
      picks. */
  lemma PumpkinStepKeys(a: PumpkinSweep, c: Cell, p: Point, t: int, take: bool)
    requires take == (c !in a.collected && Within(Center(c), p, PICKUP_REACH_SQ))
    ensures PumpkinStep(a, c, p, t).collected == if take then a.collected + {c} else a.collected
  {
  }

  lemma PumpkinKeysStep(a: PumpkinSweep, cs: seq<Cell>, n: nat, p: Point, t: int)
    requires 0 < n <= |cs|
    requires PumpkinLoop(a, cs, n - 1, p, t).collected ==
               a.collected + KeysOf(Taken(a.collected, cs, n - 1, p, PICKUP_REACH_SQ))
    ensures PumpkinLoop(a, cs, n, p, t).collected ==
              a.collected + KeysOf(Taken(a.collected, cs, n, p, PICKUP_REACH_SQ))
  {
    var r := PumpkinLoop(a, cs, n - 1, p, t);
    var k := Taken(a.collected, cs, n - 1, p, PICKUP_REACH_SQ);
    var c := cs[n - 1];
    PumpkinStepKeys(r, c, p, t, c !in r.collected && Within(Center(c), p, PICKUP_REACH_SQ));
    TakenStep(a.collected, cs, n, p, PICKUP_REACH_SQ);
    KeysOfSnoc(k, c);
  }

  lemma {:induction false} PumpkinLoopKeys(a: PumpkinSweep, cs: seq<Cell>, n: nat, p: Point, t: int)
    requires n <= |cs|
    ensures PumpkinLoop(a, cs, n, p, t).collected == a.collected + KeysOf(Taken(a.collected, cs, n, p, PICKUP_REACH_SQ))
    decreases n
  {
    if n > 0 {
      PumpkinLoopKeys(a, cs, n - 1, p, t);
      PumpkinKeysStep(a, cs, n, p, t);
    } else {
      assert KeysOf([]) == {};
    }
  }

  lemma CardPlusOne(s: set<Cell>, c: Cell)
    ensures c !in s ==> |s + {c}| == |s| + 1
  {
  }

  /** What the rest of the pumpkin lemmas need of the set collected so
      far: its size and whether it holds a given key. */
  lemma PumpkinLoopHolds(a: PumpkinSweep, cs: seq<Cell>, n: nat, p: Point, t: int, c: Cell)
    requires n <= |cs|
    ensures var k := Taken(a.collected, cs, n, p, PICKUP_REACH_SQ);
            var r := PumpkinLoop(a, cs, n, p, t);
            |r.collected| == |a.collected| + |k| &&
            (c in r.collected <==> c in a.collected + KeysOf(k))
  {
    PumpkinLoopKeys(a, cs, n, p, t);
    TakenCount(a.collected, cs, n, p, PICKUP_REACH_SQ);
  }

  /** The sounds of one collected pumpkin. */
  function PumpkinNote(full: bool): seq<SoundCall>
  {
    [Play("pumpkin")] + (if full then [Play("jump")] else [])
  }

  lemma PumpkinStepRest(a: PumpkinSweep, c: Cell, p: Point, t: int, take: bool, full: bool)
    requires take == (c !in a.collected && Within(Center(c), p, PICKUP_REACH_SQ))
    requires full == (|a.collected + {c}| >= TOTAL_PUMPKINS)
    ensures var r := PumpkinStep(a, c, p, t);
            r.phase == (if take && full then Return else a.phase) &&
            r.returnOverlayUntil == (if take && full then t + 3500 else a.returnOverlayUntil) &&
            r.calls == if take then a.calls + PumpkinNote(full) else a.calls
  {
  }

  /** One more pumpkin appends its note to the sounds. */
  lemma PumpkinCallsSnoc(calls: seq<SoundCall>, before: nat, m: nat)
    ensures calls + PumpkinCalls(before, m) + PumpkinNote(before + m + 1 >= TOTAL_PUMPKINS) ==
            calls + PumpkinCalls(before, m + 1)
  {
  }

  /** The step at cs[n - 1], in terms of what the loop took before it. */
  lemma PumpkinLoopStep(a: PumpkinSweep, cs: seq<Cell>, n: nat, p: Point, t: int)
    requires 0 < n <= |cs|
    ensures var r := PumpkinLoop(a, cs, n - 1, p, t);
            var m := |Taken(a.collected, cs, n - 1, p, PICKUP_REACH_SQ)|;
            var c := cs[n - 1];
            var take := c !in r.collected && Within(Center(c), p, PICKUP_REACH_SQ);
            var full := |a.collected| + m + 1 >= TOTAL_PUMPKINS;
            var r' := PumpkinLoop(a, cs, n, p, t);
            |Taken(a.collected, cs, n, p, PICKUP_REACH_SQ)| == (if take then m + 1 else m) &&
            r'.phase == (if take && full then Return else r.phase) &&
            r'.returnOverlayUntil == (if take && full then t + 3500 else r.returnOverlayUntil) &&
            r'.calls == if take then r.calls + PumpkinNote(full) else r.calls
  {
    var r := PumpkinLoop(a, cs, n - 1, p, t);
    var c := cs[n - 1];
    PumpkinLoopHolds(a, cs, n - 1, p, t, c);
    TakenStep(a.collected, cs, n, p, PICKUP_REACH_SQ);
    CardPlusOne(r.collected, c);
    PumpkinStepRest(r, c, p, t, c !in r.collected && Within(Center(c), p, PICKUP_REACH_SQ),
                    |r.collected + {c}| >= TOTAL_PUMPKINS);
  }

  /** It reaches RETURN iff it took a pumpkin and the set reached the
      total. */
  lemma {:induction false} PumpkinLoopPhase(a: PumpkinSweep, cs: seq<Cell>, n: nat, p: Point, t: int)
    requires n <= |cs|
    ensures var m := |Taken(a.collected, cs, n, p, PICKUP_REACH_SQ)|;
            var done := m > 0 && |a.collected| + m >= TOTAL_PUMPKINS;
            var r := PumpkinLoop(a, cs, n, p, t);
            r.phase == (if done then Return else a.phase) &&
            r.returnOverlayUntil == (if done then t + 3500 else a.returnOverlayUntil)
    decreases n
  {
    if n > 0 {
      PumpkinLoopPhase(a, cs, n - 1, p, t);
      PumpkinLoopStep(a, cs, n, p, t);
    }
  }

  /** The step at cs[n - 1] of the pumpkin sounds. */
  lemma PumpkinCallsStep(a: PumpkinSweep, cs: seq<Cell>, n: nat, p: Point, t: int)
    requires 0 < n <= |cs|
    requires PumpkinLoop(a, cs, n - 1, p, t).calls ==
               a.calls + PumpkinCalls(|a.collected|, |Taken(a.collected, cs, n - 1, p, PICKUP_REACH_SQ)|)
    ensures PumpkinLoop(a, cs, n, p, t).calls ==
              a.calls + PumpkinCalls(|a.collected|, |Taken(a.collected, cs, n, p, PICKUP_REACH_SQ)|)
  {
    var x := PumpkinLoop(a, cs, n - 1, p, t).calls;
    var m := |Taken(a.collected, cs, n - 1, p, PICKUP_REACH_SQ)|;
    var c := cs[n - 1];
    var take := c !in PumpkinLoop(a, cs, n - 1, p, t).collected && Within(Center(c), p, PICKUP_REACH_SQ);
    var full := |a.collected| + m + 1 >= TOTAL_PUMPKINS;
    PumpkinLoopStep(a, cs, n, p, t);
    if take {
      PumpkinCallsSnoc(a.calls, |a.collected|, m);
      calc {
        PumpkinLoop(a, cs, n, p, t).calls;
        x + PumpkinNote(full);
        a.calls + PumpkinCalls(|a.collected|, m) + PumpkinNote(full);
        a.calls + PumpkinCalls(|a.collected|, m + 1);
      }
    }
  }

  /** It plays "pumpkin" per pumpkin taken, each followed by "jump" once
      the set has reached the total. */
  lemma {:induction false} PumpkinLoopCalls(a: PumpkinSweep, cs: seq<Cell>, n: nat, p: Point, t: int)
    requires n <= |cs|
    ensures PumpkinLoop(a, cs, n, p, t).calls ==
              a.calls + PumpkinCalls(|a.collected|, |Taken(a.collected, cs, n, p, PICKUP_REACH_SQ)|)
    decreases n
  {
    if n > 0 {
      PumpkinLoopCalls(a, cs, n - 1, p, t);
      PumpkinCallsStep(a, cs, n, p, t);
    }
  }

  /** What the lantern loop carries. */
  datatype LanternSweep = LanternSweep(collected: set<Cell>, hp: int, calls: seq<SoundCall>)

  /** One lantern: in reach with a new key it is used up, heals one HP up
      to the maximum and plays "heal". */
  function LanternStep(a: LanternSweep, c: Cell, p: Point): LanternSweep
  {
    if c !in a.collected && Within(Center(c), p, PICKUP_REACH_SQ) then
      LanternSweep(a.collected + {c}, Healed(a.hp), a.calls + [Play("heal")])
    else a
  }

  /** The lantern loop over cs[..n]. */
  function LanternLoop(a: LanternSweep, cs: seq<Cell>, n: nat, p: Point): LanternSweep
    requires n <= |cs|
  {
    if n == 0 then a else LanternStep(LanternLoop(a, cs, n - 1, p), cs[n - 1], p)
  }

  /** The lantern loop in closed form. */
  function LanternsAfter(a: LanternSweep, k: seq<Cell>): LanternSweep
  {
    LanternSweep(a.collected + KeysOf(k), HealedBy(a.hp, |k|), a.calls + Repeat(Play("heal"), |k|))
  }

  lemma LanternSpecStep(a: LanternSweep, cs: seq<Cell>, n: nat, p: Point)
    requires 0 < n <= |cs|
    requires LanternLoop(a, cs, n - 1, p) == LanternsAfter(a, Taken(a.collected, cs, n - 1, p, PICKUP_REACH_SQ))
    ensures LanternLoop(a, cs, n, p) == LanternsAfter(a, Taken(a.collected, cs, n, p, PICKUP_REACH_SQ))
  {
    TakenStep(a.collected, cs, n, p, PICKUP_REACH_SQ);
    KeysOfSnoc(Taken(a.collected, cs, n - 1, p, PICKUP_REACH_SQ), cs[n - 1]);
  }

  /** The lantern loop uses up the lanterns `Taken` picks, heals once for
      each (capped) and plays "heal" once for each. */
  lemma {:induction false} LanternLoopSpec(a: LanternSweep, cs: seq<Cell>, n: nat, p: Point)
    requires n <= |cs|
    ensures var k := Taken(a.collected, cs, n, p, PICKUP_REACH_SQ);
            LanternLoop(a, cs, n, p) ==
              LanternSweep(a.collected + KeysOf(k), HealedBy(a.hp, |k|), a.calls + Repeat(Play("heal"), |k|))
    decreases n
  {
    if n > 0 {
      LanternLoopSpec(a, cs, n - 1, p);
      LanternSpecStep(a, cs, n, p);
    } else {
      assert KeysOf([]) == {};
    }
  }

  /** What the bat loop carries. */
  datatype BatSweep = BatSweep(exploded: set<Cell>, explosions: seq<Explosion>, vitals: Vitals,
                               calls: seq<SoundCall>)

  /** One bat: within 1.0 with a new key it explodes, damages by the
      window rule, and plays "explosion" whether or not it damaged. */
  function BatStep(a: BatSweep, c: Cell, p: Point, t: int): BatSweep
  {
    if c !in a.exploded && Within(Center(c), p, BAT_REACH_SQ) then
      BatSweep(a.exploded + {c}, a.explosions + [Explosion(Center(c).x, Center(c).y, t)], Damaged(a.vitals, t),
               a.calls + [Play("explosion")])
    else a
  }

  /** The bat loop over cs[..n]. */
  function BatLoop(a: BatSweep, cs: seq<Cell>, n: nat, p: Point, t: int): BatSweep
    requires n <= |cs|
  {
    if n == 0 then a else BatStep(BatLoop(a, cs, n - 1, p, t), cs[n - 1], p, t)
  }

  /** The bat loop in closed form. */
  function BatsAfter(a: BatSweep, k: seq<Cell>, t: int): BatSweep
  {
    BatSweep(a.exploded + KeysOf(k), a.explosions + Explosions(k, t),
             if |k| > 0 then Damaged(a.vitals, t) else a.vitals,
             a.calls + Repeat(Play("explosion"), |k|))
  }

  lemma BatSpecStep(a: BatSweep, cs: seq<Cell>, n: nat, p: Point, t: int)
    requires 0 < n <= |cs|
    requires BatLoop(a, cs, n - 1, p, t) == BatsAfter(a, Taken(a.exploded, cs, n - 1, p, BAT_REACH_SQ), t)
    ensures BatLoop(a, cs, n, p, t) == BatsAfter(a, Taken(a.exploded, cs, n, p, BAT_REACH_SQ), t)
  {
    var k := Taken(a.exploded, cs, n - 1, p, BAT_REACH_SQ);
    var c := cs[n - 1];
    TakenStep(a.exploded, cs, n, p, BAT_REACH_SQ);
    KeysOfSnoc(k, c);
    assert (k + [c])[..|k|] == k;
    DamageWindow(a.vitals, t, t);
  }

  /** The bat loop explodes exactly the bats `Taken` picks, adds one
      explosion and one sound for each, and costs at most one hit. */
  lemma {:induction false} BatLoopSpec(a: BatSweep, cs: seq<Cell>, n: nat, p: Point, t: int)
    requires n <= |cs|
    ensures var k := Taken(a.exploded, cs, n, p, BAT_REACH_SQ);
            BatLoop(a, cs, n, p, t) ==
              BatSweep(a.exploded + KeysOf(k), a.explosions + Explosions(k, t),
                       if |k| > 0 then Damaged(a.vitals, t) else a.vitals,
                       a.calls + Repeat(Play("explosion"), |k|))
    decreases n
  {
    if n > 0 {
      BatLoopSpec(a, cs, n - 1, p, t);
      BatSpecStep(a, cs, n, p, t);
    } else {
      assert KeysOf([]) == {};
    }
  }

  /** The pieces of a sequence built around one element. */
  lemma MagicParts(s: seq<Magic>, pre: seq<Magic>, m: Magic, rest: seq<Magic>)
    requires s == pre + [m] + rest
    ensures s[..|pre|] == pre && s[|pre|] == m && s[|pre| + 1..] == rest
  {
    assert s[..|pre|] == (pre + [m] + rest)[..|pre|];
  }

  /** Flowing a suffix is flowing its first projectile, then the rest. */
  lemma FlownAt(ms: seq<Magic>, i: nat, p: Point)
    requires i < |ms|
    ensures Flown(ms[i..], p) == (if Strikes(Fly(ms[i]), p) then [] else [Fly(ms[i])]) + Flown(ms[i + 1..], p)
    ensures AnyStrike(ms[i..], p) == (Strikes(Fly(ms[i]), p) || AnyStrike(ms[i + 1..], p))
  {
    assert ms[i..][1..] == ms[i + 1..];
  }

  /** One turn of the backward loop of updateMagicAttacks: with the
      projectiles after i already moved (and those that hit removed),
      moving projectile i in place and splicing it out when it hits
      leaves the projectiles from i on moved in the same way. */
  lemma MagicTurn(ms: seq<Magic>, cur: seq<Magic>, i: nat, p: Point)
    requires i < |ms| && cur == ms[..i + 1] + Flown(ms[i + 1..], p)
    ensures i < |cur| && cur[i] == ms[i]
    ensures Strikes(Fly(cur[i]), p) ==> cur[..i] + cur[i + 1..] == ms[..i] + Flown(ms[i..], p)
    ensures !Strikes(Fly(cur[i]), p) ==> cur[..i] + [Fly(cur[i])] + cur[i + 1..] == ms[..i] + Flown(ms[i..], p)
    ensures AnyStrike(ms[i..], p) == (Strikes(Fly(cur[i]), p) || AnyStrike(ms[i + 1..], p))
  {
    assert ms[..i + 1] == ms[..i] + [ms[i]];
    MagicParts(cur, ms[..i], ms[i], Flown(ms[i + 1..], p));
    FlownAt(ms, i, p);
  }
}
