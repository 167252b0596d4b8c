// The halloween game's state object and its frame: the setup that scans
// the map, updatePhase with updateEnemies and updateMagicAttacks, the
// pickup loops of the game loop, footsteps and the render throttle.  Each
// loop is proved to compute the matching fold of HalloweenGame, and each
// method states every field it may change.
module HalloweenState {
  import opened Grid
  import Placement
  import opened HalloweenGame

  /** Sound requests reach the port only when there is one
      (`if (window.soundManager)`). */
  function Heard(on: bool, cs: seq<SoundCall>): (r: seq<SoundCall>)
    ensures on ==> r == cs
    ensures !on ==> r == []
  {
    if on then cs else []
  }

  lemma HeardAppend(on: bool, s: seq<SoundCall>, a: seq<SoundCall>, b: seq<SoundCall>)
    ensures s + Heard(on, a) + Heard(on, b) == s + Heard(on, a + b)
  {
    if on {
      assert s + a + b == s + (a + b);
    }
  }

  lemma HeardExtends(s: seq<SoundCall>, on: bool, cs: seq<SoundCall>)
    ensures s <= s + Heard(on, cs)
  {
  }

  /** The player moved by more than 0.01 along some axis. */
  predicate Moved(a: Point, b: Point)
  {
    (if b.x - a.x < 0.0 then a.x - b.x else b.x - a.x) > 0.01 ||
    (if b.y - a.y < 0.0 then a.y - b.y else b.y - a.y) > 0.01
  }

  predicate IsLantern(code: int)
  {
    code == 4
  }

  predicate IsBat(code: int)
  {
    code == 8
  }

  /** The map scans of the setup: the enemies from codes 2, 7 and 10, the
      cats from 9, the lanterns from 4 and the bats from 8, in row-major
      order. */
  method ReadMap(g: Map) returns (hostiles: seq<Enemy>, cats: seq<Enemy>, lanterns: seq<Cell>, bats: seq<Cell>)
    requires Rectangular(g)
    ensures forall c :: c in Scan(g, IsHostile, 0, Height(g), 0, Width(g)) ==> InBounds(g, c.x, c.y)
    ensures hostiles == Recruits(g, Scan(g, IsHostile, 0, Height(g), 0, Width(g)))
    ensures cats == Kittens(Scan(g, HalloweenGame.IsCat, 0, Height(g), 0, Width(g)))
    ensures lanterns == Scan(g, IsLantern, 0, Height(g), 0, Width(g))
    ensures bats == Scan(g, IsBat, 0, Height(g), 0, Width(g))
  {
    var hostileCells := ScanCells(g, IsHostile, 0, Height(g), 0, Width(g));
    var catCells := ScanCells(g, HalloweenGame.IsCat, 0, Height(g), 0, Width(g));
    lanterns := ScanCells(g, IsLantern, 0, Height(g), 0, Width(g));
    bats := ScanCells(g, IsBat, 0, Height(g), 0, Width(g));
    hostiles := Recruits(g, hostileCells);
    cats := Kittens(catCells);
  }

  /** The enemy loop of updateEnemies, on copies of the enemies and the
      HP its caller writes back: each enemy in turn moves, may cast, and
      may touch the player; the nearest distances are tracked. */
  method ChaseAll(g: Map, es: seq<Enemy>, v: Vitals, p: Point, t: int, mult: real, trig: Trig) returns (sw: Sweep)
    requires Rectangular(g)
    ensures sw == Chase(g, es, |es|, p, t, mult, trig, Sweep([], [], v, [], None, None))
    ensures |sw.moved| == |es| && forall k :: 0 <= k < |es| ==> sw.moved[k] == Chased(g, es[k], k, p, t, mult, trig)
    ensures sw.vitals == if Touches(es, |es|, p, trig) then Damaged(v, t) else v
  {
    var a0 := Sweep([], [], v, [], None, None);
    sw := a0;
    var i := 0;
    while i < |es|
      invariant 0 <= i <= |es|
      invariant sw == Chase(g, es, i, p, t, mult, trig, a0)
    {
      sw := ChaseOne(g, es[i], i, p, t, mult, trig, sw);
      i := i + 1;
    }
    ChaseMoved(g, es, |es|, p, t, mult, trig, a0);
    ChaseVitals(g, es, |es|, p, t, mult, trig, a0);
  }

  /** The enemy loop, then updateMagicAttacks on the projectiles with the
      enemies' casts added, then the proximity requests. */
  method TurnEnemies(g: Map, es: seq<Enemy>, ms: seq<Magic>, v: Vitals, p: Point, t: int, mult: real, trig: Trig)
      returns (r: Onslaught)
    requires Rectangular(g)
    ensures r == EnemyTurn(g, es, ms, v, p, t, mult, trig)
  {
    var sw := ChaseAll(g, es, v, p, t, mult, trig);
    var magic, v', hits := FlyMagic(ms + sw.shots, sw.vitals, p, t);
    r := Onslaught(sw.moved, magic, v', sw.calls + hits + [EnemyProximity(sw.closest), CatProximity(sw.closestCat)]);
  }

  /** updateMagicAttacks, on copies of the projectiles and the HP its
      caller writes back: the filter by age, then the backward loop that
      moves each projectile and splices out those that hit.  The
      survivors are the moved projectiles that did not hit, HP falls at
      most once, and "ghost" plays exactly when it did. */
  method FlyMagic(ms0: seq<Magic>, v0: Vitals, p: Point, t: int)
      returns (magic: seq<Magic>, v: Vitals, calls: seq<SoundCall>)
    ensures magic == Flown(Live(ms0, t), p)
    ensures v == if AnyStrike(Live(ms0, t), p) then Damaged(v0, t) else v0
    ensures calls == if v != v0 then [Play("ghost")] else []
    ensures OneHitAtMost(v0, v, t) && v.hp <= v0.hp
    ensures forall k :: 0 <= k < |magic| ==> t - magic[k].createdAt < MAGIC_LIFETIME && !Strikes(magic[k], p)
  {
    var ms := Live(ms0, t);
    magic := ms;
    var hp, last := v0.hp, v0.lastDamage;
    calls := [];
    DamageWindow(v0, t, t);
    var i := |ms|;
    while i > 0
      invariant 0 <= i <= |ms|
      invariant magic == ms[..i] + Flown(ms[i..], p)
      invariant Vitals(hp, last) == if AnyStrike(ms[i..], p) then Damaged(v0, t) else v0
      invariant calls == if Vitals(hp, last) != v0 then [Play("ghost")] else []
    {
      i := i - 1;
      MagicTurn(ms, magic, i, p);
      var m := Fly(magic[i]);
      if Strikes(m, p) {
        magic := magic[..i] + magic[i + 1..];
        if t - last > INVINCIBLE_DURATION {
          hp := hp - 1;
          last := t;
          calls := calls + [Play("ghost")];
        }
      } else {
        magic := magic[..i] + [m] + magic[i + 1..];
      }
    }
    assert ms[..0] + Flown(ms[0..], p) == Flown(ms, p);
    v := Vitals(hp, last);
    forall k | 0 <= k < |magic|
      ensures t - magic[k].createdAt < MAGIC_LIFETIME && !Strikes(magic[k], p)
    {
      FlownSpec(ms0, p, t);
      assert magic[k] in magic;
    }
  }

  /** The pumpkin loop of gameLoop, on copies of the fields its caller
      writes back: each pumpkin in reach whose cell is not yet collected
      is collected ("pumpkin"), and once the set reaches the total the
      phase is RETURN with its overlay for 3.5 s ("jump"). */
  method GatherPumpkins(a0: PumpkinSweep, cs: seq<Cell>, p: Point, t: int) returns (a: PumpkinSweep)
    ensures var k := Taken(a0.collected, cs, |cs|, p, PICKUP_REACH_SQ);
            a.collected == a0.collected + KeysOf(k) && |a.collected| == |a0.collected| + |k|
    ensures var m := |Taken(a0.collected, cs, |cs|, p, PICKUP_REACH_SQ)|;
            var done := m > 0 && |a0.collected| + m >= TOTAL_PUMPKINS;
            a.phase == (if done then Return else a0.phase) &&
            a.returnOverlayUntil == (if done then t + 3500 else a0.returnOverlayUntil)
    ensures a.calls == a0.calls + PumpkinCalls(|a0.collected|, |Taken(a0.collected, cs, |cs|, p, PICKUP_REACH_SQ)|)
  {
    var collected, ph, overlay, calls := a0.collected, a0.phase, a0.returnOverlayUntil, a0.calls;
    var i := 0;
    while i < |cs|
      invariant 0 <= i <= |cs|
      invariant PumpkinSweep(collected, ph, overlay, calls) == PumpkinLoop(a0, cs, i, p, t)
    {
      var c := cs[i];
      if c !in collected && Within(Center(c), p, PICKUP_REACH_SQ) {
        collected := collected + {c};
        calls := calls + [Play("pumpkin")];
        if |collected| >= TOTAL_PUMPKINS {
          ph := Return;
          overlay := t + 3500;
          calls := calls + [Play("jump")];
        }
      }
      i := i + 1;
    }
    a := PumpkinSweep(collected, ph, overlay, calls);
    PumpkinLoopKeys(a0, cs, |cs|, p, t);
    TakenCount(a0.collected, cs, |cs|, p, PICKUP_REACH_SQ);
    PumpkinLoopPhase(a0, cs, |cs|, p, t);
    PumpkinLoopCalls(a0, cs, |cs|, p, t);
  }

  /** The lantern loop of gameLoop, on copies of the fields its caller
      writes back: each lantern in reach whose cell is not yet used is
      used up, heals one HP up to the maximum and plays "heal". */
  method UseLanterns(a0: LanternSweep, cs: seq<Cell>, p: Point) returns (a: LanternSweep)
    requires a0.hp <= MAX_HP
    ensures var k := Taken(a0.collected, cs, |cs|, p, PICKUP_REACH_SQ);
            a.collected == a0.collected + KeysOf(k) &&
            a.hp == (if a0.hp + |k| <= MAX_HP then a0.hp + |k| else MAX_HP) &&
            a.calls == a0.calls + Repeat(Play("heal"), |k|)
  {
    var collected, hp, calls := a0.collected, a0.hp, a0.calls;
    var i := 0;
    while i < |cs|
      invariant 0 <= i <= |cs|
      invariant LanternSweep(collected, hp, calls) == LanternLoop(a0, cs, i, p)
    {
      var c := cs[i];
      if c !in collected && Within(Center(c), p, PICKUP_REACH_SQ) {
        collected := collected + {c};
        hp := if MAX_HP < hp + 1 then MAX_HP else hp + 1;
        calls := calls + [Play("heal")];
      }
      i := i + 1;
    }
    a := LanternSweep(collected, hp, calls);
    LanternLoopSpec(a0, cs, |cs|, p);
    HealedBySpec(a0.hp, |Taken(a0.collected, cs, |cs|, p, PICKUP_REACH_SQ)|);
  }

  /** The bat loop of gameLoop, on copies of the fields its caller
      writes back: each bat within 1.0 whose cell has not exploded
      explodes, damages by the window rule (it explodes even when the
      window forbids the damage) and plays "explosion". */
  method BlowBats(a0: BatSweep, cs: seq<Cell>, p: Point, t: int) returns (a: BatSweep)
    ensures a == BatsAfter(a0, Taken(a0.exploded, cs, |cs|, p, BAT_REACH_SQ), t)
  {
    var exploded, blasts, hp, last, calls := a0.exploded, a0.explosions, a0.vitals.hp, a0.vitals.lastDamage, a0.calls;
    var i := 0;
    while i < |cs|
      invariant 0 <= i <= |cs|
      invariant BatSweep(exploded, blasts, Vitals(hp, last), calls) == BatLoop(a0, cs, i, p, t)
    {
      var c := cs[i];
      if c !in exploded && Within(Center(c), p, BAT_REACH_SQ) {
        exploded := exploded + {c};
        blasts := blasts + [Explosion(Center(c).x, Center(c).y, t)];
        if t - last > INVINCIBLE_DURATION {
          hp := hp - 1;
          last := t;
        }
        calls := calls + [Play("explosion")];
      }
      i := i + 1;
    }
    a := BatSweep(exploded, blasts, Vitals(hp, last), calls);
    BatLoopSpec(a0, cs, |cs|, p, t);
  }

  class Game {
    const g: Map
    const pumpkins: seq<Cell>      // each pumpkin stands at the centre of its cell
    const guide: Option<Point>
    const lanterns: seq<Cell>
    const bats: seq<Cell>
    const hostiles: seq<Enemy>     // the enemies the map starts with
    const cats: seq<Enemy>
    const hasSound: bool

    var phase: Phase
    var collectedPumpkins: set<Cell>
    var startTime: int
    var playerHP: int
    var lastDamageTime: int
    var escapeStartTime: int
    var betrayalMessageUntil: int
    var introMessageUntil: int
    var escapeOverlayUntil: int
    var victoryStartTime: int
    var finalTime: Option<int>     // milliseconds from COLLECT to VICTORY
    var returnOverlayUntil: int
    var introOverlayUntil: int
    var catsBetrayed: bool
    var collectedLanterns: set<Cell>
    var explodedBats: set<Cell>
    var explosions: seq<Explosion>
    var witchGirlAttacking: bool
    var magicAttacks: seq<Magic>
    var enemies: seq<Enemy>
    var sounds: seq<SoundCall>
    var lastRenderTime: int
    var lastPlayerX: real
    var lastPlayerY: real

    function Vit(): Vitals
      reads this
    {
      Vitals(playerHP, lastDamageTime)
    }

    /** The cats and the guide join the enemies once each; nothing hunts
        before the escape; HP never exceeds the maximum; COLLECT ends when
        the set reaches the total. */
    ghost predicate Valid()
      reads this
    {
      Rectangular(g) &&
      |enemies| == |hostiles| + (if catsBetrayed then |cats| else 0) + (if witchGirlAttacking then 1 else 0) &&
      (Stage(phase) < Stage(Escape) ==>
         enemies == hostiles && !catsBetrayed && !witchGirlAttacking && magicAttacks == []) &&
      playerHP <= MAX_HP &&
      (phase == Intro ==> collectedPumpkins == {}) &&
      (phase == Collect ==> |collectedPumpkins| < TOTAL_PUMPKINS) &&
      (witchGirlAttacking ==> guide.Some?)
    }

    /** The setup: pumpkins and the guide drawn with the draws rs and r,
        the enemies, cats, lanterns and bats read off the map, and the
        initial gameState, the INTRO overlay lasting 3.5 s from `now`. */
    constructor (g: Map, rs: seq<real>, r: real, spawn: Point, now: int, hasSound: bool)
      requires Rectangular(g) && TOTAL_PUMPKINS <= |rs| && Placement.Draws(rs) && 0.0 <= r < 1.0
      ensures Valid()
      ensures this.g == g && this.hasSound == hasSound
      ensures pumpkins == Placement.Draw(Placement.OpenInterior(g), rs, 0, TOTAL_PUMPKINS).0
      ensures guide == Placement.GuidePosition(Placement.Draw(Placement.OpenInterior(g), rs, 0, TOTAL_PUMPKINS).1, r)
      ensures forall c :: c in Scan(g, IsHostile, 0, Height(g), 0, Width(g)) ==> InBounds(g, c.x, c.y)
      ensures hostiles == Recruits(g, Scan(g, IsHostile, 0, Height(g), 0, Width(g)))
      ensures cats == Kittens(Scan(g, HalloweenGame.IsCat, 0, Height(g), 0, Width(g)))
      ensures lanterns == Scan(g, IsLantern, 0, Height(g), 0, Width(g))
      ensures bats == Scan(g, IsBat, 0, Height(g), 0, Width(g))
      ensures phase == Intro && collectedPumpkins == {} && startTime == 0 && Vit() == Vitals(MAX_HP, 0)
      ensures escapeStartTime == 0 && betrayalMessageUntil == 0 && introMessageUntil == 0
      ensures escapeOverlayUntil == 0 && victoryStartTime == 0 && finalTime == None && returnOverlayUntil == 0
      ensures introOverlayUntil == now + 3500
      ensures !catsBetrayed && collectedLanterns == {} && explodedBats == {} && explosions == []
      ensures !witchGirlAttacking && magicAttacks == [] && enemies == hostiles && sounds == []
      ensures lastRenderTime == 0 && lastPlayerX == spawn.x && lastPlayerY == spawn.y
    {
      var drawn, pk, placed, pool := Placement.PlacePumpkins(g, TOTAL_PUMPKINS, rs);
      var h, k, l, b := ReadMap(g);
      this.g := g;
      this.hasSound := hasSound;
      pumpkins := drawn;
      guide := Placement.GuidePosition(pool, r);
      hostiles := h;
      cats := k;
      lanterns := l;
      bats := b;
      phase := Intro;
      collectedPumpkins := {};
      startTime := 0;
      playerHP := MAX_HP;
      lastDamageTime := 0;
      escapeStartTime := 0;
      betrayalMessageUntil := 0;
      introMessageUntil := 0;
      escapeOverlayUntil := 0;
      victoryStartTime := 0;
      finalTime := None;
      returnOverlayUntil := 0;
      introOverlayUntil := now + 3500;
      catsBetrayed := false;
      collectedLanterns := {};
      explodedBats := {};
      explosions := [];
      witchGirlAttacking := false;
      magicAttacks := [];
      enemies := h;
      sounds := [];
      lastRenderTime := 0;
      lastPlayerX := spawn.x;
      lastPlayerY := spawn.y;
    }

    /** The two escalations of updateEnemies: the cats join once fewer
        than 30 s remain ("ghost"), the guide 10 s into the escape
        ("witchLaugh"). */
    method Escalate(t: int)
      requires Valid() && phase == Escape
      modifies this`catsBetrayed, this`witchGirlAttacking, this`enemies, this`sounds
      ensures Valid()
      ensures catsBetrayed == (old(catsBetrayed) || ESCAPE_DURATION - (t - escapeStartTime) <= 30000)
      ensures witchGirlAttacking == (old(witchGirlAttacking) || (t - escapeStartTime >= 10000 && guide.Some?))
      ensures enemies == old(enemies) + Joining(cats, guide, catsBetrayed != old(catsBetrayed),
                                                witchGirlAttacking != old(witchGirlAttacking))
      ensures sounds == old(sounds) + Heard(hasSound, JoiningCalls(catsBetrayed != old(catsBetrayed),
                                                                   witchGirlAttacking != old(witchGirlAttacking)))
    {
      var elapsed := t - escapeStartTime;
      var catsTurn := !catsBetrayed && ESCAPE_DURATION - elapsed <= 30000;
      var guideTurn := !witchGirlAttacking && elapsed >= 10000 && guide.Some?;
      catsBetrayed, witchGirlAttacking := catsBetrayed || catsTurn, witchGirlAttacking || guideTurn;
      enemies := enemies + Joining(cats, guide, catsTurn, guideTurn);
      sounds := sounds + Heard(hasSound, JoiningCalls(catsTurn, guideTurn));
    }

    /** The enemy loop of updateEnemies and the updateMagicAttacks call
        after it, written back: the enemies, projectiles, HP and requests
        are those of the enemy turn from the current state. */
    method Pursue(p: Point, t: int, trig: Trig)
      requires Rectangular(g) && playerHP <= MAX_HP
      modifies this`enemies, this`magicAttacks, this`playerHP, this`lastDamageTime, this`sounds
      ensures var r := EnemyTurn(g, old(enemies), old(magicAttacks), old(Vit()), p, t,
                                 SpeedMultiplier(t - escapeStartTime), trig);
              enemies == r.moved && magicAttacks == r.magic && Vit() == r.vitals &&
              sounds == old(sounds) + Heard(hasSound, r.calls)
      ensures |enemies| == |old(enemies)|
      ensures forall k :: 0 <= k < |enemies| ==>
                enemies[k] == Chased(g, old(enemies)[k], k, p, t, SpeedMultiplier(t - escapeStartTime), trig)
      ensures OneHitAtMost(old(Vit()), Vit(), t) && playerHP <= old(playerHP)
      ensures forall k :: 0 <= k < |magicAttacks| ==>
                t - magicAttacks[k].createdAt < MAGIC_LIFETIME && !Strikes(magicAttacks[k], p)
      ensures old(sounds) <= sounds
    {
      var es, ms, v := enemies, magicAttacks, Vit();
      var mult := SpeedMultiplier(t - escapeStartTime);
      var r := TurnEnemies(g, es, ms, v, p, t, mult, trig);
      EnemyTurnMoved(g, es, ms, v, p, t, mult, trig);
      EnemyTurnVitals(g, es, ms, v, p, t, mult, trig);
      EnemyTurnMagic(g, es, ms, v, p, t, mult, trig);
      forall k | 0 <= k < |r.magic|
        ensures t - r.magic[k].createdAt < MAGIC_LIFETIME && !Strikes(r.magic[k], p)
      {
        assert r.magic[k] in r.magic;
      }
      HeardExtends(sounds, hasSound, r.calls);
      enemies, magicAttacks, playerHP, lastDamageTime, sounds :=
        r.moved, r.magic, r.vitals.hp, r.vitals.lastDamage, sounds + Heard(hasSound, r.calls);
    }

    /** updateEnemies: the escalations, then every enemy, the newcomers
        included, takes its turn, the projectiles fly, and the proximity
        requests follow. */
    method UpdateEnemies(p: Point, t: int, trig: Trig)
      requires Valid() && phase == Escape
      modifies this`catsBetrayed, this`witchGirlAttacking, this`enemies, this`magicAttacks, this`playerHP,
               this`lastDamageTime, this`sounds
      ensures Valid()
      ensures catsBetrayed == (old(catsBetrayed) || ESCAPE_DURATION - (t - escapeStartTime) <= 30000)
      ensures witchGirlAttacking == (old(witchGirlAttacking) || (t - escapeStartTime >= 10000 && guide.Some?))
      ensures var catsTurn, guideTurn := catsBetrayed != old(catsBetrayed), witchGirlAttacking != old(witchGirlAttacking);
              var r := EnemyTurn(g, old(enemies) + Joining(cats, guide, catsTurn, guideTurn), old(magicAttacks),
                                 old(Vit()), p, t, SpeedMultiplier(t - escapeStartTime), trig);
              enemies == r.moved && magicAttacks == r.magic && Vit() == r.vitals &&
              sounds == old(sounds) + Heard(hasSound, JoiningCalls(catsTurn, guideTurn) + r.calls)
      ensures var es := old(enemies) + Joining(cats, guide, catsBetrayed != old(catsBetrayed),
                                               witchGirlAttacking != old(witchGirlAttacking));
              |enemies| == |es| &&
              forall k :: 0 <= k < |es| ==>
                enemies[k] == Chased(g, es[k], k, p, t, SpeedMultiplier(t - escapeStartTime), trig)
      ensures OneHitAtMost(old(Vit()), Vit(), t)
      ensures forall k :: 0 <= k < |magicAttacks| ==>
                t - magicAttacks[k].createdAt < MAGIC_LIFETIME && !Strikes(magicAttacks[k], p)
      ensures old(sounds) <= sounds
    {
      ghost var cb0, wa0, s0 := catsBetrayed, witchGirlAttacking, sounds;
      Escalate(t);
      ghost var calls0 := JoiningCalls(catsBetrayed != cb0, witchGirlAttacking != wa0);
      HeardExtends(s0, hasSound, calls0);
      ghost var s1, es, ms, v := sounds, enemies, magicAttacks, Vit();
      assert ms == old(magicAttacks) && v == old(Vit());
      Pursue(p, t, trig);
      ghost var r := EnemyTurn(g, es, ms, v, p, t, SpeedMultiplier(t - escapeStartTime), trig);
      assert sounds == s1 + Heard(hasSound, r.calls);
      HeardAppend(hasSound, s0, calls0, r.calls);
    }

    /** INTRO -> COLLECT on reaching the guide: the clock starts, the
        greeting shows for 2 s, "door". */
    method MeetGuide(t: int)
      requires Valid() && phase == Intro
      modifies this`phase, this`startTime, this`introMessageUntil, this`sounds
      ensures Valid() && phase == Collect && startTime == t && introMessageUntil == t + 2000
      ensures sounds == old(sounds) + Heard(hasSound, [Play("door")])
    {
      phase := Collect;
      startTime := t;
      introMessageUntil := t + 2000;
      sounds := sounds + Heard(hasSound, [Play("door")]);
    }

    /** RETURN -> BETRAYAL on reaching the guide: the betrayal message
        shows for 3 s, "ghost". */
    method Unmask(t: int)
      requires Valid() && phase == Return
      modifies this`phase, this`betrayalMessageUntil, this`sounds
      ensures Valid() && phase == Betrayal && betrayalMessageUntil == t + 3000
      ensures sounds == old(sounds) + Heard(hasSound, [Play("ghost")])
    {
      phase := Betrayal;
      betrayalMessageUntil := t + 3000;
      sounds := sounds + Heard(hasSound, [Play("ghost")]);
    }

    /** BETRAYAL -> ESCAPE: the escape clock starts, its overlay shows for
        3.5 s, "door". */
    method BeginEscape(t: int)
      requires Valid() && phase == Betrayal
      modifies this`phase, this`escapeStartTime, this`escapeOverlayUntil, this`sounds
      ensures Valid() && phase == Escape && escapeStartTime == t && escapeOverlayUntil == t + 3500
      ensures sounds == old(sounds) + Heard(hasSound, [Play("door")])
    {
      phase := Escape;
      escapeStartTime := t;
      escapeOverlayUntil := t + 3500;
      sounds := sounds + Heard(hasSound, [Play("door")]);
    }

    /** The end of an ESCAPE tick: VICTORY once the escape has lasted
        ESCAPE_DURATION, recording the time from COLLECT; then, with no
        else, GAMEOVER when HP is gone, overriding a same-tick VICTORY. */
    method Settle(t: int)
      requires Valid() && phase == Escape
      modifies this`phase, this`victoryStartTime, this`finalTime, this`sounds
      ensures Valid()
      ensures phase == NextPhase(Escape, false, t, 0, escapeStartTime, playerHP)
      ensures t - escapeStartTime >= ESCAPE_DURATION ==> victoryStartTime == t && finalTime == Some(t - startTime)
      ensures t - escapeStartTime < ESCAPE_DURATION ==>
                victoryStartTime == old(victoryStartTime) && finalTime == old(finalTime)
      ensures sounds == old(sounds) + Heard(hasSound, SettleCalls(t - escapeStartTime >= ESCAPE_DURATION, playerHP <= 0))
    {
      var over := t - escapeStartTime >= ESCAPE_DURATION;
      var dead := playerHP <= 0;
      var heard := SettleCalls(over, dead);
      phase := if dead then GameOver else if over then Victory else Escape;
      if over {
        victoryStartTime, finalTime := t, Some(t - startTime);
      }
      sounds := sounds + Heard(hasSound, heard);
    }

    /** An ESCAPE tick of updatePhase: the enemies' turn, then the end
        checks. */
    method EscapeTick(p: Point, t: int, trig: Trig)
      requires Valid() && phase == Escape
      modifies this`phase, this`victoryStartTime, this`finalTime, this`catsBetrayed, this`witchGirlAttacking,
               this`enemies, this`magicAttacks, this`playerHP, this`lastDamageTime, this`sounds
      ensures Valid()
      ensures phase == NextPhase(Escape, false, t, 0, escapeStartTime, playerHP)
      ensures t - escapeStartTime >= ESCAPE_DURATION ==> victoryStartTime == t && finalTime == Some(t - startTime)
      ensures t - escapeStartTime < ESCAPE_DURATION ==>
                victoryStartTime == old(victoryStartTime) && finalTime == old(finalTime)
      ensures OneHitAtMost(old(Vit()), Vit(), t)
      ensures old(sounds) <= sounds
      ensures catsBetrayed == (old(catsBetrayed) || ESCAPE_DURATION - (t - escapeStartTime) <= 30000)
      ensures witchGirlAttacking == (old(witchGirlAttacking) || (t - escapeStartTime >= 10000 && guide.Some?))
      ensures var es := old(enemies) + Joining(cats, guide, catsBetrayed != old(catsBetrayed),
                                               witchGirlAttacking != old(witchGirlAttacking));
              |enemies| == |es| &&
              forall k :: 0 <= k < |es| ==>
                enemies[k] == Chased(g, es[k], k, p, t, SpeedMultiplier(t - escapeStartTime), trig)
      ensures var catsTurn, guideTurn := catsBetrayed != old(catsBetrayed), witchGirlAttacking != old(witchGirlAttacking);
              var r := EnemyTurn(g, old(enemies) + Joining(cats, guide, catsTurn, guideTurn), old(magicAttacks),
                                 old(Vit()), p, t, SpeedMultiplier(t - escapeStartTime), trig);
              enemies == r.moved && magicAttacks == r.magic && Vit() == r.vitals &&
              sounds == old(sounds) + Heard(hasSound, JoiningCalls(catsTurn, guideTurn) + r.calls) +
                        Heard(hasSound, SettleCalls(t - escapeStartTime >= ESCAPE_DURATION, playerHP <= 0))
    {
      UpdateEnemies(p, t, trig);
      ghost var s1 := sounds;
      Settle(t);
      HeardExtends(s1, hasSound, SettleCalls(t - escapeStartTime >= ESCAPE_DURATION, playerHP <= 0));
    }

    /** The INTRO, RETURN and BETRAYAL cases of updatePhase: reaching the
        guide starts COLLECT or unmasks her, and the betrayal message
        running out starts the escape; otherwise nothing changes. */
    method Advance(t: int, p: Point)
      requires Valid() && guide.Some? && !Terminal(phase) && phase != Escape
      modifies this`phase, this`startTime, this`introMessageUntil, this`betrayalMessageUntil,
               this`escapeStartTime, this`escapeOverlayUntil, this`sounds
      ensures Valid()
      ensures phase == NextPhase(old(phase), Within(guide.value, p, TALK_REACH_SQ), t,
                                 old(betrayalMessageUntil), old(escapeStartTime), playerHP)
      ensures Stage(old(phase)) <= Stage(phase)
      ensures old(phase) == Intro && phase == Collect ==> startTime == t && introMessageUntil == t + 2000
      ensures old(phase) != Intro || phase != Collect ==>
                startTime == old(startTime) && introMessageUntil == old(introMessageUntil)
      ensures betrayalMessageUntil == if old(phase) == Return && phase == Betrayal then t + 3000
                                      else old(betrayalMessageUntil)
      ensures old(phase) == Betrayal && phase == Escape ==> escapeStartTime == t && escapeOverlayUntil == t + 3500
      ensures old(phase) != Betrayal || phase != Escape ==>
                escapeStartTime == old(escapeStartTime) && escapeOverlayUntil == old(escapeOverlayUntil)
      ensures sounds == old(sounds) + Heard(hasSound, if phase == old(phase) then []
                                                      else if phase == Betrayal then [Play("ghost")]
                                                      else [Play("door")])
    {
      var near := Within(guide.value, p, TALK_REACH_SQ);
      if phase == Intro {
        if near {
          MeetGuide(t);
        }
      } else if phase == Return {
        if near {
          Unmask(t);
        }
      } else if phase == Betrayal {
        if t >= betrayalMessageUntil {
          BeginEscape(t);
        }
      }
      PhaseForward(old(phase), near, t, old(betrayalMessageUntil), old(escapeStartTime), playerHP);
    }

    /** updatePhase: nothing without a guide; otherwise the phase the guide's
        distance, the clock and the HP after the enemies' turn call for,
        with the times and sounds of each transition. */
    method UpdatePhase(t: int, p: Point, trig: Trig)
      requires Valid()
      modifies this`phase, this`startTime, this`introMessageUntil, this`betrayalMessageUntil,
               this`escapeStartTime, this`escapeOverlayUntil, this`victoryStartTime, this`finalTime,
               this`catsBetrayed, this`witchGirlAttacking, this`enemies, this`magicAttacks, this`playerHP,
               this`lastDamageTime, this`sounds
      ensures Valid()
      ensures guide.None? || Terminal(old(phase)) ==> unchanged(this)
      ensures Stage(old(phase)) <= Stage(phase)
      ensures guide.Some? ==>
                phase == NextPhase(old(phase), Within(guide.value, p, TALK_REACH_SQ), t,
                                   old(betrayalMessageUntil), old(escapeStartTime), playerHP)
      ensures old(phase) != Escape ==> unchanged(this`catsBetrayed, this`witchGirlAttacking, this`enemies,
                                                 this`magicAttacks, this`playerHP, this`lastDamageTime)
      ensures old(phase) != Escape ==> victoryStartTime == old(victoryStartTime) && finalTime == old(finalTime)
      ensures old(phase) == Intro && phase == Collect ==> startTime == t && introMessageUntil == t + 2000
      ensures old(phase) != Intro || phase != Collect ==>
                startTime == old(startTime) && introMessageUntil == old(introMessageUntil)
      ensures betrayalMessageUntil == if old(phase) == Return && phase == Betrayal then t + 3000
                                      else old(betrayalMessageUntil)
      ensures old(phase) == Betrayal && phase == Escape ==> escapeStartTime == t && escapeOverlayUntil == t + 3500
      ensures old(phase) != Betrayal || phase != Escape ==>
                escapeStartTime == old(escapeStartTime) && escapeOverlayUntil == old(escapeOverlayUntil)
      ensures guide.Some? && old(phase) == Escape && t - escapeStartTime >= ESCAPE_DURATION ==>
                victoryStartTime == t && finalTime == Some(t - startTime)
      ensures old(phase) == Escape ==> OneHitAtMost(old(Vit()), Vit(), t)
      ensures old(sounds) <= sounds
      ensures guide.Some? && old(phase) == Escape ==>
                catsBetrayed == (old(catsBetrayed) || ESCAPE_DURATION - (t - escapeStartTime) <= 30000) &&
                witchGirlAttacking == (old(witchGirlAttacking) || t - escapeStartTime >= 10000)
      ensures guide.Some? && old(phase) == Escape ==>
                var es := old(enemies) + Joining(cats, guide, catsBetrayed != old(catsBetrayed),
                                                 witchGirlAttacking != old(witchGirlAttacking));
                |enemies| == |es| &&
                forall k :: 0 <= k < |es| ==>
                  enemies[k] == Chased(g, es[k], k, p, t, SpeedMultiplier(t - escapeStartTime), trig)
      ensures guide.Some? && old(phase) == Escape ==>
                var catsTurn, guideTurn := catsBetrayed != old(catsBetrayed), witchGirlAttacking != old(witchGirlAttacking);
                var r := EnemyTurn(g, old(enemies) + Joining(cats, guide, catsTurn, guideTurn), old(magicAttacks),
                                   old(Vit()), p, t, SpeedMultiplier(t - escapeStartTime), trig);
                enemies == r.moved && magicAttacks == r.magic && Vit() == r.vitals &&
                sounds == old(sounds) + Heard(hasSound, JoiningCalls(catsTurn, guideTurn) + r.calls) +
                          Heard(hasSound, SettleCalls(t - escapeStartTime >= ESCAPE_DURATION, playerHP <= 0))
    {
      if guide.None? || Terminal(phase) {
        return;
      }
      if phase == Escape {
        EscapeTick(p, t, trig);
      } else {
        Advance(t, p);
      }
    }

    /** The pumpkin block of gameLoop, during COLLECT: the set grows by
        the cells of the pumpkins taken, the phase is RETURN exactly when
        the set has reached the total, and "pumpkin" (then "jump" once
        full) plays per pumpkin. */
    method CollectPumpkins(p: Point, t: int)
      requires Valid() && phase == Collect
      modifies this`collectedPumpkins, this`phase, this`returnOverlayUntil, this`sounds
      ensures Valid()
      ensures var k := Taken(old(collectedPumpkins), pumpkins, |pumpkins|, p, PICKUP_REACH_SQ);
              collectedPumpkins == old(collectedPumpkins) + KeysOf(k) &&
              |collectedPumpkins| == |old(collectedPumpkins)| + |k|
      ensures phase == if |collectedPumpkins| >= TOTAL_PUMPKINS then Return else Collect
      ensures returnOverlayUntil == if phase == Return then t + 3500 else old(returnOverlayUntil)
      ensures var k := Taken(old(collectedPumpkins), pumpkins, |pumpkins|, p, PICKUP_REACH_SQ);
              sounds == old(sounds) + Heard(hasSound, PumpkinCalls(|old(collectedPumpkins)|, |k|))
    {
      var a := GatherPumpkins(PumpkinSweep(collectedPumpkins, phase, returnOverlayUntil, []), pumpkins, p, t);
      collectedPumpkins, phase, returnOverlayUntil, sounds :=
        a.collected, a.phase, a.returnOverlayUntil, sounds + Heard(hasSound, a.calls);
    }

    /** The lantern block of gameLoop, during ESCAPE below the maximum. */
    method HealAtLanterns(p: Point)
      requires playerHP <= MAX_HP
      modifies this`collectedLanterns, this`playerHP, this`sounds
      ensures var k := Taken(old(collectedLanterns), lanterns, |lanterns|, p, PICKUP_REACH_SQ);
              collectedLanterns == old(collectedLanterns) + KeysOf(k) &&
              playerHP == (if old(playerHP) + |k| <= MAX_HP then old(playerHP) + |k| else MAX_HP) &&
              sounds == old(sounds) + Heard(hasSound, Repeat(Play("heal"), |k|))
    {
      var a := UseLanterns(LanternSweep(collectedLanterns, playerHP, []), lanterns, p);
      collectedLanterns, playerHP, sounds := a.collected, a.hp, sounds + Heard(hasSound, a.calls);
    }

    /** The bat block of gameLoop, during ESCAPE. */
    method ExplodeBats(p: Point, t: int)
      modifies this`explodedBats, this`explosions, this`playerHP, this`lastDamageTime, this`sounds
      ensures var k := Taken(old(explodedBats), bats, |bats|, p, BAT_REACH_SQ);
              explodedBats == old(explodedBats) + KeysOf(k) &&
              explosions == old(explosions) + Explosions(k, t) &&
              Vit() == (if |k| > 0 then Damaged(old(Vit()), t) else old(Vit())) &&
              sounds == old(sounds) + Heard(hasSound, Repeat(Play("explosion"), |k|))
    {
      var a := BlowBats(BatSweep(explodedBats, explosions, Vit(), []), bats, p, t);
      explodedBats, explosions, playerHP, lastDamageTime, sounds :=
        a.exploded, a.explosions, a.vitals.hp, a.vitals.lastDamage, sounds + Heard(hasSound, a.calls);
    }

    /** The pickup blocks of a gameLoop call with the player at q: the
        pumpkin block during COLLECT, the lantern block during ESCAPE
        below the maximum, the bat block during ESCAPE. */
    method Pickups(t: int, q: Point)
      requires Valid()
      modifies this`phase, this`playerHP, this`lastDamageTime, this`sounds, this`collectedPumpkins,
               this`returnOverlayUntil, this`collectedLanterns, this`explodedBats, this`explosions
      ensures Valid()
      ensures old(phase) != Collect ==> phase == old(phase)
      ensures old(phase) == Collect ==> phase == Collect || phase == Return
      ensures old(phase) != Collect && old(phase) != Escape ==> unchanged(this)
      ensures OneHitAtMost(old(Vit()), Vit(), t)
      ensures old(sounds) <= sounds
      ensures old(phase) == Collect ==>
                var k := Taken(old(collectedPumpkins), pumpkins, |pumpkins|, q, PICKUP_REACH_SQ);
                collectedPumpkins == old(collectedPumpkins) + KeysOf(k) &&
                phase == (if |collectedPumpkins| >= TOTAL_PUMPKINS then Return else Collect) &&
                returnOverlayUntil == (if phase == Return then t + 3500 else old(returnOverlayUntil)) &&
                sounds == old(sounds) + Heard(hasSound, PumpkinCalls(|old(collectedPumpkins)|, |k|))
      ensures old(phase) != Collect ==>
                collectedPumpkins == old(collectedPumpkins) && returnOverlayUntil == old(returnOverlayUntil)
      ensures old(phase) == Escape && old(playerHP) < MAX_HP ==>
                collectedLanterns == old(collectedLanterns) +
                                     KeysOf(Taken(old(collectedLanterns), lanterns, |lanterns|, q, PICKUP_REACH_SQ))
      ensures old(phase) != Escape || old(playerHP) >= MAX_HP ==> collectedLanterns == old(collectedLanterns)
      ensures old(phase) == Escape ==>
                var healed := if old(playerHP) < MAX_HP
                              then |Taken(old(collectedLanterns), lanterns, |lanterns|, q, PICKUP_REACH_SQ)| else 0;
                var hp := if old(playerHP) + healed <= MAX_HP then old(playerHP) + healed else MAX_HP;
                var k := Taken(old(explodedBats), bats, |bats|, q, BAT_REACH_SQ);
                explodedBats == old(explodedBats) + KeysOf(k) &&
                explosions == old(explosions) + Explosions(k, t) &&
                Vit() == (if |k| > 0 then Damaged(Vitals(hp, old(lastDamageTime)), t) else Vitals(hp, old(lastDamageTime))) &&
                sounds == old(sounds) + Heard(hasSound, Repeat(Play("heal"), healed)) +
                          Heard(hasSound, Repeat(Play("explosion"), |k|))
      ensures old(phase) != Escape ==> explodedBats == old(explodedBats) && explosions == old(explosions)
    {
      if phase == Collect {
        ghost var c1 := collectedPumpkins;
        CollectPumpkins(q, t);
        HeardExtends(old(sounds), hasSound, PumpkinCalls(|c1|, |Taken(c1, pumpkins, |pumpkins|, q, PICKUP_REACH_SQ)|));
      } else if phase == Escape {
        EscapePickups(t, q);
      }
    }

    /** The ESCAPE pickup blocks of gameLoop: the lantern block below the
        maximum HP, then the bat block. */
    method EscapePickups(t: int, q: Point)
      requires Valid() && phase == Escape
      modifies this`playerHP, this`lastDamageTime, this`sounds, this`collectedLanterns, this`explodedBats,
               this`explosions
      ensures Valid()
      ensures OneHitAtMost(old(Vit()), Vit(), t)
      ensures old(sounds) <= sounds
      ensures old(playerHP) < MAX_HP ==>
                collectedLanterns == old(collectedLanterns) +
                                     KeysOf(Taken(old(collectedLanterns), lanterns, |lanterns|, q, PICKUP_REACH_SQ))
      ensures old(playerHP) >= MAX_HP ==> collectedLanterns == old(collectedLanterns)
      ensures var healed := if old(playerHP) < MAX_HP
                            then |Taken(old(collectedLanterns), lanterns, |lanterns|, q, PICKUP_REACH_SQ)| else 0;
              var hp := if old(playerHP) + healed <= MAX_HP then old(playerHP) + healed else MAX_HP;
              var k := Taken(old(explodedBats), bats, |bats|, q, BAT_REACH_SQ);
              explodedBats == old(explodedBats) + KeysOf(k) &&
              explosions == old(explosions) + Explosions(k, t) &&
              Vit() == (if |k| > 0 then Damaged(Vitals(hp, old(lastDamageTime)), t) else Vitals(hp, old(lastDamageTime))) &&
              sounds == old(sounds) + Heard(hasSound, Repeat(Play("heal"), healed)) +
                        Heard(hasSound, Repeat(Play("explosion"), |k|))
    {
      ghost var s1 := sounds;
      if playerHP < MAX_HP {
        ghost var c2 := collectedLanterns;
        HealAtLanterns(q);
        HeardExtends(s1, hasSound, Repeat(Play("heal"), |Taken(c2, lanterns, |lanterns|, q, PICKUP_REACH_SQ)|));
      }
      ghost var s3, c3 := sounds, explodedBats;
      ghost var v2 := Vit();
      ExplodeBats(q, t);
      HeardExtends(s3, hasSound, Repeat(Play("explosion"), |Taken(c3, bats, |bats|, q, BAT_REACH_SQ)|));
      DamagedOneHit(v2, t);
      OneHitCompose(old(Vit()), v2, Vit(), t);
    }

    /** The footstep block of gameLoop: a footstep request when the player
        moved by more than 0.01 outside GAMEOVER; the last position
        becomes q. */
    method Walk(q: Point)
      requires Valid()
      modifies this`sounds, this`lastPlayerX, this`lastPlayerY
      ensures Valid()
      ensures lastPlayerX == q.x && lastPlayerY == q.y
      ensures sounds == old(sounds) + Heard(hasSound, if Moved(Point(old(lastPlayerX), old(lastPlayerY)), q) && phase != GameOver then [Footstep] else [])
    {
      var step := if Moved(Point(lastPlayerX, lastPlayerY), q) && phase != GameOver then [Footstep] else [];
      sounds, lastPlayerX, lastPlayerY := sounds + Heard(hasSound, step), q.x, q.y;
    }

    /** The player part of a gameLoop call, the player being at q: the
        footstep request when the player moved by more than 0.01 outside
        GAMEOVER, then updatePhase and the pickup blocks. */
    method Step(t: int, q: Point, trig: Trig)
      requires Valid()
      modifies this`phase, this`startTime, this`introMessageUntil, this`betrayalMessageUntil,
               this`escapeStartTime, this`escapeOverlayUntil, this`victoryStartTime, this`finalTime,
               this`catsBetrayed, this`witchGirlAttacking, this`enemies, this`magicAttacks, this`playerHP,
               this`lastDamageTime, this`sounds, this`collectedPumpkins, this`returnOverlayUntil,
               this`collectedLanterns, this`explodedBats, this`explosions, this`lastPlayerX, this`lastPlayerY
      ensures Valid()
      ensures lastPlayerX == q.x && lastPlayerY == q.y
      ensures Stage(old(phase)) <= Stage(phase)
      ensures Terminal(old(phase)) ==> phase == old(phase) && Vit() == old(Vit())
      ensures OneHitAtMost(old(Vit()), Vit(), t)
      ensures hasSound && old(phase) != GameOver && Moved(Point(old(lastPlayerX), old(lastPlayerY)), q) ==>
                |sounds| > |old(sounds)| && sounds[|old(sounds)|] == Footstep
      ensures old(sounds) <= sounds
      ensures old(phase) != Intro && old(phase) != Collect ==>
                collectedPumpkins == old(collectedPumpkins) && returnOverlayUntil == old(returnOverlayUntil)
      ensures old(phase) == Collect ==>
                var k := Taken(old(collectedPumpkins), pumpkins, |pumpkins|, q, PICKUP_REACH_SQ);
                collectedPumpkins == old(collectedPumpkins) + KeysOf(k) &&
                phase == (if |collectedPumpkins| >= TOTAL_PUMPKINS then Return else Collect)
      ensures (old(phase) != Betrayal && old(phase) != Escape) || Terminal(phase) ==>
                collectedLanterns == old(collectedLanterns) && explodedBats == old(explodedBats) &&
                explosions == old(explosions)
    {
      Walk(q);
      ghost var s1 := sounds;
      Progress(t, q, trig);
      assert old(sounds) <= s1 <= sounds;
    }

    /** updatePhase, then the pickup blocks for the phase it leaves. */
    method Progress(t: int, q: Point, trig: Trig)
      requires Valid()
      modifies this`phase, this`startTime, this`introMessageUntil, this`betrayalMessageUntil,
               this`escapeStartTime, this`escapeOverlayUntil, this`victoryStartTime, this`finalTime,
               this`catsBetrayed, this`witchGirlAttacking, this`enemies, this`magicAttacks, this`playerHP,
               this`lastDamageTime, this`sounds, this`collectedPumpkins, this`returnOverlayUntil,
               this`collectedLanterns, this`explodedBats, this`explosions
      ensures Valid()
      ensures Stage(old(phase)) <= Stage(phase)
      ensures Terminal(old(phase)) ==> phase == old(phase) && Vit() == old(Vit())
      ensures OneHitAtMost(old(Vit()), Vit(), t)
      ensures old(sounds) <= sounds
      ensures old(phase) != Intro && old(phase) != Collect ==>
                collectedPumpkins == old(collectedPumpkins) && returnOverlayUntil == old(returnOverlayUntil)
      ensures old(phase) == Collect ==>
                var k := Taken(old(collectedPumpkins), pumpkins, |pumpkins|, q, PICKUP_REACH_SQ);
                collectedPumpkins == old(collectedPumpkins) + KeysOf(k) &&
                phase == (if |collectedPumpkins| >= TOTAL_PUMPKINS then Return else Collect)
      ensures (old(phase) != Betrayal && old(phase) != Escape) || Terminal(phase) ==>
                collectedLanterns == old(collectedLanterns) && explodedBats == old(explodedBats) &&
                explosions == old(explosions)
    {
      if guide.Some? && phase == Escape {
        EscapeProgress(t, q, trig);
      } else {
        ghost var v0 := Vit();
        UpdatePhase(t, q, trig);
        ghost var v1 := Vit();
        assert old(phase) == Collect ==> phase == Collect;
        Pickups(t, q);
        OneHitCompose(v0, v1, Vit(), t);
      }
    }

    /** Progress during ESCAPE: updatePhase (the enemies' turn and the end
        checks), then the pickup blocks, which run only if the escape goes
        on. */
    method EscapeProgress(t: int, q: Point, trig: Trig)
      requires Valid() && guide.Some? && phase == Escape
      modifies this`phase, this`startTime, this`introMessageUntil, this`betrayalMessageUntil,
               this`escapeStartTime, this`escapeOverlayUntil, this`victoryStartTime, this`finalTime,
               this`catsBetrayed, this`witchGirlAttacking, this`enemies, this`magicAttacks, this`playerHP,
               this`lastDamageTime, this`sounds, this`collectedPumpkins, this`returnOverlayUntil,
               this`collectedLanterns, this`explodedBats, this`explosions
      ensures Valid()
      ensures Stage(Escape) <= Stage(phase)
      ensures OneHitAtMost(old(Vit()), Vit(), t)
      ensures old(sounds) <= sounds
      ensures collectedPumpkins == old(collectedPumpkins) && returnOverlayUntil == old(returnOverlayUntil)
      ensures Terminal(phase) ==>
                collectedLanterns == old(collectedLanterns) && explodedBats == old(explodedBats) &&
                explosions == old(explosions)
    {
      ghost var v0 := Vit();
      UpdatePhase(t, q, trig);
      ghost var v1 := Vit();
      Pickups(t, q);
      OneHitCompose(v0, v1, Vit(), t);
    }

    /** The render throttle: render iff FRAME_INTERVAL has passed since
        the last render, which then moves to t. */
    method Throttle(t: int) returns (rendered: bool)
      modifies this`lastRenderTime
      ensures rendered == (t - old(lastRenderTime) >= FRAME_INTERVAL)
      ensures lastRenderTime == if rendered then t else old(lastRenderTime)
    {
      rendered := t - lastRenderTime >= FRAME_INTERVAL;
      if rendered {
        lastRenderTime := t;
      }
    }

    /** One call of gameLoop at time t, `player` being where the input
        system left the player (None when there is no player entity): the
        player part, then the render throttle; the simulation runs on
        every call, the render only when the throttle allows. A render
        with a player drops the explosions 600 ms old or more at `now`,
        standing for the performance.now read by the render. */
    method Tick(t: int, now: int, player: Option<Point>, trig: Trig) returns (rendered: bool)
      requires Valid()
      modifies this
      ensures Valid()
      ensures rendered == (t - old(lastRenderTime) >= FRAME_INTERVAL)
      ensures lastRenderTime == if rendered then t else old(lastRenderTime)
      ensures player.None? ==> unchanged(this`phase, this`startTime, this`introMessageUntil, this`betrayalMessageUntil,
                                         this`escapeStartTime, this`escapeOverlayUntil, this`victoryStartTime,
                                         this`finalTime, this`catsBetrayed, this`witchGirlAttacking, this`enemies,
                                         this`magicAttacks, this`playerHP, this`lastDamageTime, this`sounds,
                                         this`collectedPumpkins, this`returnOverlayUntil, this`collectedLanterns,
                                         this`explodedBats, this`explosions, this`lastPlayerX, this`lastPlayerY)
      ensures player.Some? ==> lastPlayerX == player.value.x && lastPlayerY == player.value.y
      ensures Stage(old(phase)) <= Stage(phase)
      ensures Terminal(old(phase)) ==> phase == old(phase) && Vit() == old(Vit())
      ensures OneHitAtMost(old(Vit()), Vit(), t)
      ensures player.Some? && hasSound && old(phase) != GameOver && Moved(Point(old(lastPlayerX), old(lastPlayerY)), player.value) ==>
                |sounds| > |old(sounds)| && sounds[|old(sounds)|] == Footstep
      ensures old(sounds) <= sounds
      ensures old(phase) != Intro && old(phase) != Collect ==>
                collectedPumpkins == old(collectedPumpkins) && returnOverlayUntil == old(returnOverlayUntil)
      ensures player.Some? && old(phase) == Collect ==>
                var k := Taken(old(collectedPumpkins), pumpkins, |pumpkins|, player.value, PICKUP_REACH_SQ);
                collectedPumpkins == old(collectedPumpkins) + KeysOf(k) &&
                phase == (if |collectedPumpkins| >= TOTAL_PUMPKINS then Return else Collect)
      ensures (old(phase) != Betrayal && old(phase) != Escape) || Terminal(phase) ==>
                collectedLanterns == old(collectedLanterns) && explodedBats == old(explodedBats) &&
                explosions == if rendered && player.Some? then Recent(old(explosions), now) else old(explosions)
      ensures rendered && player.Some? ==>
                forall k :: 0 <= k < |explosions| ==> now - explosions[k].createdAt < EXPLOSION_LIFETIME
    {
      if player.Some? {
        Step(t, player.value, trig);
      }
      rendered := Throttle(t);
      if rendered && player.Some? {
        explosions := Recent(explosions, now);
        assert forall k :: 0 <= k < |explosions| ==> explosions[k] in explosions;
      }
    }
  }
}
