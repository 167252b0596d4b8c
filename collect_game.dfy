// The collection-only game of game-bitecs.js: fifteen pumpkins placed at
// random, a guide whose proximity starts the round once, a collection loop
// that runs while the round is started and not completed, footsteps and
// the render throttle.  It shares placement, the pickup order (`Taken`)
// and the sound requests with the halloween game.
module CollectGame {
  import opened Grid
  import Placement
  import opened HalloweenGame
  import opened HalloweenState

  const ALL_PUMPKINS: nat := 15            // totalPumpkins
  const INTRO_MESSAGE: int := 2000         // the guide's line after the start

  // ---------------------------------------------------------------------
  // The collection loop
  // ---------------------------------------------------------------------

  /** What the collection loop carries: the collected keys, the completion
      flag and the sound requests made so far. */
  datatype Haul = Haul(collected: set<Cell>, completed: bool, calls: seq<SoundCall>)

  /** One pumpkin: in reach with a new key it is collected ("pumpkin"), and
      a set that has reached the total completes the round ("jump").  The
      completion flag is only checked before the loop, so the loop goes on
      after it is set. */
  function HaulStep(a: Haul, c: Cell, p: Point): Haul
  {
    if c !in a.collected && Within(Center(c), p, PICKUP_REACH_SQ) then
      var s := a.collected + {c};
      if |s| >= ALL_PUMPKINS then Haul(s, true, a.calls + [Play("pumpkin"), Play("jump")])
      else a.(collected := s, calls := a.calls + [Play("pumpkin")])
    else a
  }

  /** The collection loop over cs[..n]. */
  function HaulLoop(a: Haul, cs: seq<Cell>, n: nat, p: Point): Haul
    requires n <= |cs|
  {
    if n == 0 then a else HaulStep(HaulLoop(a, cs, n - 1, p), cs[n - 1], p)
  }

  /** The sounds of m pickups, `before` pumpkins having been collected. */
  function CollectCalls(before: nat, m: nat): seq<SoundCall>
  {
    if m == 0 then []
    else
      CollectCalls(before, m - 1) + PumpkinNote(before + m >= ALL_PUMPKINS)
  }

  lemma HaulStepSpec(a: Haul, c: Cell, p: Point, take: bool, full: bool)
    requires take == (c !in a.collected && Within(Center(c), p, PICKUP_REACH_SQ))
    requires full == (|a.collected + {c}| >= ALL_PUMPKINS)
    ensures var r := HaulStep(a, c, p);
            r.collected == (if take then a.collected + {c} else a.collected) &&
            r.completed == (a.completed || (take && full)) &&
            r.calls == if take then a.calls + PumpkinNote(full) else a.calls
  {
  }

  lemma HaulKeysStep(a: Haul, cs: seq<Cell>, n: nat, p: Point)
    requires 0 < n <= |cs|
    requires HaulLoop(a, cs, n - 1, p).collected == a.collected + KeysOf(Taken(a.collected, cs, n - 1, p, PICKUP_REACH_SQ))
    ensures HaulLoop(a, cs, n, p).collected == a.collected + KeysOf(Taken(a.collected, cs, n, p, PICKUP_REACH_SQ))
  {
    var r := HaulLoop(a, cs, n - 1, p);
    var c := cs[n - 1];
    HaulStepSpec(r, c, p, c !in r.collected && Within(Center(c), p, PICKUP_REACH_SQ), |r.collected + {c}| >= ALL_PUMPKINS);
    TakenStep(a.collected, cs, n, p, PICKUP_REACH_SQ);
    KeysOfSnoc(Taken(a.collected, cs, n - 1, p, PICKUP_REACH_SQ), c);
  }

  /** The loop collects the keys of exactly the pumpkins `Taken` picks. */
  lemma {:induction false} HaulLoopKeys(a: Haul, cs: seq<Cell>, n: nat, p: Point)
    requires n <= |cs|
    ensures HaulLoop(a, cs, n, p).collected == a.collected + KeysOf(Taken(a.collected, cs, n, p, PICKUP_REACH_SQ))
    decreases n
  {
    if n > 0 {
      HaulLoopKeys(a, cs, n - 1, p);
      HaulKeysStep(a, cs, n, p);
    } else {
      assert KeysOf([]) == {};
    }
  }

  /** What the rest of the loop lemmas need of the set collected so far:
      its size and whether it holds a given key. */
  lemma HaulLoopHolds(a: Haul, cs: seq<Cell>, n: nat, p: Point, c: Cell)
    requires n <= |cs|
    ensures var k := Taken(a.collected, cs, n, p, PICKUP_REACH_SQ);
            var r := HaulLoop(a, cs, n, p);
            |r.collected| == |a.collected| + |k| &&
            (c in r.collected <==> c in a.collected + KeysOf(k))
  {
    HaulLoopKeys(a, cs, n, p);
    TakenCount(a.collected, cs, n, p, PICKUP_REACH_SQ);
  }

  /** The step at cs[n - 1], in terms of what the loop took before it. */
  lemma HaulLoopStep(a: Haul, cs: seq<Cell>, n: nat, p: Point)
    requires 0 < n <= |cs|
    ensures var r := HaulLoop(a, cs, n - 1, p);
            var m := |Taken(a.collected, cs, n - 1, p, PICKUP_REACH_SQ)|;
            var c := cs[n - 1];
            var take := c !in r.collected && Within(Center(c), p, PICKUP_REACH_SQ);
            var full := |a.collected| + m + 1 >= ALL_PUMPKINS;
            var r' := HaulLoop(a, cs, n, p);
            |Taken(a.collected, cs, n, p, PICKUP_REACH_SQ)| == (if take then m + 1 else m) &&
            r'.completed == (r.completed || (take && full)) &&
            r'.calls == if take then r.calls + PumpkinNote(full) else r.calls
  {
    var r := HaulLoop(a, cs, n - 1, p);
    var c := cs[n - 1];
    HaulLoopHolds(a, cs, n - 1, p, c);
    TakenStep(a.collected, cs, n, p, PICKUP_REACH_SQ);
    CardPlusOne(r.collected, c);
    HaulStepSpec(r, c, p, c !in r.collected && Within(Center(c), p, PICKUP_REACH_SQ),
                 |r.collected + {c}| >= ALL_PUMPKINS);
  }

  /** It completes the round iff it was completed or it took a pumpkin and
      the set reached the total. */
  lemma {:induction false} HaulLoopDone(a: Haul, cs: seq<Cell>, n: nat, p: Point)
    requires n <= |cs|
    ensures var m := |Taken(a.collected, cs, n, p, PICKUP_REACH_SQ)|;
            HaulLoop(a, cs, n, p).completed == (a.completed || (m > 0 && |a.collected| + m >= ALL_PUMPKINS))
    decreases n
  {
    if n > 0 {
      HaulLoopDone(a, cs, n - 1, p);
      HaulLoopStep(a, cs, n, p);
    }
  }

  lemma HaulCallsStep(a: Haul, cs: seq<Cell>, n: nat, p: Point)
    requires 0 < n <= |cs|
    requires HaulLoop(a, cs, n - 1, p).calls ==
               a.calls + CollectCalls(|a.collected|, |Taken(a.collected, cs, n - 1, p, PICKUP_REACH_SQ)|)
    ensures HaulLoop(a, cs, n, p).calls ==
              a.calls + CollectCalls(|a.collected|, |Taken(a.collected, cs, n, p, PICKUP_REACH_SQ)|)
  {
    var m := |Taken(a.collected, cs, n - 1, p, PICKUP_REACH_SQ)|;
    var c := cs[n - 1];
    var take := c !in HaulLoop(a, cs, n - 1, p).collected && Within(Center(c), p, PICKUP_REACH_SQ);
    HaulLoopStep(a, cs, n, p);
    if take {
      var note := PumpkinNote(|a.collected| + m + 1 >= ALL_PUMPKINS);
      assert a.calls + CollectCalls(|a.collected|, m) + note == a.calls + (CollectCalls(|a.collected|, m) + note);
    }
  }

  /** It requests one note per pickup, with "jump" after each pickup that
      leaves the total reached. */
  lemma {:induction false} HaulLoopCalls(a: Haul, cs: seq<Cell>, n: nat, p: Point)
    requires n <= |cs|
    ensures HaulLoop(a, cs, n, p).calls ==
              a.calls + CollectCalls(|a.collected|, |Taken(a.collected, cs, n, p, PICKUP_REACH_SQ)|)
    decreases n
  {
    if n > 0 {
      HaulLoopCalls(a, cs, n - 1, p);
      HaulCallsStep(a, cs, n, p);
    } else {
      assert a.calls + [] == a.calls;
    }
  }

  /** A second loop at the same position collects nothing and requests
      nothing: collection is idempotent. */
  lemma HaulAgain(a: Haul, cs: seq<Cell>, p: Point)
    ensures var r := HaulLoop(a, cs, |cs|, p);
            HaulLoop(r, cs, |cs|, p) == r
  {
    var r := HaulLoop(a, cs, |cs|, p);
    HaulLoopKeys(a, cs, |cs|, p);
    TakenAgain(a.collected, cs, |cs|, p, PICKUP_REACH_SQ);
    HaulLoopKeys(r, cs, |cs|, p);
    HaulLoopDone(r, cs, |cs|, p);
    HaulLoopCalls(r, cs, |cs|, p);
    assert KeysOf([]) == {};
    assert r.calls + [] == r.calls;
  }

  /** The pumpkin loop of gameLoop, on copies of the fields it changes. */
  method CollectAll(a0: Haul, cs: seq<Cell>, p: Point) returns (a: Haul)
    ensures var k := Taken(a0.collected, cs, |cs|, p, PICKUP_REACH_SQ);
            a.collected == a0.collected + KeysOf(k) && |a.collected| == |a0.collected| + |k|
    ensures var k := Taken(a0.collected, cs, |cs|, p, PICKUP_REACH_SQ);
            a.completed == (a0.completed || (|k| > 0 && |a0.collected| + |k| >= ALL_PUMPKINS))
    ensures a.calls == a0.calls + CollectCalls(|a0.collected|, |Taken(a0.collected, cs, |cs|, p, PICKUP_REACH_SQ)|)
  {
    var collected, completed, calls := a0.collected, a0.completed, a0.calls;
    var i := 0;
    while i < |cs|
      invariant 0 <= i <= |cs|
      invariant Haul(collected, completed, calls) == HaulLoop(a0, cs, i, p)
    {
      var c := cs[i];
      if c !in collected && Within(Center(c), p, PICKUP_REACH_SQ) {
        collected := collected + {c};
        calls := calls + [Play("pumpkin")];
        if |collected| >= ALL_PUMPKINS {
          completed := true;
          calls := calls + [Play("jump")];
        }
      }
      i := i + 1;
    }
    a := Haul(collected, completed, calls);
    HaulLoopKeys(a0, cs, |cs|, p);
    HaulLoopDone(a0, cs, |cs|, p);
    HaulLoopCalls(a0, cs, |cs|, p);
    TakenCount(a0.collected, cs, |cs|, p, PICKUP_REACH_SQ);
  }

  // ---------------------------------------------------------------------
  // The game state
  // ---------------------------------------------------------------------

  /** The `gameState` object of the collection game with the loop's own
      variables (last player position, last render time, the E-key latch). */
  class Session {
    const g: Map
    const hasSound: bool
    const pumpkins: seq<Cell>
    const guide: Option<Point>
    var collectedPumpkins: set<Cell>
    var startTime: int
    var gameCompleted: bool
    var gameStarted: bool
    var canTalk: bool
    var showTalkPrompt: bool
    var introMessageUntil: int
    var autoStartTriggered: bool
    var isEKeyPressed: bool
    var sounds: seq<SoundCall>
    var lastRenderTime: int
    var lastPlayerX: real
    var lastPlayerY: real

    /** `canTalk` is never set to true, so only the auto-start starts a
        round; nothing is collected before the start, and completion means
        that the total has been reached. */
    ghost predicate Valid()
      reads this
    {
      !canTalk &&
      (gameStarted <==> autoStartTriggered) &&
      (!gameStarted ==> collectedPumpkins == {}) &&
      (gameCompleted <==> |collectedPumpkins| >= ALL_PUMPKINS)
    }

    /** Setup: the pumpkins and the guide placed from the random draws
        `rs` and `r`, the player at `spawn`, nothing started. */
    constructor (g: Map, rs: seq<real>, r: real, spawn: Point, hasSound: bool)
      requires Rectangular(g) && ALL_PUMPKINS <= |rs| && Placement.Draws(rs) && 0.0 <= r < 1.0
      ensures Valid()
      ensures this.g == g && this.hasSound == hasSound
      ensures pumpkins == Placement.Draw(Placement.OpenInterior(g), rs, 0, ALL_PUMPKINS).0
      ensures guide == Placement.GuidePosition(Placement.Draw(Placement.OpenInterior(g), rs, 0, ALL_PUMPKINS).1, r)
      ensures collectedPumpkins == {} && startTime == 0 && !gameCompleted && !gameStarted
      ensures !canTalk && !showTalkPrompt && introMessageUntil == 0 && !autoStartTriggered && !isEKeyPressed
      ensures sounds == [] && lastRenderTime == 0 && lastPlayerX == spawn.x && lastPlayerY == spawn.y
    {
      var drawn, pk, placed, pool := Placement.PlacePumpkins(g, ALL_PUMPKINS, rs);
      this.g := g;
      this.hasSound := hasSound;
      pumpkins := drawn;
      guide := Placement.GuidePosition(pool, r);
      collectedPumpkins := {};
      startTime := 0;
      gameCompleted := false;
      gameStarted := false;
      canTalk := false;
      showTalkPrompt := false;
      introMessageUntil := 0;
      autoStartTriggered := false;
      isEKeyPressed := false;
      sounds := [];
      lastRenderTime := 0;
      lastPlayerX := spawn.x;
      lastPlayerY := spawn.y;
    }

    /** The E-key handler: it starts a round only when `canTalk` holds,
        which never happens, so it changes nothing. */
    method PressE(now: int)
      requires Valid()
      modifies this`isEKeyPressed, this`gameStarted, this`startTime, this`canTalk, this`showTalkPrompt, this`sounds
      ensures unchanged(this)
    {
      if !isEKeyPressed && canTalk && !gameStarted {
        assert false;
      }
    }

    /** The E-key release. */
    method ReleaseE()
      modifies this`isEKeyPressed
      ensures !isEKeyPressed
    {
      isEKeyPressed := false;
    }

    /** The guide check before the start: within 1.5 of the guide the
        round starts, once; the start time comes from `now`
        (performance.now) and the message deadline from `t`. */
    method Approach(p: Point, t: int, now: int)
      requires Valid()
      modifies this`gameStarted, this`autoStartTriggered, this`startTime, this`canTalk, this`showTalkPrompt,
               this`introMessageUntil, this`sounds
      ensures Valid()
      ensures var start := !old(gameStarted) && guide.Some? && Within(guide.value, p, TALK_REACH_SQ);
              gameStarted == (old(gameStarted) || start) &&
              startTime == (if start then now else old(startTime)) &&
              introMessageUntil == (if start then t + INTRO_MESSAGE else old(introMessageUntil)) &&
              sounds == old(sounds) + Heard(hasSound, if start then [Play("door")] else [])
      ensures !showTalkPrompt || showTalkPrompt == old(showTalkPrompt)
    {
      if !gameStarted && guide.Some? {
        if Within(guide.value, p, TALK_REACH_SQ) {
          if !autoStartTriggered {
            autoStartTriggered, gameStarted := true, true;
            startTime, canTalk, showTalkPrompt := now, false, false;
            introMessageUntil := t + INTRO_MESSAGE;
            sounds := sounds + Heard(hasSound, [Play("door")]);
          }
        } else {
          canTalk, showTalkPrompt := false, false;
        }
      }
    }

    /** The collection block: while the round is started and not completed,
        the pumpkin loop runs on the player's position. */
    method Gather(p: Point)
      requires Valid()
      modifies this`collectedPumpkins, this`gameCompleted, this`sounds
      ensures Valid()
      ensures var k := Taken(old(collectedPumpkins), pumpkins, |pumpkins|, p, PICKUP_REACH_SQ);
              gameStarted && !old(gameCompleted) ==>
                collectedPumpkins == old(collectedPumpkins) + KeysOf(k) &&
                sounds == old(sounds) + Heard(hasSound, CollectCalls(|old(collectedPumpkins)|, |k|))
      ensures !gameStarted || old(gameCompleted) ==> unchanged(this)
      ensures old(gameCompleted) ==> gameCompleted
    {
      if gameStarted && !gameCompleted {
        var a := CollectAll(Haul(collectedPumpkins, false, []), pumpkins, p);
        ghost var m := |Taken(collectedPumpkins, pumpkins, |pumpkins|, p, PICKUP_REACH_SQ)|;
        assert |collectedPumpkins| < ALL_PUMPKINS && |a.collected| == |collectedPumpkins| + m;
        assert a.completed <==> |a.collected| >= ALL_PUMPKINS;
        collectedPumpkins, gameCompleted := a.collected, a.completed;
        sounds := sounds + Heard(hasSound, a.calls);
      }
    }

    /** The footstep block: a footstep request when the player moved by
        more than 0.01; the last position becomes q. */
    method Walk(q: Point)
      modifies this`sounds, this`lastPlayerX, this`lastPlayerY
      ensures lastPlayerX == q.x && lastPlayerY == q.y
      ensures sounds == old(sounds) + Heard(hasSound, if Moved(Point(old(lastPlayerX), old(lastPlayerY)), q) then [Footstep] else [])
    {
      var step := if Moved(Point(lastPlayerX, lastPlayerY), q) then [Footstep] else [];
      sounds, lastPlayerX, lastPlayerY := sounds + Heard(hasSound, step), q.x, q.y;
    }

    /** The render throttle, as in the halloween game. */
    method Throttle(t: int) returns (rendered: bool)
      modifies this`lastRenderTime
      ensures rendered == (t - old(lastRenderTime) >= FRAME_INTERVAL)
      ensures lastRenderTime == if rendered then t else old(lastRenderTime)
    {
      rendered := t - lastRenderTime >= FRAME_INTERVAL;
      if rendered {
        lastRenderTime := t;
      }
    }

    /** One call of gameLoop at time t (`now` standing for
        performance.now), `player` being the player's position or None
        when there is no player entity: footsteps, the guide check and
        the collection, then the render throttle. */
    method Tick(t: int, now: int, player: Option<Point>) returns (rendered: bool)
      requires Valid()
      modifies this
      ensures Valid()
      ensures rendered == (t - old(lastRenderTime) >= FRAME_INTERVAL)
      ensures lastRenderTime == if rendered then t else old(lastRenderTime)
      ensures player.None? ==> unchanged(this`collectedPumpkins, this`startTime, this`gameCompleted, this`gameStarted,
                                         this`introMessageUntil, this`sounds, this`lastPlayerX, this`lastPlayerY)
      ensures player.Some? ==> lastPlayerX == player.value.x && lastPlayerY == player.value.y
      ensures old(gameStarted) ==> gameStarted && startTime == old(startTime)
      ensures old(collectedPumpkins) <= collectedPumpkins
      ensures old(gameCompleted) ==> gameCompleted && collectedPumpkins == old(collectedPumpkins)
      ensures old(sounds) <= sounds
    {
      if player.Some? {
        var q := player.value;
        Walk(q);
        ghost var s1 := sounds;
        Approach(q, t, now);
        ghost var s2 := sounds;
        Gather(q);
        assert old(sounds) <= s1 <= s2 <= sounds;
      }
      rendered := Throttle(t);
    }
  }
}
