// Pumpkin and guide placement, written identically in both games: the
// interior floor cells are collected row by row, each pumpkin takes the
// cell at a random index and removes it from the pool, and the guide
// (the witch girl) takes a random cell of what is left.  Math.random()
// draws are parameters, each in [0, 1).
module Placement {
  import opened Grid

  /** Every draw is a possible Math.random() result. */
  predicate Draws(rs: seq<real>)
  {
    forall k :: 0 <= k < |rs| ==> 0.0 <= rs[k] < 1.0
  }

  /** Math.floor(Math.random() * n): always a valid index. */
  function PickIndex(r: real, n: nat): (i: nat)
    requires 0.0 <= r < 1.0 && n > 0
    ensures i < n
  {
    var p := r * n as real;
    assert 0.0 <= p < n as real by {
      assert (1.0 - r) * n as real > 0.0;
    }
    p.Floor
  }

  /** Floor tiles. */
  predicate IsOpen(code: int)
  {
    code == 0
  }

  /** `emptySpaces`: the floor cells off the border, in row-major order. */
  function OpenInterior(g: Map): seq<Cell>
    requires Rectangular(g)
  {
    Scan(g, IsOpen, 1, Height(g) - 1, 1, Width(g) - 1)
  }

  predicate Interior(g: Map, c: Cell)
    requires Rectangular(g)
  {
    1 <= c.y < Height(g) - 1 && 1 <= c.x < Width(g) - 1
  }

  predicate Distinct(s: seq<Cell>)
  {
    forall i, j :: 0 <= i < j < |s| ==> s[i] != s[j]
  }

  /** The pool holds each interior floor cell exactly once. */
  lemma OpenInteriorSpec(g: Map)
    requires Rectangular(g)
    ensures forall c :: c in OpenInterior(g) <==> Interior(g, c) && g[c.y][c.x] == 0
    ensures Distinct(OpenInterior(g))
  {
    var cs := OpenInterior(g);
    ScanMembers(g, IsOpen, 1, Height(g) - 1, 1, Width(g) - 1);
    forall i, j | 0 <= i < j < |cs|
      ensures cs[i] != cs[j]
    {
      assert RowMajorBefore(cs[i], cs[j]);
    }
  }

  /** `emptySpaces.splice(i, 1)`. */
  function Splice(s: seq<Cell>, i: nat): (r: seq<Cell>)
    requires i < |s|
    ensures |r| == |s| - 1
  {
    s[..i] + s[i + 1..]
  }

  /** Splicing out one element keeps the rest, with multiplicities. */
  lemma SpliceSpec(s: seq<Cell>, i: nat)
    requires i < |s|
    ensures multiset(Splice(s, i)) + multiset{s[i]} == multiset(s)
    ensures Distinct(s) ==> Distinct(Splice(s, i)) && s[i] !in Splice(s, i)
  {
    assert s == s[..i] + [s[i]] + s[i + 1..];
    if Distinct(s) {
      var r := Splice(s, i);
      forall a, b | 0 <= a < b < |r|
        ensures r[a] != r[b]
      {
        var a', b' := if a < i then a else a + 1, if b < i then b else b + 1;
        assert r[a] == s[a'] && r[b] == s[b'];
      }
      forall k | 0 <= k < |r|
        ensures r[k] != s[i]
      {
        var k' := if k < i then k else k + 1;
        assert r[k] == s[k'];
      }
    }
  }

  /** The pumpkin loop on values, from loop index i: while i < total and
      the pool is not empty, draw i takes pool[floor(rs[i] * |pool|)] and
      splices it out.  Yields the chosen cells in draw order and the pool
      left over. */
  function Draw(pool: seq<Cell>, rs: seq<real>, i: nat, total: nat): (seq<Cell>, seq<Cell>)
    requires total <= |rs| && Draws(rs)
    decreases total - i
  {
    if i >= total || |pool| == 0 then ([], pool)
    else
      var k := PickIndex(rs[i], |pool|);
      var d := Draw(Splice(pool, k), rs, i + 1, total);
      ([pool[k]] + d.0, d.1)
  }

  function MinNat(a: nat, b: nat): nat
  {
    if a <= b then a else b
  }

  /** The draws from index i take min(total - i, |pool|) cells. */
  lemma {:induction false} DrawCount(pool: seq<Cell>, rs: seq<real>, i: nat, total: nat)
    requires i <= total <= |rs| && Draws(rs)
    ensures |Draw(pool, rs, i, total).0| == MinNat(total - i, |pool|)
    ensures |Draw(pool, rs, i, total).1| == |pool| - MinNat(total - i, |pool|)
    decreases total - i
  {
    if i < total && |pool| > 0 {
      var k := PickIndex(rs[i], |pool|);
      DrawCount(Splice(pool, k), rs, i + 1, total);
    }
  }

  /** Chosen and left-over cells together are exactly the pool. */
  lemma {:induction false} DrawPermutes(pool: seq<Cell>, rs: seq<real>, i: nat, total: nat)
    requires total <= |rs| && Draws(rs)
    ensures multiset(Draw(pool, rs, i, total).0) + multiset(Draw(pool, rs, i, total).1) == multiset(pool)
    decreases total - i
  {
    if i < total && |pool| > 0 {
      var k := PickIndex(rs[i], |pool|);
      var p' := Splice(pool, k);
      DrawPermutes(p', rs, i + 1, total);
      SpliceSpec(pool, k);
      var d := Draw(p', rs, i + 1, total);
      assert multiset([pool[k]] + d.0) == multiset{pool[k]} + multiset(d.0);
    }
  }

  lemma ConsDistinct(x: Cell, s: seq<Cell>)
    requires Distinct(s) && x !in s
    ensures Distinct([x] + s)
  {
    var cs := [x] + s;
    forall a, b | 0 <= a < b < |cs|
      ensures cs[a] != cs[b]
    {
      if a == 0 {
        assert cs[b] == s[b - 1] && s[b - 1] in s;
      } else {
        assert cs[a] == s[a - 1] && cs[b] == s[b - 1];
      }
    }
  }

  /** From a pool without repeats the draws are distinct and none of them
      is left in the pool. */
  lemma {:induction false} DrawDistinct(pool: seq<Cell>, rs: seq<real>, i: nat, total: nat)
    requires total <= |rs| && Draws(rs) && Distinct(pool)
    ensures Distinct(Draw(pool, rs, i, total).0)
    ensures forall c :: c in Draw(pool, rs, i, total).0 ==> c !in Draw(pool, rs, i, total).1
    decreases total - i
  {
    if i < total && |pool| > 0 {
      var k := PickIndex(rs[i], |pool|);
      var p' := Splice(pool, k);
      SpliceSpec(pool, k);
      DrawPermutes(p', rs, i + 1, total);
      var d := Draw(p', rs, i + 1, total);
      forall c | c in d.0 || c in d.1
        ensures c in p'
      {
        assert c in multiset(d.0) + multiset(d.1);
      }
      DrawDistinct(p', rs, i + 1, total);
      ConsDistinct(pool[k], d.0);
    }
  }

  /** The centres of the chosen cells (`{x: pos.x + 0.5, y: pos.y + 0.5}`). */
  function Centers(cs: seq<Cell>): (ps: seq<Point>)
    ensures |ps| == |cs|
  {
    if |cs| == 0 then [] else Centers(cs[..|cs| - 1]) + [Center(cs[|cs| - 1])]
  }

  /** Pumpkin k stands at the centre of chosen cell k, so its cell key is
      that cell. */
  lemma {:induction false} CentersAt(cs: seq<Cell>, k: nat)
    requires k < |cs|
    ensures Centers(cs)[k] == Center(cs[k])
    ensures CellOf(Centers(cs)[k]) == cs[k]
    decreases |cs|
  {
    if k < |cs| - 1 {
      CentersAt(cs[..|cs| - 1], k);
    }
  }

  lemma CentersSnoc(cs: seq<Cell>, c: Cell)
    ensures Centers(cs + [c]) == Centers(cs) + [Center(c)]
  {
    assert (cs + [c])[..|cs|] == cs;
  }

  /** The nested loop collecting emptySpaces followed by the pumpkin loop:
      the chosen cells in order, pumpkins at their centres,
      `placedPositions` holding them, and the pool left for the guide. */
  method PlacePumpkins(g: Map, total: nat, rs: seq<real>)
      returns (drawn: seq<Cell>, pumpkins: seq<Point>, placed: set<Cell>, pool: seq<Cell>)
    requires Rectangular(g) && total <= |rs| && Draws(rs)
    ensures drawn == Draw(OpenInterior(g), rs, 0, total).0
    ensures pumpkins == Centers(Draw(OpenInterior(g), rs, 0, total).0)
    ensures forall c :: c in placed <==> c in Draw(OpenInterior(g), rs, 0, total).0
    ensures pool == Draw(OpenInterior(g), rs, 0, total).1
  {
    var cells := ScanCells(g, IsOpen, 1, Height(g) - 1, 1, Width(g) - 1);
    drawn, pumpkins, placed, pool := DrawPumpkins(cells, rs, total);
  }

  /** The pumpkin loop over the pool `cells`. */
  method DrawPumpkins(cells: seq<Cell>, rs: seq<real>, total: nat)
      returns (drawn: seq<Cell>, pumpkins: seq<Point>, placed: set<Cell>, pool: seq<Cell>)
    requires total <= |rs| && Draws(rs)
    ensures drawn == Draw(cells, rs, 0, total).0
    ensures pumpkins == Centers(Draw(cells, rs, 0, total).0)
    ensures forall c :: c in placed <==> c in Draw(cells, rs, 0, total).0
    ensures pool == Draw(cells, rs, 0, total).1
  {
    pool := cells;
    pumpkins := [];
    placed := {};
    drawn := [];
    var i := 0;
    while i < total && |pool| > 0
      invariant 0 <= i <= total
      invariant pumpkins == Centers(drawn)
      invariant forall c :: c in placed <==> c in drawn
      invariant drawn + Draw(pool, rs, i, total).0 == Draw(cells, rs, 0, total).0
      invariant Draw(pool, rs, i, total).1 == Draw(cells, rs, 0, total).1
    {
      var k := PickIndex(rs[i], |pool|);
      var pos := pool[k];
      CentersSnoc(drawn, pos);
      pumpkins := pumpkins + [Center(pos)];
      placed := placed + {pos};
      pool := Splice(pool, k);
      drawn := drawn + [pos];
      i := i + 1;
    }
    assert Draw(pool, rs, i, total).0 == [];
    assert drawn + [] == drawn;
  }

  /** The guide's cell: a random cell of the pool, or none when it is empty. */
  function GuideCell(pool: seq<Cell>, r: real): (o: Option<Cell>)
    requires 0.0 <= r < 1.0
    ensures o.Some? <==> |pool| > 0
    ensures o.Some? ==> o.value in pool
  {
    if |pool| > 0 then Some(pool[PickIndex(r, |pool|)]) else None
  }

  /** `witchGirlPosition`: the centre of the guide's cell, or null. */
  function GuidePosition(pool: seq<Cell>, r: real): (o: Option<Point>)
    requires 0.0 <= r < 1.0
    ensures o.Some? <==> GuideCell(pool, r).Some?
    ensures o.Some? ==> CellOf(o.value) == GuideCell(pool, r).value
  {
    match GuideCell(pool, r)
    case None => None
    case Some(c) => Some(Center(c))
  }

  /** What placement guarantees: min(total, open interior cells) pumpkins
      on distinct interior floor cells; a guide exactly when cells remain,
      on an interior floor cell that holds no pumpkin. */
  lemma PlacementSpec(g: Map, total: nat, rs: seq<real>, r: real)
    requires Rectangular(g) && total <= |rs| && Draws(rs) && 0.0 <= r < 1.0
    ensures |Draw(OpenInterior(g), rs, 0, total).0| == MinNat(total, |OpenInterior(g)|)
    ensures forall c :: c in Draw(OpenInterior(g), rs, 0, total).0 ==> Interior(g, c) && g[c.y][c.x] == 0
    ensures Distinct(Draw(OpenInterior(g), rs, 0, total).0)
    ensures GuideCell(Draw(OpenInterior(g), rs, 0, total).1, r).Some? <==> |OpenInterior(g)| > total
    ensures GuideCell(Draw(OpenInterior(g), rs, 0, total).1, r).Some? ==>
              var c := GuideCell(Draw(OpenInterior(g), rs, 0, total).1, r).value;
              Interior(g, c) && g[c.y][c.x] == 0 && c !in Draw(OpenInterior(g), rs, 0, total).0
  {
    var pool := OpenInterior(g);
    OpenInteriorSpec(g);
    DrawCount(pool, rs, 0, total);
    DrawPermutes(pool, rs, 0, total);
    DrawDistinct(pool, rs, 0, total);
    var d := Draw(pool, rs, 0, total);
    forall c | c in d.0 || c in d.1
      ensures c in pool
    {
      assert c in multiset(d.0) + multiset(d.1);
    }
  }
}
