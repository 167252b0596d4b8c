// The small entity-component-system library: an entity registry whose
// ids come from a counter, a registry of named systems run in insertion
// order, and the numeric helpers clamp, lerp and map.
module Ecs {
  import opened Grid

  /** A component type name ('position', 'player', ...). */
  type ComponentType = string

  /** The components of one entity, by type. */
  type Components<D> = map<ComponentType, D>

  /** One element of a query result: the id and the entity's components. */
  datatype Entry<D> = Entry(id: int, components: Components<D>)

  /** getComponent's three outcomes: `null` for a missing entity,
      `undefined` for a missing component, or the stored data. */
  datatype Lookup<D> = NoEntity | Absent | Found(data: D)

  predicate StrictlyIncreasing(s: seq<int>)
  {
    forall i, j :: 0 <= i < j < |s| ==> s[i] < s[j]
  }

  /** The entity holds every type of ts (vacuously when ts is empty). */
  predicate HoldsAll<D>(c: Components<D>, ts: seq<ComponentType>)
  {
    forall k :: 0 <= k < |ts| ==> ts[k] in c
  }

  /** query(t) is queryMultiple([t]). */
  lemma HoldsOne<D>(c: Components<D>, t: ComponentType)
    ensures HoldsAll(c, [t]) <==> t in c
  {
    if t !in c {
      assert [t][0] == t;
    }
  }

  /** The entries, in the order of ids, of the entities holding every
      type of ts. */
  function Matching<D>(ids: seq<int>, es: map<int, Components<D>>, ts: seq<ComponentType>): seq<Entry<D>>
    requires forall k :: 0 <= k < |ids| ==> ids[k] in es
  {
    if |ids| == 0 then []
    else
      var rest := Matching(ids[..|ids| - 1], es, ts);
      var id := ids[|ids| - 1];
      if HoldsAll(es[id], ts) then rest + [Entry(id, es[id])] else rest
  }

  /** A query result holds exactly the live entities that have every
      requested type, each with its own components. */
  lemma {:induction false} MatchingMembers<D>(ids: seq<int>, es: map<int, Components<D>>, ts: seq<ComponentType>)
    requires forall k :: 0 <= k < |ids| ==> ids[k] in es
    ensures forall e :: e in Matching(ids, es, ts) ==> e.id in ids && e.id in es && e.components == es[e.id] && HoldsAll(e.components, ts)
    ensures forall k :: 0 <= k < |ids| && HoldsAll(es[ids[k]], ts) ==> Entry(ids[k], es[ids[k]]) in Matching(ids, es, ts)
  {
    if |ids| > 0 {
      var front := ids[..|ids| - 1];
      MatchingMembers(front, es, ts);
      forall k | 0 <= k < |ids| && HoldsAll(es[ids[k]], ts)
        ensures Entry(ids[k], es[ids[k]]) in Matching(ids, es, ts)
      {
        if k < |ids| - 1 {
          assert ids[k] == front[k];
        }
      }
    }
  }

  /** Results come in insertion order: when the ids are increasing, so are
      the result's ids. */
  lemma {:induction false} MatchingOrdered<D>(ids: seq<int>, es: map<int, Components<D>>, ts: seq<ComponentType>)
    requires forall k :: 0 <= k < |ids| ==> ids[k] in es
    requires StrictlyIncreasing(ids)
    ensures forall i, j :: 0 <= i < j < |Matching(ids, es, ts)| ==> Matching(ids, es, ts)[i].id < Matching(ids, es, ts)[j].id
  {
    if |ids| > 0 {
      var front := ids[..|ids| - 1];
      MatchingOrdered(front, es, ts);
      MatchingMembers(front, es, ts);
      var rest := Matching(front, es, ts);
      forall i | 0 <= i < |rest|
        ensures rest[i].id < ids[|ids| - 1]
      {
        assert rest[i] in rest;
        var k :| 0 <= k < |front| && front[k] == rest[i].id;
        assert ids[k] == rest[i].id;
      }
      var m := Matching(ids, es, ts);
      var last := Entry(ids[|ids| - 1], es[ids[|ids| - 1]]);
      if HoldsAll(es[ids[|ids| - 1]], ts) {
        assert m == rest + [last];
        forall i, j | 0 <= i < j < |m|
          ensures m[i].id < m[j].id
        {
          assert m[i] == rest[i];
          if j < |rest| {
            assert m[j] == rest[j];
          }
        }
      } else {
        assert m == rest;
      }
    }
  }

  /** queryMultiple([]) returns every entity, in order. */
  lemma {:induction false} MatchingNothingIsAll<D>(ids: seq<int>, es: map<int, Components<D>>)
    requires forall k :: 0 <= k < |ids| ==> ids[k] in es
    ensures |Matching(ids, es, [])| == |ids|
    ensures forall k :: 0 <= k < |ids| ==> Matching(ids, es, [])[k] == Entry(ids[k], es[ids[k]])
  {
    if |ids| > 0 {
      var front := ids[..|ids| - 1];
      MatchingNothingIsAll(front, es);
      assert HoldsAll(es[ids[|ids| - 1]], []);
      forall k | 0 <= k < |ids| - 1
        ensures Matching(ids, es, [])[k] == Entry(ids[k], es[ids[k]])
      {
        assert ids[k] == front[k];
      }
    }
  }

  /** The ids with one removed (`Map.prototype.delete` on the key order). */
  function Without(s: seq<int>, e: int): (r: seq<int>)
    ensures forall x :: x in r <==> x in s && x != e
  {
    if |s| == 0 then []
    else if s[|s| - 1] == e then Without(s[..|s| - 1], e)
    else Without(s[..|s| - 1], e) + [s[|s| - 1]]
  }

  /** Removing an id keeps increasing ids increasing, and takes exactly
      one element away when the id was present. */
  lemma {:induction false} WithoutSpec(s: seq<int>, e: int)
    requires StrictlyIncreasing(s)
    ensures StrictlyIncreasing(Without(s, e))
    ensures e in s ==> |Without(s, e)| == |s| - 1
    ensures e !in s ==> Without(s, e) == s
  {
    if |s| > 0 {
      var front := s[..|s| - 1];
      assert StrictlyIncreasing(front);
      WithoutSpec(front, e);
      if s[|s| - 1] != e {
        var r := Without(front, e);
        forall i | 0 <= i < |r|
          ensures r[i] < s[|s| - 1]
        {
          assert r[i] in front;
          var k :| 0 <= k < |front| && front[k] == r[i];
          assert s[k] == r[i];
        }
        assert Without(s, e) == r + [s[|s| - 1]];
      } else {
        assert e !in front;
      }
      if e !in s {
        assert s == front + [s[|s| - 1]];
      }
    }
  }

  /** The set of a sequence's elements. */
  function Elements(s: seq<int>): set<int>
  {
    set x | x in s
  }

  /** An increasing sequence has as many elements as distinct values. */
  lemma {:induction false} ElementsCount(s: seq<int>)
    requires StrictlyIncreasing(s)
    ensures |Elements(s)| == |s|
  {
    if |s| > 0 {
      var front := s[..|s| - 1];
      assert StrictlyIncreasing(front);
      ElementsCount(front);
      assert Elements(s) == Elements(front) + {s[|s| - 1]};
      forall k | 0 <= k < |front|
        ensures front[k] != s[|s| - 1]
      {
        assert s[k] == front[k];
      }
      assert s[|s| - 1] !in Elements(front);
    }
  }

  /** getComponent on the registry's contents. */
  function LookupIn<D>(es: map<int, Components<D>>, e: int, t: ComponentType): Lookup<D>
  {
    if e !in es then NoEntity
    else if t in es[e] then Found(es[e][t])
    else Absent
  }

  /** After addComponent(e, t, d) on a live entity, getComponent(e, t) is
      d and every other lookup is as before. */
  lemma AddThenGet<D>(es: map<int, Components<D>>, e: int, t: ComponentType, d: D, e': int, t': ComponentType)
    requires e in es
    ensures LookupIn(es[e := es[e][t := d]], e', t') ==
            if e' == e && t' == t then Found(d) else LookupIn(es, e', t')
  {
  }

  /** After removeComponent(e, t) on a live entity, e no longer holds t
      and every other lookup is as before. */
  lemma RemoveThenGet<D>(es: map<int, Components<D>>, e: int, t: ComponentType, e': int, t': ComponentType)
    requires e in es
    ensures LookupIn(es[e := es[e] - {t}], e', t') ==
            if e' == e && t' == t then Absent else LookupIn(es, e', t')
  {
  }

  /** After destroy(e), every lookup on e reports a missing entity and
      the others are as before. */
  lemma DestroyThenGet<D>(es: map<int, Components<D>>, e: int, e': int, t': ComponentType)
    ensures LookupIn(es - {e}, e', t') == if e' == e then NoEntity else LookupIn(es, e', t')
  {
  }

  /** A map whose keys are the elements of an increasing sequence has as
      many keys as the sequence has elements. */
  lemma KeysCount<V>(es: map<int, V>, s: seq<int>)
    requires StrictlyIncreasing(s) && forall i :: i in es <==> i in s
    ensures |es| == |s|
  {
    forall i
      ensures i in es.Keys <==> i in Elements(s)
    {
    }
    assert es.Keys == Elements(s);
    ElementsCount(s);
  }

  /** EntityManager: the `entities` Map (whose key order is `order`) and
      the id counter. */
  class EntityManager<D> {
    var entities: map<int, Components<D>>
    var order: seq<int>
    var nextId: int

    /** Ids are positive, issued in increasing order, every live one below
        the counter, and the key order lists exactly the live ids. */
    ghost predicate Valid()
      reads this
    {
      nextId >= 1 && StrictlyIncreasing(order) &&
      (forall i :: i in order ==> 1 <= i < nextId) &&
      (forall k :: 0 <= k < |order| ==> order[k] in entities) &&
      (forall i :: i in entities <==> i in order)
    }

    constructor ()
      ensures Valid() && entities == map[] && order == [] && nextId == 1
    {
      entities, order, nextId := map[], [], 1;
    }

    /** create: the current counter value becomes a fresh entity with no
        components, and the counter moves on. */
    method Create() returns (id: int)
      requires Valid()
      modifies this
      ensures Valid()
      ensures id == old(nextId) && nextId == id + 1 && id !in old(entities)
      ensures entities == old(entities)[id := map[]] && order == old(order) + [id]
    {
      id := nextId;
      nextId := nextId + 1;
      assert forall k :: 0 <= k < |order| ==> order[k] in order;
      assert id !in order;
      entities := entities[id := map[]];
      order := order + [id];
    }

    /** addComponent: sets the type's data on a live entity; a missing
        entity changes nothing. */
    method AddComponent(e: int, t: ComponentType, data: D)
      requires Valid()
      modifies this
      ensures Valid() && order == old(order) && nextId == old(nextId)
      ensures e in old(entities) ==> entities == old(entities)[e := old(entities)[e][t := data]]
      ensures e !in old(entities) ==> entities == old(entities)
    {
      if e in entities {
        entities := entities[e := entities[e][t := data]];
      }
    }

    /** getComponent. */
    function GetComponent(e: int, t: ComponentType): (r: Lookup<D>)
      reads this
      ensures r.NoEntity? <==> e !in entities
      ensures r.Absent? <==> e in entities && t !in entities[e]
      ensures r.Found? ==> e in entities && t in entities[e] && r.data == entities[e][t]
    {
      LookupIn(entities, e, t)
    }

    /** hasComponent: false for a missing entity. */
    function HasComponent(e: int, t: ComponentType): (b: bool)
      reads this
      ensures b <==> GetComponent(e, t).Found?
    {
      e in entities && t in entities[e]
    }

    /** removeComponent: drops the type from a live entity; a missing
        entity changes nothing. */
    method RemoveComponent(e: int, t: ComponentType)
      requires Valid()
      modifies this
      ensures Valid() && order == old(order) && nextId == old(nextId)
      ensures e in old(entities) ==> entities == old(entities)[e := old(entities)[e] - {t}]
      ensures e !in old(entities) ==> entities == old(entities)
    {
      if e in entities {
        entities := entities[e := entities[e] - {t}];
      }
    }

    /** destroy: the id leaves the registry; the counter is untouched, so
        the id is never issued again. */
    method Destroy(e: int)
      requires Valid()
      modifies this
      ensures Valid() && nextId == old(nextId)
      ensures entities == old(entities) - {e} && order == Without(old(order), e)
    {
      WithoutSpec(order, e);
      entities := entities - {e};
      order := Without(order, e);
    }

    /** count: the number of live entities. */
    function Count(): (n: nat)
      reads this
      requires Valid()
      ensures n == |order|
    {
      KeysCount(entities, order);
      |entities|
    }

    /** query: the entities holding t, in insertion order. */
    method Query(t: ComponentType) returns (result: seq<Entry<D>>)
      requires Valid()
      ensures result == Matching(order, entities, [t])
    {
      result := [];
      var k := 0;
      while k < |order|
        invariant 0 <= k <= |order|
        invariant result == Matching(order[..k], entities, [t])
      {
        var id := order[k];
        assert order[..k + 1][..k] == order[..k];
        HoldsOne(entities[id], t);
        if t in entities[id] {
          result := result + [Entry(id, entities[id])];
        }
        k := k + 1;
      }
      assert order[..k] == order;
    }

    /** queryMultiple: the entities holding every type of ts, in
        insertion order; the inner loop stops at the first missing type. */
    method QueryMultiple(ts: seq<ComponentType>) returns (result: seq<Entry<D>>)
      requires Valid()
      ensures result == Matching(order, entities, ts)
    {
      result := [];
      var k := 0;
      while k < |order|
        invariant 0 <= k <= |order|
        invariant result == Matching(order[..k], entities, ts)
      {
        var id := order[k];
        var hasAll := HasAllLoop(entities[id], ts);
        assert order[..k + 1][..k] == order[..k];
        if hasAll {
          result := result + [Entry(id, entities[id])];
        }
        k := k + 1;
      }
      assert order[..k] == order;
    }

    /** getAll: every entity in insertion order. */
    method GetAll() returns (result: seq<Entry<D>>)
      requires Valid()
      ensures |result| == |order|
      ensures forall k :: 0 <= k < |order| ==> result[k] == Entry(order[k], entities[order[k]])
    {
      result := [];
      var k := 0;
      while k < |order|
        invariant 0 <= k <= |order| && |result| == k
        invariant forall i :: 0 <= i < k ==> result[i] == Entry(order[i], entities[order[i]])
      {
        result := result + [Entry(order[k], entities[order[k]])];
        k := k + 1;
      }
    }
  }

  /** The inner loop of queryMultiple, with its early `break`. */
  method HasAllLoop<D>(c: Components<D>, ts: seq<ComponentType>) returns (hasAll: bool)
    ensures hasAll <==> HoldsAll(c, ts)
  {
    hasAll := true;
    var k := 0;
    while k < |ts|
      invariant 0 <= k <= |ts|
      invariant forall i :: 0 <= i < k ==> ts[i] in c
    {
      if ts[k] !in c {
        hasAll := false;
        break;
      }
      k := k + 1;
    }
  }

  /** A registered system: the object's identity and whether it has an
      `update` function. */
  datatype System = System(tag: string, hasUpdate: bool)

  /** SystemManager: the `systems` Map (key order `names`). */
  class SystemManager {
    var systems: map<string, System>
    var names: seq<string>

    ghost predicate Valid()
      reads this
    {
      (forall n :: n in systems <==> n in names) &&
      forall i, j :: 0 <= i < j < |names| ==> names[i] != names[j]
    }

    constructor ()
      ensures Valid() && systems == map[] && names == []
    {
      systems, names := map[], [];
    }

    /** add: a new name goes to the end; an existing one keeps its place
        and has its system replaced. */
    method Add(name: string, s: System)
      requires Valid()
      modifies this
      ensures Valid() && systems == old(systems)[name := s]
      ensures name in old(systems) ==> names == old(names)
      ensures name !in old(systems) ==> names == old(names) + [name]
    {
      if name !in systems {
        names := names + [name];
      }
      systems := systems[name := s];
    }

    /** get. */
    function Get(name: string): (r: Option<System>)
      reads this
      ensures r.Some? <==> name in systems
      ensures r.Some? ==> r.value == systems[name]
    {
      if name in systems then Some(systems[name]) else None
    }

    /** update: the names whose system has an `update` function, in
        registration order; each is called once with the frame's delta and
        the entity manager (the calls themselves are the systems' own
        code). */
    method Update() returns (called: seq<string>)
      requires Valid()
      ensures called == Updatable(names, systems)
    {
      called := [];
      var k := 0;
      while k < |names|
        invariant 0 <= k <= |names|
        invariant called == Updatable(names[..k], systems)
      {
        assert names[..k + 1][..k] == names[..k];
        if systems[names[k]].hasUpdate {
          called := called + [names[k]];
        }
        k := k + 1;
      }
      assert names[..k] == names;
    }
  }

  /** The names, in order, whose system has an `update` function. */
  function Updatable(names: seq<string>, systems: map<string, System>): seq<string>
    requires forall n :: n in names ==> n in systems
  {
    if |names| == 0 then []
    else
      var rest := Updatable(names[..|names| - 1], systems);
      var n := names[|names| - 1];
      if systems[n].hasUpdate then rest + [n] else rest
  }

  /** update calls exactly the registered systems that have an update
      function, each at most once, in registration order. */
  lemma {:induction false} UpdatableSpec(names: seq<string>, systems: map<string, System>)
    requires forall n :: n in names ==> n in systems
    ensures forall n :: n in Updatable(names, systems) <==> n in names && systems[n].hasUpdate
    ensures |Updatable(names, systems)| <= |names|
  {
    if |names| > 0 {
      var front := names[..|names| - 1];
      assert forall n :: n in names <==> n in front || n == names[|names| - 1];
      UpdatableSpec(front, systems);
    }
  }

  /** Updatable keeps registration order: with distinct names, the i-th
      called system was registered before the j-th for i < j. */
  lemma {:induction false} UpdatableOrdered(names: seq<string>, systems: map<string, System>, i: int, j: int)
    requires forall n :: n in names ==> n in systems
    requires forall a, b :: 0 <= a < b < |names| ==> names[a] != names[b]
    requires 0 <= i < j < |Updatable(names, systems)|
    ensures exists a, b :: 0 <= a < b < |names| && names[a] == Updatable(names, systems)[i] && names[b] == Updatable(names, systems)[j]
  {
    var front := names[..|names| - 1];
    var u := Updatable(names, systems);
    var rest := Updatable(front, systems);
    UpdatableSpec(front, systems);
    assert u == rest || u == rest + [names[|names| - 1]];
    if j < |rest| {
      UpdatableOrdered(front, systems, i, j);
      var a, b :| 0 <= a < b < |front| && front[a] == u[i] && front[b] == u[j];
      assert names[a] == u[i] && names[b] == u[j];
    } else {
      assert u[i] == rest[i] && rest[i] in rest;
      var k :| 0 <= k < |front| && front[k] == u[i];
      assert names[k] == u[i] && names[|names| - 1] == u[j];
    }
  }

  // ---------------------------------------------------------------------
  // Utils
  // ---------------------------------------------------------------------

  /** clamp: Math.min(Math.max(value, min), max). */
  function Clamp(v: real, lo: real, hi: real): (r: real)
    ensures lo <= hi ==> lo <= r <= hi
    ensures lo <= v <= hi ==> r == v
    ensures lo > hi ==> r == hi
  {
    var m := if v > lo then v else lo;
    if m < hi then m else hi
  }

  /** lerp: start + (end - start) * t. */
  function Lerp(s: real, e: real, t: real): (r: real)
    ensures t == 0.0 ==> r == s
    ensures t == 1.0 ==> r == e
    ensures 0.0 <= t <= 1.0 && s <= e ==> s <= r <= e
  {
    s + Scale(e - s, t)
  }

  function Scale(a: real, t: real): (r: real)
    ensures t == 0.0 ==> r == 0.0
    ensures t == 1.0 ==> r == a
    ensures 0.0 <= t <= 1.0 && a >= 0.0 ==> 0.0 <= r <= a
  {
    a * t
  }

  /** map: the affine map taking [inMin, inMax] onto [outMin, outMax];
      an empty input range divides by zero (None). */
  function MapRange(v: real, inMin: real, inMax: real, outMin: real, outMax: real): (r: Option<real>)
    ensures r.None? <==> inMin == inMax
    ensures r.Some? && v == inMin ==> r.value == outMin
    ensures r.Some? && v == inMax ==> r.value == outMax
  {
    if inMax == inMin then None
    else Some(Ratio(v - inMin, outMax - outMin, inMax - inMin) + outMin)
  }

  /** a * b / c, with the two facts map relies on. */
  function Ratio(a: real, b: real, c: real): (r: real)
    requires c != 0.0
    ensures a == 0.0 ==> r == 0.0
    ensures a == c ==> r == b
  {
    a * b / c
  }
}
