/**
 * The per-tick collision loop of src/NewGame/Entity/EntityManager.ts.
 *
 * Entities are modelled as values of an arbitrary type `E`, and what an
 * entity's `next()`, `collidedWith(other)` and `areaCovered` do is taken as
 * the functions `advance`, `collide` and `area`. This assumes that `next()`
 * reads only its own entity, that `collidedWith` changes only its own entity
 * and returns normally; the source does not promise either. `collide(me, other)` is the
 * entity `me` after it was told that it collided with `other`. Besides the new
 * entity list, a tick yields the trace of the calls it made, in order.
 */
module EntityLoop {
  import opened Geometry

  /** A call the manager makes on entity number `entity`. */
  datatype Event =
    | NextCalled(entity: nat)
    | CollidedWith(entity: nat, other: nat)

  /** The notification that the other side of the same collision receives. */
  function Mirror(e: Event): Event
    requires e.CollidedWith?
  {
    CollidedWith(e.other, e.entity)
  }

  ghost predicate Distinct(s: seq<Event>) {
    forall p, q :: 0 <= p < q < |s| ==> s[p] != s[q]
  }

  // ---------------------------------------------------------------------
  // The specification of one tick, step by step as the source performs it.
  // ---------------------------------------------------------------------

  /** The `forEach` that calls `next()` on every entity. */
  function AdvanceAll<E>(es: seq<E>, advance: E -> E): (r: seq<E>)
    ensures |r| == |es|
  {
    seq(|es|, k requires 0 <= k < |es| => advance(es[k]))
  }

  function NextEvents(n: nat): seq<Event> {
    seq(n, k requires 0 <= k => NextCalled(k))
  }

  /** One test of entity `i` (whose footprint was read as `a`) against entity `j`. */
  function Test<E>(es: seq<E>, i: nat, a: Rect, j: nat, collide: (E, E) -> E, area: E -> Rect): (r: (seq<E>, seq<Event>))
    requires i < j < |es|
    ensures |r.0| == |es|
  {
    if a.Overlaps(area(es[j])) then
      var ei := collide(es[i], es[j]);
      var ej := collide(es[j], ei);
      (es[i := ei][j := ej], [CollidedWith(i, j), CollidedWith(j, i)])
    else
      (es, [])
  }

  /** The inner loop: entity `i` against entities `j`, `j + 1`, ..., the last. */
  function Inner<E>(es: seq<E>, i: nat, a: Rect, j: nat, collide: (E, E) -> E, area: E -> Rect): (r: (seq<E>, seq<Event>))
    requires i < j <= |es|
    ensures |r.0| == |es|
    decreases |es| - j
  {
    if j == |es| then
      (es, [])
    else
      var step := Test(es, i, a, j, collide, area);
      var rest := Inner(step.0, i, a, j + 1, collide, area);
      (rest.0, step.1 + rest.1)
  }

  /** One unfolding of the inner loop. */
  lemma InnerStep<E>(es: seq<E>, i: nat, a: Rect, j: nat, collide: (E, E) -> E, area: E -> Rect)
    requires i < j < |es|
    ensures var step := Test(es, i, a, j, collide, area);
            var rest := Inner(step.0, i, a, j + 1, collide, area);
            Inner(es, i, a, j, collide, area) == (rest.0, step.1 + rest.1)
  {
  }

  /** The outer loop from entity `i` on; each row reads entity `i`'s footprint once. */
  function Outer<E>(es: seq<E>, i: nat, collide: (E, E) -> E, area: E -> Rect): (r: (seq<E>, seq<Event>))
    requires i <= |es|
    ensures |r.0| == |es|
    decreases |es| - i
  {
    if i == |es| then
      (es, [])
    else
      var row := Inner(es, i, area(es[i]), i + 1, collide, area);
      var rest := Outer(row.0, i + 1, collide, area);
      (rest.0, row.1 + rest.1)
  }

  /** `EntityManager.next()`: advance all, then the pairwise collision dispatch. */
  function Tick<E>(es: seq<E>, advance: E -> E, collide: (E, E) -> E, area: E -> Rect): (r: (seq<E>, seq<Event>))
    ensures |r.0| == |es|
  {
    var tested := Outer(AdvanceAll(es, advance), 0, collide, area);
    (tested.0, NextEvents(|es|) + tested.1)
  }

  class EntityManager<E> {
    var entities: seq<E>

    constructor(entities: seq<E>)
      ensures this.entities == entities
    {
      this.entities := entities;
    }

    /** One game tick over the entity list; returns the calls made, in order. */
    method Next(advance: E -> E, collide: (E, E) -> E, area: E -> Rect) returns (trace: seq<Event>)
      modifies this
      ensures (entities, trace) == Tick(old(entities), advance, collide, area)
    {
      ghost var target := Tick(entities, advance, collide, area);
      trace := AdvanceEach(advance);
      var n := |entities|;
      var i := 0;
      while i < n
        invariant 0 <= i <= n && |entities| == n
        invariant Outer(entities, i, collide, area).0 == target.0
        invariant trace + Outer(entities, i, collide, area).1 == target.1
      {
        var events := DispatchRow(i, collide, area);
        trace := trace + events;
        i := i + 1;
      }
      assert trace + [] == trace;
    }

    /** The `forEach` that calls `next()` on every entity, in list order. */
    method AdvanceEach(advance: E -> E) returns (trace: seq<Event>)
      modifies this
      ensures entities == AdvanceAll(old(entities), advance)
      ensures trace == NextEvents(|entities|)
    {
      ghost var start := entities;
      var n := |entities|;
      trace := [];
      var k := 0;
      while k < n
        invariant 0 <= k <= n && |entities| == n
        invariant forall m :: 0 <= m < k ==> entities[m] == advance(start[m])
        invariant forall m :: k <= m < n ==> entities[m] == start[m]
        invariant trace == NextEvents(k)
      {
        entities := entities[k := advance(entities[k])];
        trace := trace + [NextCalled(k)];
        k := k + 1;
      }
    }

    /** One pass of the outer loop: entity `i` against every later entity. */
    method DispatchRow(i: nat, collide: (E, E) -> E, area: E -> Rect) returns (events: seq<Event>)
      requires i < |entities|
      modifies this
      ensures (entities, events) == Inner(old(entities), i, area(old(entities)[i]), i + 1, collide, area)
    {
      var n := |entities|;
      var a := area(entities[i]);
      ghost var target := Inner(entities, i, a, i + 1, collide, area);
      events := [];
      var j := i + 1;
      while j < n
        invariant i < j <= n && |entities| == n
        invariant Inner(entities, i, a, j, collide, area).0 == target.0
        invariant events + Inner(entities, i, a, j, collide, area).1 == target.1
      {
        InnerStep(entities, i, a, j, collide, area);
        var pair := TestPair(i, a, j, collide, area);
        events := events + pair;
        j := j + 1;
      }
      assert events + [] == events;
    }

    /** One test of the inner loop: both sides of an overlapping pair are told about each other. */
    method TestPair(i: nat, a: Rect, j: nat, collide: (E, E) -> E, area: E -> Rect) returns (events: seq<Event>)
      requires i < j < |entities|
      modifies this
      ensures (entities, events) == Test(old(entities), i, a, j, collide, area)
    {
      if a.Overlaps(area(entities[j])) {
        var ei := collide(entities[i], entities[j]);
        entities := entities[i := ei];
        var ej := collide(entities[j], ei);
        entities := entities[j := ej];
        events := [CollidedWith(i, j), CollidedWith(j, i)];
      } else {
        events := [];
      }
    }
  }

  // ---------------------------------------------------------------------
  // What every tick guarantees, whatever the entities do.
  // ---------------------------------------------------------------------

  lemma DistinctConcat(a: seq<Event>, b: seq<Event>)
    requires Distinct(a) && Distinct(b)
    requires forall e :: e in a ==> e !in b
    ensures Distinct(a + b)
  {
    forall p, q | 0 <= p < q < |a + b|
      ensures (a + b)[p] != (a + b)[q]
    {
      if q < |a| {
      } else if p >= |a| {
        assert (a + b)[p] == b[p - |a|] && (a + b)[q] == b[q - |a|];
      } else {
        assert (a + b)[p] in a && (a + b)[q] in b;
      }
    }
  }

  /**
   * The inner loop for entity `i` from `j` on notifies only pairs made of `i`
   * and a later entity, each notification once, both sides of every pair.
   */
  lemma {:induction false} InnerEvents<E>(es: seq<E>, i: nat, a: Rect, j: nat, collide: (E, E) -> E, area: E -> Rect)
    requires i < j <= |es|
    ensures var evs := Inner(es, i, a, j, collide, area).1;
      && Distinct(evs)
      && (forall e :: e in evs ==> e.CollidedWith? && e in evs && Mirror(e) in evs)
      && (forall e :: e in evs ==>
            (e.CollidedWith? &&
             ((e.entity == i && j <= e.other < |es|) || (e.other == i && j <= e.entity < |es|))))
    decreases |es| - j
  {
    if j < |es| {
      var step := Test(es, i, a, j, collide, area);
      var rest := Inner(step.0, i, a, j + 1, collide, area);
      InnerEvents(step.0, i, a, j + 1, collide, area);
      DistinctConcat(step.1, rest.1);
    }
  }

  /**
   * The outer loop from `i` on notifies only pairs of two different entities
   * numbered `i` or above, each notification once, both sides of every pair.
   */
  lemma {:induction false} OuterEvents<E>(es: seq<E>, i: nat, collide: (E, E) -> E, area: E -> Rect)
    requires i <= |es|
    ensures var evs := Outer(es, i, collide, area).1;
      && Distinct(evs)
      && (forall e :: e in evs ==> e.CollidedWith? && Mirror(e) in evs)
      && (forall e :: e in evs ==>
            (e.CollidedWith? && e.entity != e.other && i <= e.entity < |es| && i <= e.other < |es|))
    decreases |es| - i
  {
    if i < |es| {
      var row := Inner(es, i, area(es[i]), i + 1, collide, area);
      var rest := Outer(row.0, i + 1, collide, area);
      InnerEvents(es, i, area(es[i]), i + 1, collide, area);
      OuterEvents(row.0, i + 1, collide, area);
      DistinctConcat(row.1, rest.1);
    }
  }

  /**
   * A tick keeps the list's length, calls `next()` on every entity exactly once
   * and in list order before any collision is dispatched, never notifies an
   * entity of a collision with itself, notifies each side of a pair at most
   * once, and always notifies both sides.
   */
  lemma TickShape<E>(es: seq<E>, advance: E -> E, collide: (E, E) -> E, area: E -> Rect)
    ensures var (after, trace) := Tick(es, advance, collide, area);
      && |after| == |es|
      && |trace| >= |es|
      && trace[..|es|] == NextEvents(|es|)
      && (forall p :: |es| <= p < |trace| ==> trace[p].CollidedWith?)
      && (forall e :: e in trace && e.CollidedWith? ==>
            e.entity != e.other && e.entity < |es| && e.other < |es| && Mirror(e) in trace)
      && Distinct(trace)
  {
    var tested := Outer(AdvanceAll(es, advance), 0, collide, area);
    var trace := NextEvents(|es|) + tested.1;
    OuterEvents(AdvanceAll(es, advance), 0, collide, area);
    assert Distinct(NextEvents(|es|));
    DistinctConcat(NextEvents(|es|), tested.1);
    forall p | |es| <= p < |trace|
      ensures trace[p].CollidedWith?
    {
      assert trace[p] == tested.1[p - |es|];
      assert trace[p] in tested.1;
    }
    forall e | e in trace && e.CollidedWith?
      ensures e.entity != e.other && e.entity < |es| && e.other < |es| && Mirror(e) in trace
    {
      assert e !in NextEvents(|es|);
      assert e in tested.1;
    }
  }

  /**
   * Collision notifications come in pairs: entity `i` about `j`, then directly
   * `j` about `i`, with `i < j`.
   */
  ghost predicate InPairs(s: seq<Event>)
    decreases |s|
  {
    || s == []
    || (&& |s| >= 2
        && s[0].CollidedWith? && s[0].entity < s[0].other
        && s[1] == Mirror(s[0])
        && InPairs(s[2..]))
  }

  lemma {:induction false} InPairsConcat(a: seq<Event>, b: seq<Event>)
    requires InPairs(a) && InPairs(b)
    ensures InPairs(a + b)
    decreases |a|
  {
    if a != [] {
      InPairsConcat(a[2..], b);
      assert (a + b)[0] == a[0] && (a + b)[1] == a[1];
      assert (a + b)[2..] == a[2..] + b;
    } else {
      assert a + b == b;
    }
  }

  /** The inner loop sends its notifications in pairs, the lower-numbered entity first. */
  lemma {:induction false} InnerPairs<E>(es: seq<E>, i: nat, a: Rect, j: nat, collide: (E, E) -> E, area: E -> Rect)
    requires i < j <= |es|
    ensures InPairs(Inner(es, i, a, j, collide, area).1)
    decreases |es| - j
  {
    if j < |es| {
      var step := Test(es, i, a, j, collide, area);
      InnerPairs(step.0, i, a, j + 1, collide, area);
      InPairsConcat(step.1, Inner(step.0, i, a, j + 1, collide, area).1);
    }
  }

  lemma {:induction false} OuterPairs<E>(es: seq<E>, i: nat, collide: (E, E) -> E, area: E -> Rect)
    requires i <= |es|
    ensures InPairs(Outer(es, i, collide, area).1)
    decreases |es| - i
  {
    if i < |es| {
      var row := Inner(es, i, area(es[i]), i + 1, collide, area);
      InnerPairs(es, i, area(es[i]), i + 1, collide, area);
      OuterPairs(row.0, i + 1, collide, area);
      InPairsConcat(row.1, Outer(row.0, i + 1, collide, area).1);
    }
  }

  /**
   * Whatever the entities do, after the `next()` calls a tick tells `i` about
   * `j` and then, directly after, `j` about `i`, for `i < j`.
   */
  lemma TickPairs<E>(es: seq<E>, advance: E -> E, collide: (E, E) -> E, area: E -> Rect)
    ensures var trace := Tick(es, advance, collide, area).1;
      |trace| >= |es| && InPairs(trace[|es|..])
  {
    var tested := Outer(AdvanceAll(es, advance), 0, collide, area);
    OuterPairs(AdvanceAll(es, advance), 0, collide, area);
    assert (NextEvents(|es|) + tested.1)[|es|..] == tested.1;
  }

  // ---------------------------------------------------------------------
  // Entities that move on `next`, and whose footprint a collision keeps.
  // ---------------------------------------------------------------------

  /** One instance of a collision response that keeps the footprint. */
  lemma CollisionKeepsFootprint<E>(e: E, o: E, collide: (E, E) -> E, area: E -> Rect)
    requires forall e, o :: area(collide(e, o)) == area(e)
    ensures area(collide(e, o)) == area(e)
  {
  }

  /**
   * When a collision does not change an entity's footprint, the inner loop
   * keeps every footprint and tells `i` about exactly the later entities whose
   * footprint overlaps the one read for `i`.
   */
  lemma {:induction false} FootprintInner<E>(es: seq<E>, i: nat, a: Rect, j: nat, collide: (E, E) -> E, area: E -> Rect)
    requires i < j <= |es|
    requires forall e, o :: area(collide(e, o)) == area(e)
    ensures forall k :: 0 <= k < |es| ==> area(Inner(es, i, a, j, collide, area).0[k]) == area(es[k])
    ensures forall k: nat :: CollidedWith(i, k) in Inner(es, i, a, j, collide, area).1 <==>
      j <= k < |es| && a.Overlaps(area(es[k]))
    decreases |es| - j
  {
    if j < |es| {
      var step := Test(es, i, a, j, collide, area);
      if a.Overlaps(area(es[j])) {
        var ei := collide(es[i], es[j]);
        var ej := collide(es[j], ei);
        CollisionKeepsFootprint(es[i], es[j], collide, area);
        CollisionKeepsFootprint(es[j], ei, collide, area);
        assert step.0 == es[i := ei][j := ej];
      }
      assert forall k :: 0 <= k < |es| ==> area(step.0[k]) == area(es[k]);
      FootprintInner(step.0, i, a, j + 1, collide, area);
      InnerEvents(step.0, i, a, j + 1, collide, area);
    }
  }

  /** The outer loop keeps every footprint and notifies exactly the pairs whose footprints overlap. */
  lemma {:induction false} FootprintOuter<E>(es: seq<E>, i: nat, collide: (E, E) -> E, area: E -> Rect)
    requires i <= |es|
    requires forall e, o :: area(collide(e, o)) == area(e)
    ensures forall k :: 0 <= k < |es| ==> area(Outer(es, i, collide, area).0[k]) == area(es[k])
    ensures forall p: nat, q: nat :: p < q ==>
      (CollidedWith(p, q) in Outer(es, i, collide, area).1 <==>
        i <= p && q < |es| && area(es[p]).Overlaps(area(es[q])))
    decreases |es| - i
  {
    if i < |es| {
      var row := Inner(es, i, area(es[i]), i + 1, collide, area);
      FootprintInner(es, i, area(es[i]), i + 1, collide, area);
      FootprintOuter(row.0, i + 1, collide, area);
      InnerEvents(es, i, area(es[i]), i + 1, collide, area);
      OuterEvents(row.0, i + 1, collide, area);
      forall p: nat, q: nat | p < q
        ensures CollidedWith(p, q) in Outer(es, i, collide, area).1 <==>
          i <= p && q < |es| && area(es[p]).Overlaps(area(es[q]))
      {
        if p == i {
          assert CollidedWith(p, q) !in Outer(row.0, i + 1, collide, area).1;
        } else {
          assert CollidedWith(p, q) !in row.1;
        }
      }
    }
  }

  /**
   * For entities that may move on `next()` but whose footprint a collision
   * does not change, a tick tests the footprints after `next()`: a pair is
   * notified, both ways, exactly when those footprints overlap, and every
   * entity ends with the footprint `next()` gave it.
   */
  lemma TickAfterNext<E>(es: seq<E>, advance: E -> E, collide: (E, E) -> E, area: E -> Rect)
    requires forall e, o :: area(collide(e, o)) == area(e)
    ensures forall k :: 0 <= k < |es| ==> area(Tick(es, advance, collide, area).0[k]) == area(advance(es[k]))
    ensures forall i, j :: 0 <= i < j < |es| ==>
      (CollidedWith(i, j) in Tick(es, advance, collide, area).1 <==> area(advance(es[i])).Overlaps(area(advance(es[j])))) &&
      (CollidedWith(j, i) in Tick(es, advance, collide, area).1 <==> area(advance(es[i])).Overlaps(area(advance(es[j]))))
  {
    var moved := AdvanceAll(es, advance);
    FootprintOuter(moved, 0, collide, area);
    TickShape(es, advance, collide, area);
    var trace := Tick(es, advance, collide, area).1;
    forall i, j | 0 <= i < j < |es|
      ensures CollidedWith(i, j) in trace <==> area(moved[i]).Overlaps(area(moved[j]))
      ensures CollidedWith(j, i) in trace <==> area(moved[i]).Overlaps(area(moved[j]))
    {
      assert CollidedWith(i, j) !in NextEvents(|es|);
      assert Mirror(CollidedWith(i, j)) == CollidedWith(j, i);
      assert Mirror(CollidedWith(j, i)) == CollidedWith(i, j);
    }
  }

  // ---------------------------------------------------------------------
  // Entities whose `next` and `collidedWith` change nothing.
  // ---------------------------------------------------------------------

  ghost predicate Inert<E(!new)>(advance: E -> E, collide: (E, E) -> E) {
    && (forall e :: advance(e) == e)
    && (forall e, o :: collide(e, o) == e)
  }

  lemma {:induction false} InertInner<E>(es: seq<E>, i: nat, a: Rect, j: nat, collide: (E, E) -> E, area: E -> Rect)
    requires i < j <= |es|
    requires forall e, o :: collide(e, o) == e
    ensures Inner(es, i, a, j, collide, area).0 == es
    ensures forall k: nat :: CollidedWith(i, k) in Inner(es, i, a, j, collide, area).1 <==>
      j <= k < |es| && a.Overlaps(area(es[k]))
    decreases |es| - j
  {
    if j < |es| {
      var step := Test(es, i, a, j, collide, area);
      assert step.0 == es;
      InertInner(es, i, a, j + 1, collide, area);
      InnerEvents(es, i, a, j + 1, collide, area);
    }
  }

  lemma {:induction false} InertOuter<E>(es: seq<E>, i: nat, collide: (E, E) -> E, area: E -> Rect)
    requires i <= |es|
    requires forall e, o :: collide(e, o) == e
    ensures Outer(es, i, collide, area).0 == es
    ensures forall p: nat, q: nat :: p < q ==>
      (CollidedWith(p, q) in Outer(es, i, collide, area).1 <==>
        i <= p && q < |es| && area(es[p]).Overlaps(area(es[q])))
    decreases |es| - i
  {
    if i < |es| {
      var row := Inner(es, i, area(es[i]), i + 1, collide, area);
      InertInner(es, i, area(es[i]), i + 1, collide, area);
      InertOuter(es, i + 1, collide, area);
      InnerEvents(es, i, area(es[i]), i + 1, collide, area);
      OuterEvents(es, i + 1, collide, area);
      forall p: nat, q: nat | p < q
        ensures CollidedWith(p, q) in Outer(es, i, collide, area).1 <==>
          i <= p && q < |es| && area(es[p]).Overlaps(area(es[q]))
      {
        if p == i {
          assert CollidedWith(p, q) !in Outer(es, i + 1, collide, area).1;
        } else {
          assert CollidedWith(p, q) !in row.1;
        }
      }
    }
  }

  /**
   * For entities that ignore `next` and collisions, a tick leaves the list as
   * it was and notifies a pair (both ways) exactly when their footprints
   * overlap.
   */
  lemma InertTick<E(!new)>(es: seq<E>, advance: E -> E, collide: (E, E) -> E, area: E -> Rect)
    requires Inert(advance, collide)
    ensures Tick(es, advance, collide, area).0 == es
    ensures forall i, j :: 0 <= i < j < |es| ==>
      (CollidedWith(i, j) in Tick(es, advance, collide, area).1 <==> area(es[i]).Overlaps(area(es[j]))) &&
      (CollidedWith(j, i) in Tick(es, advance, collide, area).1 <==> area(es[i]).Overlaps(area(es[j])))
  {
    assert AdvanceAll(es, advance) == es;
    InertOuter(es, 0, collide, area);
    TickShape(es, advance, collide, area);
    var trace := Tick(es, advance, collide, area).1;
    forall i, j | 0 <= i < j < |es|
      ensures CollidedWith(i, j) in trace <==> area(es[i]).Overlaps(area(es[j]))
      ensures CollidedWith(j, i) in trace <==> area(es[i]).Overlaps(area(es[j]))
    {
      assert CollidedWith(i, j) !in NextEvents(|es|);
      assert Mirror(CollidedWith(i, j)) == CollidedWith(j, i);
      assert Mirror(CollidedWith(j, i)) == CollidedWith(i, j);
    }
  }
}
