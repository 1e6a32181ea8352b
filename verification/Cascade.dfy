/** The order in which a vertex delete meets the edges at the vertex, which decides what a failing one leaves. */
module Cascades {
  import opened Seqs
  import opened GraphModel
  import opened ShardSpec
  import opened StoreSpec
  import opened Integrity

  /** Edge a is met before b when the generations are walked in order, in each first the edges out of the vertex
      and then the other ones, oldest first. */
  ghost predicate MetBefore(order: seq<nat>, shards: seq<ShardState>, v: string, a: Edge, b: Edge) {
    exists p, q, k, l ::
      && 0 <= p <= q < |order| && order[p] < |shards| && order[q] < |shards|
      && 0 <= k < |shards[order[p]].live| && shards[order[p]].live[k] == a
      && 0 <= l < |shards[order[q]].live| && shards[order[q]].live[l] == b
      && (p < q || (a.from == v && b.from != v) || ((a.from == v <==> b.from == v) && k < l))
  }

  lemma {:induction false} FilterOrder(es: seq<Edge>, p: Edge -> bool, x: nat, y: nat) returns (k: nat, l: nat)
    requires x < y < |Filter(es, p)|
    ensures k < l < |es| && es[k] == Filter(es, p)[x] && es[l] == Filter(es, p)[y]
  {
    var init := es[..|es| - 1];
    if y < |Filter(init, p)| {
      k, l := FilterOrder(init, p, x, y);
    } else {
      l := |es| - 1;
      FilterMembers(init, p);
      assert Filter(init, p)[x] in init;
      k :| 0 <= k < |init| && init[k] == Filter(init, p)[x];
    }
  }

  /** No edge before position x has its id. */
  ghost predicate FirstOfItsId(es: seq<Edge>, x: nat) {
    x < |es| && forall y :: 0 <= y < x ==> es[y].id != es[x].id
  }

  lemma {:induction false} FirstByIdAt(es: seq<Edge>, i: nat) returns (x: nat)
    requires i < |FirstById(es)|
    ensures es != [] && x < |es| && es[x] == FirstById(es)[i] && FirstOfItsId(es, x)
  {
    var init := es[..|es| - 1];
    if i < |FirstById(init)| {
      x := FirstByIdAt(init, i);
    } else {
      x := |es| - 1;
      assert forall z :: 0 <= z < x ==> es[z] in init;
    }
  }

  lemma {:induction false} FirstByIdOrder(es: seq<Edge>, i: nat, j: nat) returns (x: nat, y: nat)
    requires i < j < |FirstById(es)|
    ensures x < y < |es| && es[x] == FirstById(es)[i] && es[y] == FirstById(es)[j]
    ensures FirstOfItsId(es, x) && FirstOfItsId(es, y)
  {
    var init := es[..|es| - 1];
    if j < |FirstById(init)| {
      x, y := FirstByIdOrder(init, i, j);
    } else {
      y := |es| - 1;
      x := FirstByIdAt(init, i);
      assert forall z :: 0 <= z < y ==> es[z] in init;
    }
  }

  lemma LateIsIncoming(live: seq<Edge>, v: string, x: nat)
    requires FirstOfItsId(Filter(live, FromIs(v)) + Filter(live, ToIs(v)), x)
    ensures var es := Filter(live, FromIs(v)) + Filter(live, ToIs(v));
            es[x].from == v <==> x < |Filter(live, FromIs(v))|
  {
    var head, tail := Filter(live, FromIs(v)), Filter(live, ToIs(v));
    FilterMembers(live, FromIs(v));
    FilterMembers(live, ToIs(v));
    if x < |head| {
      assert head[x] in head;
    } else {
      var e := tail[x - |head|];
      assert e in tail;
      forall y | 0 <= y < |head| ensures head[y] != e {
        assert (head + tail)[y] == head[y] && (head + tail)[x] == e;
      }
      assert e !in head;
    }
  }

  /** Within one generation: the edges out of the vertex, then those into it that were not met yet. */
  lemma TouchingOneOrder(live: seq<Edge>, v: string, x: nat, y: nat) returns (k: nat, l: nat)
    requires var es := Filter(live, FromIs(v)) + Filter(live, ToIs(v));
             x < y && FirstOfItsId(es, x) && FirstOfItsId(es, y)
    ensures var es := Filter(live, FromIs(v)) + Filter(live, ToIs(v));
            && k < |live| && l < |live| && live[k] == es[x] && live[l] == es[y]
            && ((es[x].from == v && es[y].from != v) || ((es[x].from == v <==> es[y].from == v) && k < l))
  {
    var head, tail := Filter(live, FromIs(v)), Filter(live, ToIs(v));
    FilterMembers(live, FromIs(v));
    FilterMembers(live, ToIs(v));
    LateIsIncoming(live, v, x);
    LateIsIncoming(live, v, y);
    if y < |head| {
      k, l := FilterOrder(live, FromIs(v), x, y);
    } else if x >= |head| {
      k, l := FilterOrder(live, ToIs(v), x - |head|, y - |head|);
    } else {
      assert head[x] in head && tail[y - |head|] in tail;
      k :| 0 <= k < |live| && live[k] == head[x];
      l :| 0 <= l < |live| && live[l] == tail[y - |head|];
    }
  }

  lemma FirstInPart(done: seq<Edge>, last: seq<Edge>, x: nat)
    requires FirstOfItsId(done + last, x)
    ensures if x < |done| then FirstOfItsId(done, x) && (done + last)[x] == done[x]
            else FirstOfItsId(last, x - |done|) && (done + last)[x] == last[x - |done|]
  {
    assert forall y :: 0 <= y < |done| ==> (done + last)[y] == done[y];
    assert forall y :: 0 <= y < |last| ==> (done + last)[|done| + y] == last[y];
  }

  lemma MetBeforeGrows(order: seq<nat>, n: nat, shards: seq<ShardState>, v: string, a: Edge, b: Edge)
    requires n <= |order| && MetBefore(order[..n], shards, v, a, b)
    ensures MetBefore(order, shards, v, a, b)
  {
    var p, q, k, l :|
      && 0 <= p <= q < n && order[..n][p] < |shards| && order[..n][q] < |shards|
      && 0 <= k < |shards[order[..n][p]].live| && shards[order[..n][p]].live[k] == a
      && 0 <= l < |shards[order[..n][q]].live| && shards[order[..n][q]].live[l] == b
      && (p < q || (a.from == v && b.from != v) || ((a.from == v <==> b.from == v) && k < l));
    assert order[..n][p] == order[p] && order[..n][q] == order[q];
  }

  lemma EarlierGeneration(order: seq<nat>, shards: seq<ShardState>, v: string, a: Edge, b: Edge)
    requires |order| > 0 && order[|order| - 1] < |shards| && b in shards[order[|order| - 1]].live
    requires a in TouchingIn(order[..|order| - 1], shards, v)
    ensures MetBefore(order, shards, v, a, b)
  {
    var init, i := order[..|order| - 1], order[|order| - 1];
    TouchingMembers(init, shards, v);
    var j :| j in init && j < |shards| && a in shards[j].live;
    var p :| 0 <= p < |init| && init[p] == j;
    var k :| 0 <= k < |shards[j].live| && shards[j].live[k] == a;
    var l :| 0 <= l < |shards[i].live| && shards[i].live[l] == b;
    assert order[p] == j && order[|order| - 1] == i;
  }

  lemma SameGeneration(order: seq<nat>, shards: seq<ShardState>, v: string, x: nat, y: nat)
    requires |order| > 0 && order[|order| - 1] < |shards| && x < y
    requires var live := shards[order[|order| - 1]].live;
             var es := Filter(live, FromIs(v)) + Filter(live, ToIs(v));
             FirstOfItsId(es, x) && FirstOfItsId(es, y)
    ensures var live := shards[order[|order| - 1]].live;
            var es := Filter(live, FromIs(v)) + Filter(live, ToIs(v));
            MetBefore(order, shards, v, es[x], es[y])
  {
    var k, l := TouchingOneOrder(shards[order[|order| - 1]].live, v, x, y);
  }

  lemma {:induction false} TouchingOrder(order: seq<nat>, shards: seq<ShardState>, v: string, x: nat, y: nat)
    requires x < y && FirstOfItsId(TouchingIn(order, shards, v), x) && FirstOfItsId(TouchingIn(order, shards, v), y)
    ensures MetBefore(order, shards, v, TouchingIn(order, shards, v)[x], TouchingIn(order, shards, v)[y])
  {
    var es, init, i := TouchingIn(order, shards, v), order[..|order| - 1], order[|order| - 1];
    var done := TouchingIn(init, shards, v);
    var live := if i < |shards| then shards[i].live else [];
    var last := Filter(live, FromIs(v)) + Filter(live, ToIs(v));
    assert es == done + last;
    FirstInPart(done, last, x);
    FirstInPart(done, last, y);
    if y < |done| {
      TouchingOrder(init, shards, v, x, y);
      MetBeforeGrows(order, |order| - 1, shards, v, es[x], es[y]);
    } else if x >= |done| {
      SameGeneration(order, shards, v, x - |done|, y - |done|);
    } else {
      FilterMembers(live, FromIs(v));
      FilterMembers(live, ToIs(v));
      assert done[x] in done && last[y - |done|] in last;
      EarlierGeneration(order, shards, v, es[x], es[y]);
    }
  }

  /** The order in which a cascade meets the edges at a vertex. */
  lemma CascadeOrder(s: StoreState, v: string, i: nat, j: nat)
    requires i < j < |Incident(s, v)|
    ensures MetBefore(Order(s), s.shards, v, Incident(s, v)[i], Incident(s, v)[j])
  {
    var x, y := FirstByIdOrder(TouchingIn(Order(s), s.shards, v), i, j);
    TouchingOrder(Order(s), s.shards, v, x, y);
  }
}
