/** The walker and the merger (internal/walk, internal/merge, internal/snapshot/capture.go): the loops
    over the two queues, with the marks shared between the phases. */
module Walks {
  import opened Seqs
  import opened GraphModel
  import opened ShardSpec
  import opened StoreSpec
  import opened Queries
  import opened Stores
  import opened WalkSpec
  import opened WaveSpec

  /** A request context: one that can be cancelled may be found cancelled at any poll, and one that was
      cancelled beforehand is found so at the first. */
  datatype Context = Background | Cancellable | Spent

  method Poll(ctx: Context) returns (cancelled: bool)
    ensures ctx.Background? ==> !cancelled
    ensures ctx.Spent? ==> cancelled
  {
    match ctx
    case Background => cancelled := false;
    case Cancellable => cancelled := *;
    case Spent => cancelled := true;
  }

  /** The visited map, shared by reference between the session and the merger. */
  class Marks {
    var ids: set<string>

    constructor ()
      ensures ids == {}
    {
      ids := {};
    }
  }

  datatype SessionState = Open | Expanding | Draining | Closed

  class Session {
    var visited: Marks
    var state: SessionState

    constructor ()
      ensures fresh(visited) && visited.ids == {} && state == Open
    {
      visited := new Marks();
      state := Open;
    }

    method Mark(v: string)
      modifies visited
      ensures visited.ids == old(visited.ids) + {v}
    {
      visited.ids := visited.ids + {v};
    }

    method Transition(next: SessionState)
      modifies this`state
      ensures state == next
    {
      state := next;
    }

    method Reset()
      modifies this
      ensures fresh(visited) && visited.ids == {} && state == Open
    {
      visited := new Marks();
      state := Open;
    }
  }

  // Groups of outgoing edges.

  ghost predicate InGroup(groups: map<nat, seq<Edge>>, g: nat, e: Edge) {
    g in groups && e in groups[g]
  }

  /** The groups are the live outgoing edges of the vertex, by generation. */
  ghost predicate GroupsOf(shards: seq<ShardState>, v: string, groups: map<nat, seq<Edge>>) {
    && (forall g: nat, e: Edge :: InGroup(groups, g, e) <==> g < |shards| && e in shards[g].live && e.from == v)
    && (forall g :: g in groups ==> NoDup(groups[g]))
  }

  lemma GroupsMean(shards: seq<ShardState>, v: string)
    requires forall g: nat :: g < |shards| ==> DistinctIds(shards[g].live)
    ensures GroupsOf(shards, v, EdgesFromByShard(shards, v))
  {
    forall g: nat | g < |shards|
      ensures forall e :: e in Filter(shards[g].live, FromIs(v)) <==> e in shards[g].live && e.from == v
      ensures NoDup(Filter(shards[g].live, FromIs(v)))
    {
      FilterMembers(shards[g].live, FromIs(v));
      FilterDistinct(shards[g].live, FromIs(v));
      DistinctNoDup(Filter(shards[g].live, FromIs(v)));
    }
  }

  function Group(groups: map<nat, seq<Edge>>, g: nat): seq<Edge> {
    if g in groups then groups[g] else []
  }

  // Phase 1 steps.

  lemma OneMoreItem(more: seq<FrontierItem>, m: FrontierItem)
    ensures ItemVertices(more + [m]) == ItemVertices(more) + {m.vertex}
    ensures DistinctItems(more) && m.vertex !in ItemVertices(more) ==> DistinctItems(more + [m])
  {
    assert forall x :: x in more + [m] <==> x in more || x == m;
    assert forall i :: 0 <= i < |more| ==> more[i] in more;
  }

  /** Marks and queues the unvisited targets of the edges in the start shard. */
  method VisitHome(ctx: Context, current: FrontierItem, edges: seq<Edge>, marks: Marks)
    returns (stopped: bool, more: seq<FrontierItem>)
    modifies marks
    ensures stopped ==> !ctx.Background?
    ensures !stopped ==>
      && marks.ids == old(marks.ids) + ItemVertices(more) && DistinctItems(more)
      && (forall m :: m in more ==> m.vertex !in old(marks.ids) && exists e :: e in edges && m == HomeHop(current, e))
      && (forall e :: e in edges ==> e.to in marks.ids)
  {
    more := [];
    for i := 0 to |edges|
      invariant marks.ids == old(marks.ids) + ItemVertices(more) && DistinctItems(more)
      invariant forall m :: m in more ==> m.vertex !in old(marks.ids)
                                          && exists e :: e in edges && m == HomeHop(current, e)
      invariant forall k :: 0 <= k < i ==> edges[k].to in marks.ids
    {
      stopped := Poll(ctx);
      if stopped {
        return;
      }
      if edges[i].to !in marks.ids {
        OneMoreItem(more, HomeHop(current, edges[i]));
        marks.ids := marks.ids + {edges[i].to};
        more := more + [HomeHop(current, edges[i])];
      }
    }
    stopped := false;
  }

  method HandOffGroup(ctx: Context, current: FrontierItem, shard: nat, edges: seq<Edge>)
    returns (stopped: bool, conts: seq<Continuation>)
    ensures stopped ==> !ctx.Background?
    ensures !stopped ==> |conts| == |edges| && forall i :: 0 <= i < |edges| ==>
                                                             conts[i] == CrossHop(current, edges[i], shard)
  {
    conts := [];
    for i := 0 to |edges|
      invariant |conts| == i && forall k :: 0 <= k < i ==> conts[k] == CrossHop(current, edges[k], shard)
    {
      stopped := Poll(ctx);
      if stopped {
        return;
      }
      conts := conts + [CrossHop(current, edges[i], shard)];
    }
    stopped := false;
  }

  ghost function Charge(g: nat, edges: seq<Edge>): set<(nat, Edge)> {
    set e | e in edges :: (g, e)
  }

  lemma {:induction false} ChargeCount(g: nat, edges: seq<Edge>)
    requires NoDup(edges)
    ensures |Charge(g, edges)| == |edges|
  {
    if |edges| > 0 {
      var init, e := edges[..|edges| - 1], edges[|edges| - 1];
      ChargeCount(g, init);
      assert edges == init + [e];
      NoDupSnoc(init, e);
      assert Charge(g, edges) == Charge(g, init) + {(g, e)};
    }
  }

  ghost predicate Crosses(current: FrontierItem, groups: map<nat, seq<Edge>>, keys: set<nat>, c: Continuation) {
    exists g, e :: g in keys && g in groups && g != current.shard && e in groups[g] && c == CrossHop(current, e, g)
  }

  /** Hands over every edge stored outside the start shard, group by group in an arbitrary order. */
  method HandOff(ctx: Context, current: FrontierItem, groups: map<nat, seq<Edge>>)
    returns (stopped: bool, conts: seq<Continuation>, ghost charged: set<(nat, Edge)>)
    requires forall g :: g in groups ==> NoDup(groups[g])
    ensures stopped ==> !ctx.Background?
    ensures !stopped ==>
      && (forall c :: c in conts <==> Crosses(current, groups, groups.Keys, c))
      && |charged| == |conts| && forall p :: p in charged ==> p.0 in groups && p.1 in groups[p.0]
  {
    conts, charged := [], {};
    var left := groups.Keys;
    while left != {}
      invariant left <= groups.Keys
      invariant forall c :: c in conts <==> Crosses(current, groups, groups.Keys - left, c)
      invariant |charged| == |conts| && forall p :: p in charged ==> p.0 in groups && p.0 !in left && p.1 in groups[p.0]
      decreases left
    {
      var g :| g in left;
      if g != current.shard {
        var more: seq<Continuation>;
        stopped, more := HandOffGroup(ctx, current, g, groups[g]);
        if stopped {
          return;
        }
        CrossesGrows(current, groups, groups.Keys - left, g, conts, more);
        ChargeCount(g, groups[g]);
        assert charged !! Charge(g, groups[g]);
        conts, charged := conts + more, charged + Charge(g, groups[g]);
      } else {
        CrossesSkips(current, groups, groups.Keys - left, g);
      }
      assert groups.Keys - (left - {g}) == (groups.Keys - left) + {g};
      left := left - {g};
    }
    assert groups.Keys - left == groups.Keys;
    stopped := false;
  }

  lemma CrossesGrows(current: FrontierItem, groups: map<nat, seq<Edge>>, keys: set<nat>, g: nat,
                     conts: seq<Continuation>, more: seq<Continuation>)
    requires g in groups && g != current.shard && |more| == |groups[g]|
    requires forall i :: 0 <= i < |more| ==> more[i] == CrossHop(current, groups[g][i], g)
    requires forall c :: c in conts <==> Crosses(current, groups, keys, c)
    ensures forall c :: c in conts + more <==> Crosses(current, groups, keys + {g}, c)
  {
    forall c | c in conts + more ensures Crosses(current, groups, keys + {g}, c) {
      if c in conts {
        assert Crosses(current, groups, keys, c);
      } else {
        var i :| 0 <= i < |more| && more[i] == c;
        assert groups[g][i] in groups[g];
      }
    }
    forall c | Crosses(current, groups, keys + {g}, c) ensures c in conts + more {
      var h, e :| h in keys + {g} && h in groups && h != current.shard && e in groups[h]
          && c == CrossHop(current, e, h);
      if h == g {
        var i :| 0 <= i < |groups[g]| && groups[g][i] == e;
        assert more[i] == c;
      } else {
        assert Crosses(current, groups, keys, c);
      }
    }
  }

  lemma CrossesSkips(current: FrontierItem, groups: map<nat, seq<Edge>>, keys: set<nat>, g: nat)
    requires g == current.shard
    ensures forall c :: Crosses(current, groups, keys + {g}, c) <==> Crosses(current, groups, keys, c)
  {
  }

  // Phase 2 steps.

  function Unmarked(visited: set<string>): Edge -> bool {
    (e: Edge) => e.to !in visited
  }

  method CarryGroup(ctx: Context, current: Continuation, edges: seq<Edge>, visited: set<string>)
    returns (stopped: bool, conts: seq<Continuation>)
    ensures stopped ==> !ctx.Background?
    ensures !stopped ==>
      var kept := Filter(edges, Unmarked(visited));
      |conts| == |kept| && forall i :: 0 <= i < |kept| ==> conts[i] == CarryDepth(current, kept[i])
  {
    conts := [];
    ghost var kept: seq<Edge> := [];
    for i := 0 to |edges|
      invariant kept == Filter(edges[..i], Unmarked(visited))
      invariant |conts| == |kept| && forall k :: 0 <= k < |kept| ==> conts[k] == CarryDepth(current, kept[k])
    {
      assert edges[..i + 1] == edges[..i] + [edges[i]];
      FilterSnoc(edges[..i], edges[i], Unmarked(visited));
      stopped := Poll(ctx);
      if stopped {
        return;
      }
      if edges[i].to !in visited {
        conts := conts + [CarryDepth(current, edges[i])];
        kept := kept + [edges[i]];
      }
    }
    assert edges[..|edges|] == edges;
    stopped := false;
  }

  ghost predicate Carries(current: Continuation, groups: map<nat, seq<Edge>>, keys: set<nat>, visited: set<string>,
                          c: Continuation)
  {
    exists g, e :: g in keys && g in groups && e in groups[g] && e.to !in visited && c == CarryDepth(current, e)
  }

  /** Queues the unmarked targets of every group, in an arbitrary order of groups. */
  method CarryAll(ctx: Context, current: Continuation, groups: map<nat, seq<Edge>>, visited: set<string>)
    returns (stopped: bool, conts: seq<Continuation>, ghost charged: set<(nat, Edge)>)
    requires forall g :: g in groups ==> NoDup(groups[g])
    ensures stopped ==> !ctx.Background?
    ensures !stopped ==>
      && (forall c :: c in conts <==> Carries(current, groups, groups.Keys, visited, c))
      && |charged| == |conts| && forall p :: p in charged ==> p.0 in groups && p.1 in groups[p.0]
  {
    conts, charged := [], {};
    var left := groups.Keys;
    while left != {}
      invariant left <= groups.Keys
      invariant forall c :: c in conts <==> Carries(current, groups, groups.Keys - left, visited, c)
      invariant |charged| == |conts| && forall p :: p in charged ==> p.0 in groups && p.0 !in left && p.1 in groups[p.0]
      decreases left
    {
      var g :| g in left;
      var more: seq<Continuation>;
      stopped, more := CarryGroup(ctx, current, groups[g], visited);
      if stopped {
        return;
      }
      ghost var kept := Filter(groups[g], Unmarked(visited));
      FilterMembers(groups[g], Unmarked(visited));
      FilterNoDup(groups[g], Unmarked(visited));
      CarriesGrows(current, groups, groups.Keys - left, g, visited, conts, more, kept);
      ChargeCount(g, kept);
      assert charged !! Charge(g, kept);
      conts, charged := conts + more, charged + Charge(g, kept);
      assert groups.Keys - (left - {g}) == (groups.Keys - left) + {g};
      left := left - {g};
    }
    assert groups.Keys - left == groups.Keys;
    stopped := false;
  }

  lemma CarriesGrows(current: Continuation, groups: map<nat, seq<Edge>>, keys: set<nat>, g: nat, visited: set<string>,
                     conts: seq<Continuation>, more: seq<Continuation>, kept: seq<Edge>)
    requires g in groups && |more| == |kept| && forall e :: e in kept <==> e in groups[g] && e.to !in visited
    requires forall i :: 0 <= i < |more| ==> more[i] == CarryDepth(current, kept[i])
    requires forall c :: c in conts <==> Carries(current, groups, keys, visited, c)
    ensures forall c :: c in conts + more <==> Carries(current, groups, keys + {g}, visited, c)
  {
    forall c | c in conts + more ensures Carries(current, groups, keys + {g}, visited, c) {
      if c in conts {
        assert Carries(current, groups, keys, visited, c);
      } else {
        var i :| 0 <= i < |more| && more[i] == c;
        assert kept[i] in kept;
      }
    }
    forall c | Carries(current, groups, keys + {g}, visited, c) ensures c in conts + more {
      var h, e :| h in keys + {g} && h in groups && e in groups[h] && e.to !in visited && c == CarryDepth(current, e);
      if h == g {
        var i :| 0 <= i < |kept| && kept[i] == e;
        assert more[i] == c;
      } else {
        assert Carries(current, groups, keys, visited, c);
      }
    }
  }

  /** What happened to one continuation taken off the merge queue. */
  lemma CarriedAre(shards: seq<ShardState>, current: Continuation, groups: map<nat, seq<Edge>>, visited: set<string>,
                   more: seq<Continuation>)
    requires GroupsOf(shards, current.vertex, groups)
    requires forall c :: c in more <==> Carries(current, groups, groups.Keys, visited, c)
    ensures forall c :: c in more <==>
              exists e :: e in EdgeSet(shards) && e.from == current.vertex && e.to !in visited
                          && c == CarryDepth(current, e)
  {
    forall c | c in more
      ensures exists e :: e in EdgeSet(shards) && e.from == current.vertex && e.to !in visited
                          && c == CarryDepth(current, e)
    {
      var g, e :| g in groups.Keys && g in groups && e in groups[g] && e.to !in visited && c == CarryDepth(current, e);
      assert InGroup(groups, g, e);
      assert e in EdgeSet(shards);
    }
    forall e | e in EdgeSet(shards) && e.from == current.vertex && e.to !in visited
      ensures CarryDepth(current, e) in more
    {
      var g: nat :| g < |shards| && e in shards[g].live;
      assert InGroup(groups, g, e);
      assert Carries(current, groups, groups.Keys, visited, CarryDepth(current, e));
    }
  }

  lemma CrossedAre(shards: seq<ShardState>, current: FrontierItem, groups: map<nat, seq<Edge>>, more: seq<Continuation>)
    requires GroupsOf(shards, current.vertex, groups)
    requires forall c :: c in more <==> Crosses(current, groups, groups.Keys, c)
    ensures forall c :: c in more <==>
              exists g, e :: AwayEdge(shards, current.shard, g, e) && e.from == current.vertex
                             && c == CrossHop(current, e, g)
  {
    forall c | c in more
      ensures exists g, e :: AwayEdge(shards, current.shard, g, e) && e.from == current.vertex
                             && c == CrossHop(current, e, g)
    {
      var g, e :| g in groups.Keys && g in groups && g != current.shard && e in groups[g]
          && c == CrossHop(current, e, g);
      assert InGroup(groups, g, e);
      assert AwayEdge(shards, current.shard, g, e);
    }
    forall g, e | AwayEdge(shards, current.shard, g, e) && e.from == current.vertex
      ensures CrossHop(current, e, g) in more
    {
      assert InGroup(groups, g, e);
      assert Crosses(current, groups, groups.Keys, CrossHop(current, e, g));
    }
  }

  lemma GroupPlaces(shards: seq<ShardState>, v: string, groups: map<nat, seq<Edge>>, more: set<(nat, Edge)>)
    requires GroupsOf(shards, v, groups)
    requires forall p :: p in more ==> p.0 in groups && p.1 in groups[p.0]
    ensures forall p :: p in more ==> p in Places(shards) && p.1.from == v
  {
    forall p | p in more ensures p in Places(shards) && p.1.from == v {
      var g, e := p.0, p.1;
      assert InGroup(groups, g, e);
    }
  }

  /** The generations a walk reads, as they are during the whole walk. */
  ghost predicate Serves(store: Store, shards: seq<ShardState>)
    reads store.manager, store.manager.pool
  {
    store.manager.Valid() && store.manager.Exact() && store.manager.States() == shards
  }

  /** The continuations one expansion queues, and the places they are charged to. */
  ghost predicate Expanded(shards: seq<ShardState>, current: Continuation, maxDepth: int, visited: set<string>,
                           more: seq<Continuation>, places: set<(nat, Edge)>)
  {
    && (current.depth >= maxDepth ==> more == [])
    && (current.depth < maxDepth ==> forall c :: c in more <==>
          exists e :: e in EdgeSet(shards) && e.from == current.vertex && e.to !in visited
                      && c == CarryDepth(current, e))
    && |places| == |more| && (forall p :: p in places ==> p in Places(shards) && p.1.from == current.vertex)
  }

  method Outgoing(store: Store, v: string, ghost shards: seq<ShardState>) returns (groups: map<nat, seq<Edge>>)
    requires Serves(store, shards)
    ensures GroupsOf(shards, v, groups)
  {
    groups := store.EdgesFromByShard(v);
    assert forall g: nat :: g < |shards| ==> store.manager.pool[g].View() == shards[g];
    GroupsMean(shards, v);
  }

  /** Expands one continuation across all shards, unless it has reached the depth limit. */
  method Expand(ctx: Context, store: Store, current: Continuation, maxDepth: int, visited: set<string>,
                ghost shards: seq<ShardState>)
    returns (stopped: bool, more: seq<Continuation>, ghost places: set<(nat, Edge)>)
    requires Serves(store, shards)
    ensures stopped ==> !ctx.Background?
    ensures !stopped ==> Expanded(shards, current, maxDepth, visited, more, places)
  {
    if current.depth >= maxDepth {
      return false, [], {};
    }
    var groups := Outgoing(store, current.vertex, shards);
    stopped, more, places := CarryAll(ctx, current, groups, visited);
    if !stopped {
      CarriedAre(shards, current, groups, visited, more);
      GroupPlaces(shards, current.vertex, groups, places);
    }
  }

  /** Marks the vertex of a continuation and expands it. */
  method Accept(ctx: Context, store: Store, current: Continuation, maxDepth: int, marks: Marks,
                ghost shards: seq<ShardState>)
    returns (stopped: bool, more: seq<Continuation>, ghost places: set<(nat, Edge)>)
    requires Serves(store, shards)
    modifies marks
    ensures Serves(store, shards) == old(Serves(store, shards))
    ensures marks.ids == old(marks.ids) + {current.vertex}
    ensures stopped ==> !ctx.Background?
    ensures !stopped ==> Expanded(shards, current, maxDepth, marks.ids, more, places)
  {
    marks.ids := marks.ids + {current.vertex};
    stopped, more, places := Expand(ctx, store, current, maxDepth, marks.ids, shards);
  }

  /** Takes the unmarked head off the queue; the state of the merger moves on. */
  method DrainHead(ctx: Context, store: Store, queue: seq<Continuation>, maxDepth: int, marks: Marks,
                   ghost shards: seq<ShardState>,
                   ghost conts: seq<Continuation>, ghost marked: set<string>, ghost drained: seq<Continuation>,
                   ghost charged: set<(nat, Edge)>)
    returns (stopped: bool, rest: seq<Continuation>, ghost places: set<(nat, Edge)>, ghost queued: nat)
    requires Serves(store, shards)
    requires Merging(shards, maxDepth, conts, marked, drained, queue, marks.ids) && |queue| > 0
             && queue[0].vertex !in marks.ids
    requires Waving(EdgeSet(shards), maxDepth, conts, marked, drained, queue)
    requires ChargedTo(shards, charged, ContinuationVertices(drained))
    modifies marks
    ensures Serves(store, shards) == old(Serves(store, shards))
    ensures marks.ids == old(marks.ids) + {queue[0].vertex}
    ensures stopped ==> !ctx.Background?
    ensures !stopped ==> Merging(shards, maxDepth, conts, marked, drained + [queue[0]], rest, marks.ids)
    ensures !stopped ==> Waving(EdgeSet(shards), maxDepth, conts, marked, drained + [queue[0]], rest)
    ensures !stopped ==> ChargedTo(shards, charged + places, ContinuationVertices(drained + [queue[0]]))
    ensures !stopped ==> |charged + places| == |charged| + queued && |rest| == |queue| - 1 + queued
  {
    ghost var before := marks.ids;
    var more: seq<Continuation>;
    stopped, more, places := Accept(ctx, store, queue[0], maxDepth, marks, shards);
    rest, queued := queue[1..] + more, |more|;
    if !stopped {
      MergeAccepts(shards, maxDepth, conts, marked, drained, queue, before, more);
      WavingAccepts(EdgeSet(shards), maxDepth, conts, marked, drained, queue, more);
      DrainedCharges(shards, drained, queue[0], charged, places);
    }
  }

  /** Drains the continuations across all shards, for any input. */
  method Merge(ctx: Context, store: Store, paths: seq<Path>, conts: seq<Continuation>, maxDepth: int, marks: Marks,
               ghost shards: seq<ShardState>)
    returns (r: Result<seq<Path>>, ghost drained: seq<Continuation>, ghost charged: set<(nat, Edge)>, ghost queued: nat)
    requires Serves(store, shards)
    modifies marks
    ensures r.Err? ==> !ctx.Background? && r.error == Error.Cancelled
    ensures ctx.Spent? && conts != [] ==> r.Err?
    ensures r.Ok? ==> MergeResult(shards, maxDepth, paths, conts, old(marks.ids), drained, r.value, marks.ids)
    ensures r.Ok? ==> Waving(EdgeSet(shards), maxDepth, conts, old(marks.ids), drained, [])
    ensures r.Ok? ==> ChargedTo(shards, charged, ContinuationVertices(drained)) && queued == |charged|
  {
    ghost var marked := marks.ids;
    var out, queue := paths, conts;
    drained, charged, queued := [], {}, 0;
    MergeStarts(shards, maxDepth, conts, marked);
    WavingStarts(EdgeSet(shards), maxDepth, conts, marked);
    while |queue| > 0
      invariant Serves(store, shards) == old(Serves(store, shards)) && (ctx.Spent? ==> queue == conts)
      invariant Merging(shards, maxDepth, conts, marked, drained, queue, marks.ids)
      invariant Waving(EdgeSet(shards), maxDepth, conts, marked, drained, queue)
      invariant out == paths + ContinuationPaths(drained)
      invariant ChargedTo(shards, charged, ContinuationVertices(drained)) && queued == |charged|
      decreases Targets(conts, shards) - marks.ids, |queue|
    {
      var stopped := Poll(ctx);
      if stopped {
        return Err(Error.Cancelled), drained, charged, queued;
      }
      var current := queue[0];
      if current.vertex in marks.ids {
        MergeSkips(shards, maxDepth, conts, marked, drained, queue, marks.ids);
        WavingSkips(EdgeSet(shards), maxDepth, conts, marked, drained, queue);
        queue := queue[1..];
        continue;
      }
      QueueTargets(shards, maxDepth, conts, marked, drained, queue, marks.ids);
      OutputSnoc(paths, drained, current);
      out := out + [ContinuationPath(current)];
      ghost var places: set<(nat, Edge)>;
      ghost var added: nat;
      stopped, queue, places, added := DrainHead(ctx, store, queue, maxDepth, marks, shards, conts, marked, drained,
                                                 charged);
      if stopped {
        return Err(Error.Cancelled), drained, charged, queued;
      }
      drained, charged, queued := drained + [current], charged + places, queued + added;
    }
    r := Ok(out);
  }

  lemma OutputSnoc(paths: seq<Path>, drained: seq<Continuation>, c: Continuation)
    ensures paths + ContinuationPaths(drained + [c]) == (paths + ContinuationPaths(drained)) + [ContinuationPath(c)]
  {
  }

  lemma MergeStarts(shards: seq<ShardState>, maxDepth: int, conts: seq<Continuation>, marked: set<string>)
    ensures Merging(shards, maxDepth, conts, marked, [], conts, marked)
    ensures ChargedTo(shards, {}, ContinuationVertices([]))
  {
    assert ContinuationVertices([]) == {};
  }

  lemma DrainedCharges(shards: seq<ShardState>, drained: seq<Continuation>, current: Continuation,
                       charged: set<(nat, Edge)>, places: set<(nat, Edge)>)
    requires ChargedTo(shards, charged, ContinuationVertices(drained))
             && current.vertex !in ContinuationVertices(drained)
    requires forall p :: p in places ==> p in Places(shards) && p.1.from == current.vertex
    ensures ChargedTo(shards, charged + places, ContinuationVertices(drained + [current]))
    ensures |charged + places| == |charged| + |places|
  {
    assert ContinuationVertices(drained + [current]) == ContinuationVertices(drained) + {current.vertex};
    ChargesGrow(shards, current.vertex, charged, places, ContinuationVertices(drained));
  }

  /** Everything a merge can ever mark. */
  ghost function Targets(conts: seq<Continuation>, shards: seq<ShardState>): set<string> {
    ContinuationVertices(conts) + set e | e in EdgeSet(shards) :: e.to
  }

  lemma QueueTargets(shards: seq<ShardState>, maxDepth: int, conts: seq<Continuation>, marked: set<string>,
                     drained: seq<Continuation>, queue: seq<Continuation>, visited: set<string>)
    requires Merging(shards, maxDepth, conts, marked, drained, queue, visited) && |queue| > 0
    ensures queue[0].vertex in Targets(conts, shards)
  {
    assert queue[0] in queue;
  }

  // Phase 1.

  lemma VisitedAre(shards: seq<ShardState>, current: FrontierItem, maxDepth: int, groups: map<nat, seq<Edge>>,
                   visited: set<string>, more: seq<FrontierItem>)
    requires GroupsOf(shards, current.vertex, groups) && current.depth < maxDepth
    requires forall m :: m in more ==> exists e :: e in Group(groups, current.shard) && m == HomeHop(current, e)
    requires forall e :: e in Group(groups, current.shard) ==> e.to in visited
    ensures forall m :: m in more ==> HomeStep(shards, current.shard, maxDepth, current, m) && m.shard == current.shard
    ensures forall e :: HomeEdge(shards, current.shard, e) && e.from == current.vertex ==> e.to in visited
  {
    forall m | m in more ensures HomeStep(shards, current.shard, maxDepth, current, m) && m.shard == current.shard {
      var e :| e in Group(groups, current.shard) && m == HomeHop(current, e);
      assert InGroup(groups, current.shard, e);
      assert HomeEdge(shards, current.shard, e);
    }
    forall e | HomeEdge(shards, current.shard, e) && e.from == current.vertex ensures e.to in visited {
      assert InGroup(groups, current.shard, e);
    }
  }

  /** Expands one frontier item: same-shard targets are marked and queued, other edges handed over. */
  method ExpandHome(ctx: Context, store: Store, current: FrontierItem, maxDepth: int, marks: Marks,
                    ghost shards: seq<ShardState>)
    returns (stopped: bool, more: seq<FrontierItem>, crossed: seq<Continuation>, ghost places: set<(nat, Edge)>)
    requires Serves(store, shards)
    modifies marks
    ensures Serves(store, shards) == old(Serves(store, shards))
    ensures stopped ==> !ctx.Background?
    ensures !stopped ==> HomeExpanded(shards, current, maxDepth, old(marks.ids), more, crossed, places)
    ensures !stopped ==> marks.ids == old(marks.ids) + ItemVertices(more)
  {
    stopped, more, crossed, places := false, [], [], {};
    if current.depth >= maxDepth {
      return;
    }
    var groups := Outgoing(store, current.vertex, shards);
    stopped, more := VisitHome(ctx, current, Group(groups, current.shard), marks);
    if stopped {
      return;
    }
    VisitedAre(shards, current, maxDepth, groups, marks.ids, more);
    stopped, crossed, places := HandOff(ctx, current, groups);
    if !stopped {
      CrossedAre(shards, current, groups, crossed);
      GroupPlaces(shards, current.vertex, groups, places);
    }
  }

  ghost function HomeTargets(shards: seq<ShardState>, start: string): set<string> {
    {start} + set e | e in EdgeSet(shards) :: e.to
  }

  /** Distinct vertices, all of them targets: the search queues only so many items. */
  lemma ItemsAreFew(shards: seq<ShardState>, home: nat, start: string, maxDepth: int, items: seq<FrontierItem>,
                    parents: seq<nat>)
    requires Chained(shards, home, start, maxDepth, items, parents)
    ensures |items| <= |HomeTargets(shards, start)|
  {
    var vs := seq(|items|, i requires 0 <= i < |items| => items[i].vertex);
    forall i | 0 <= i < |items| ensures vs[i] in HomeTargets(shards, start) {
      if i > 0 {
        assert StepAt(shards, home, maxDepth, items, parents, i);
        var e :| HomeEdge(shards, home, e) && e.from == items[parents[i]].vertex
            && items[i] == HomeHop(items[parents[i]], e);
        assert e in EdgeSet(shards);
      }
    }
    NoDupCount(vs);
    SubsetCount((set v | v in vs), HomeTargets(shards, start));
  }

  lemma QueueMoves(t: HomeTrace, h: nat, more: seq<FrontierItem>, crossed: seq<Continuation>, places: set<(nat, Edge)>)
    requires h < |t.items|
    ensures Appended(t, h, more, crossed, places).items[h + 1..] == t.items[h..][1..] + more
    ensures ItemPaths(Appended(t, h, more, crossed, places).items[..h + 1]) == ItemPaths(t.items[..h])
            + [ItemPath(t.items[h])]
  {
  }

  /** The search loop between two iterations: what is still queued, returned and handed over so far. */
  ghost predicate Frontier(shards: seq<ShardState>, home: nat, start: string, maxDepth: int, t: HomeTrace,
                           queue: seq<FrontierItem>, results: seq<Path>, conts: seq<Continuation>, visited: set<string>)
  {
    && Searching(shards, home, start, maxDepth, t, |results|, visited)
    && queue == t.items[|results|..] && results == ItemPaths(t.items[..|results|]) && conts == t.conts
  }

  lemma FrontierMoves(shards: seq<ShardState>, home: nat, start: string, maxDepth: int, t: HomeTrace,
                      queue: seq<FrontierItem>, results: seq<Path>, conts: seq<Continuation>, visited: set<string>,
                      more: seq<FrontierItem>, crossed: seq<Continuation>, places: set<(nat, Edge)>)
    requires Frontier(shards, home, start, maxDepth, t, queue, results, conts, visited) && |queue| > 0
    requires HomeExpanded(shards, queue[0], maxDepth, visited, more, crossed, places)
    ensures Frontier(shards, home, start, maxDepth, Appended(t, |results|, more, crossed, places),
                     queue[1..] + more, results + [ItemPath(queue[0])], conts + crossed, visited + ItemVertices(more))
  {
    SearchContinues(shards, home, start, maxDepth, t, |results|, visited, more, crossed, places);
    QueueMoves(t, |results|, more, crossed, places);
  }

  /** Takes the head off the frontier queue and expands it; the search moves on by one item. */
  method SearchHead(ctx: Context, store: Store, queue: seq<FrontierItem>, results: seq<Path>, conts: seq<Continuation>,
                    maxDepth: int,
                    marks: Marks, ghost shards: seq<ShardState>, ghost start: string, ghost home: nat,
                    ghost t: HomeTrace)
    returns (stopped: bool, queue': seq<FrontierItem>, results': seq<Path>, conts': seq<Continuation>,
             ghost next: HomeTrace)
    requires Serves(store, shards)
    requires Frontier(shards, home, start, maxDepth, t, queue, results, conts, marks.ids) && |queue| > 0
    modifies marks
    ensures Serves(store, shards) == old(Serves(store, shards))
    ensures stopped ==> !ctx.Background?
    ensures !stopped ==> Frontier(shards, home, start, maxDepth, next, queue', results', conts', marks.ids)
                         && |results'| == |results| + 1
  {
    ghost var visited := marks.ids;
    ghost var places: set<(nat, Edge)>;
    var more: seq<FrontierItem>;
    var crossed: seq<Continuation>;
    stopped, more, crossed, places := ExpandHome(ctx, store, queue[0], maxDepth, marks, shards);
    queue', results', conts' := queue[1..] + more, results + [ItemPath(queue[0])], conts + crossed;
    next := Appended(t, |results|, more, crossed, places);
    if !stopped {
      FrontierMoves(shards, home, start, maxDepth, t, queue, results, conts, visited, more, crossed, places);
    }
  }

  lemma FrontierIsBounded(shards: seq<ShardState>, home: nat, start: string, maxDepth: int, t: HomeTrace,
                          queue: seq<FrontierItem>, results: seq<Path>, conts: seq<Continuation>, visited: set<string>)
    requires Frontier(shards, home, start, maxDepth, t, queue, results, conts, visited)
    ensures |results| <= |HomeTargets(shards, start)|
  {
    ItemsAreFew(shards, home, start, maxDepth, t.items, t.parents);
  }

  lemma FrontierStarts(shards: seq<ShardState>, home: nat, start: string, maxDepth: int)
    ensures Frontier(shards, home, start, maxDepth, HomeTrace([RootItem(start, home)], [0], [], {}),
                     [RootItem(start, home)], [], [], {start})
  {
    SearchStarts(shards, home, start, maxDepth);
  }

  lemma FrontierEnds(shards: seq<ShardState>, home: nat, start: string, maxDepth: int, t: HomeTrace,
                     results: seq<Path>, conts: seq<Continuation>, visited: set<string>)
    requires Frontier(shards, home, start, maxDepth, t, [], results, conts, visited)
    ensures HomeWalk(shards, home, start, maxDepth, t) && visited == ItemVertices(t.items)
    ensures results == ItemPaths(t.items) && conts == t.conts
  {
    assert t.items[..|results|] == t.items;
    SearchEnds(shards, home, start, maxDepth, t, visited);
  }

  /** Breadth-first search of the start shard. */
  method SearchHome(ctx: Context, store: Store, start: string, home: nat, maxDepth: int, marks: Marks,
                    ghost shards: seq<ShardState>)
    returns (stopped: bool, results: seq<Path>, conts: seq<Continuation>, ghost t: HomeTrace)
    requires Serves(store, shards) && marks.ids == {start}
    modifies marks
    ensures Serves(store, shards)
    ensures stopped ==> !ctx.Background?
    ensures ctx.Spent? ==> stopped
    ensures !stopped ==> HomeWalk(shards, home, start, maxDepth, t) && marks.ids == ItemVertices(t.items)
    ensures !stopped ==> results == ItemPaths(t.items) && conts == t.conts
  {
    var queue := [RootItem(start, home)];
    results, conts, t := [], [], HomeTrace(queue, [0], [], {});
    FrontierStarts(shards, home, start, maxDepth);
    while |queue| > 0
      invariant Serves(store, shards) && (ctx.Spent? ==> |queue| > 0)
      invariant Frontier(shards, home, start, maxDepth, t, queue, results, conts, marks.ids)
      decreases |HomeTargets(shards, start)| - |results|
    {
      stopped := Poll(ctx);
      if stopped {
        return;
      }
      FrontierIsBounded(shards, home, start, maxDepth, t, queue, results, conts, marks.ids);
      stopped, queue, results, conts, t := SearchHead(ctx, store, queue, results, conts, maxDepth, marks, shards, start,
                                                      home, t);
      if stopped {
        return;
      }
      FrontierIsBounded(shards, home, start, maxDepth, t, queue, results, conts, marks.ids);
    }
    stopped := false;
    FrontierEnds(shards, home, start, maxDepth, t, results, conts, marks.ids);
  }
}
