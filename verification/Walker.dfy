/** The walker object (internal/walk/walk.go, internal/walk/session.go, internal/snapshot/capture.go): one
    session whose marks are replaced before each walk, the two phases, and the pruning of marks. */
module Walkers {
  import opened Seqs
  import opened GraphModel
  import opened ShardSpec
  import opened LabelSpec
  import opened StoreSpec
  import opened Integrity
  import opened Stores
  import opened WalkSpec
  import opened WalkTheory
  import opened WalkLayers
  import opened Walks

  /** Everything a walk promises about the paths it returns: a rooted tree of real paths, closed below
      the limit, complete when the limit is large enough, and with ends and depths that depend on
      nothing but the question. */
  ghost predicate Answers(q: Tour, out: seq<Path>) {
    && RootedTree(EdgeSet(q.shards), q.start, q.maxDepth, out)
    && DepthClosed(EdgeSet(q.shards), q.maxDepth, out)
    && (q.maxDepth >= |Reach(EdgeSet(q.shards), q.start)| - 1 ==> Ends(out) == Reach(EdgeSet(q.shards), q.start))
    && ReturnsExactly(q, out)
  }

  /** The question a walk from the vertex asks. */
  ghost function TourFrom(cfg: Config, route: seq<nat>, shards: seq<ShardState>, start: string, maxDepth: int): Tour {
    Tour(shards, HomeShard(cfg, route, shards, start), start, maxDepth)
  }

  /** A finished walk: how its two phases went, what it answers and how many continuations it queued. */
  ghost predicate Report(q: Tour, t: HomeTrace, drained: seq<Continuation>, queued: nat, out: seq<Path>) {
    && Walked(q.shards, q.home, q.start, q.maxDepth, t, drained, out, Ends(out))
    && Answers(q, out)
    && queued <= |Places(q.shards)|
  }

  lemma WalkedReturnsExactly(q: Tour, t: HomeTrace, drained: seq<Continuation>, out: seq<Path>, visited: set<string>)
    requires Walked(q.shards, q.home, q.start, q.maxDepth, t, drained, out, visited)
    ensures ReturnsExactly(q, out)
  {
    forall v, d: nat ensures Returned(out, v, d) <==> Finds(q, v, d) {
      WalkFindsExactly(q, t, drained, out, visited, v, d);
    }
  }

  lemma WalkedAnswers(q: Tour, t: HomeTrace, drained: seq<Continuation>, out: seq<Path>, visited: set<string>)
    requires Walked(q.shards, q.home, q.start, q.maxDepth, t, drained, out, visited)
    ensures Answers(q, out) && visited == Ends(out)
  {
    WalkIsRootedTree(q.shards, q.home, q.start, q.maxDepth, t, drained, out, visited);
    WalkIsDepthClosed(q.shards, q.home, q.start, q.maxDepth, t, drained, out, visited);
    WalkEnds(q.shards, q.home, q.start, q.maxDepth, t, drained, out, visited);
    WalkedReturnsExactly(q, t, drained, out, visited);
    if q.maxDepth >= |Reach(EdgeSet(q.shards), q.start)| - 1 {
      DeepWalkReturnsReachable(q.shards, q.home, q.start, q.maxDepth, t, drained, out, visited);
    }
  }

  /** Both phases over one set of marks. */
  method Traverse(ctx: Context, store: Store, session: Session, start: string, home: nat, maxDepth: int,
                  ghost shards: seq<ShardState>)
    returns (r: Result<seq<Path>>, ghost t: HomeTrace, ghost drained: seq<Continuation>, ghost queued: nat)
    requires Serves(store, shards) && session.visited.ids == {start}
    modifies session`state, session.visited
    ensures r.Err? ==> !ctx.Background? && r.error == Error.Cancelled
    ensures ctx.Spent? ==> r.Err?
    ensures r.Ok? ==> Walked(shards, home, start, maxDepth, t, drained, r.value, session.visited.ids)
    ensures r.Ok? ==> queued <= |Places(shards)| && session.state == Draining
  {
    var stopped, results, conts;
    drained, queued := [], 0;
    stopped, results, conts, t := SearchHome(ctx, store, start, home, maxDepth, session.visited, shards);
    if stopped {
      return Err(Error.Cancelled), t, drained, queued;
    }
    session.Transition(Draining);
    ghost var charged: set<(nat, Edge)>;
    r, drained, charged, queued := Merge(ctx, store, results, conts, maxDepth, session.visited, shards);
    queued := queued + |conts|;
    if r.Ok? {
      WorkIsLinear(shards, home, start, maxDepth, t, drained, r.value, session.visited.ids, charged);
    }
  }

  lemma PruneStep(marks: set<string>, left: set<string>, keys: set<string>, v: string)
    requires v in left && left <= marks
    ensures (marks - (left - {v})) * keys + (left - {v})
            == ((marks - left) * keys + left) - (if v in keys then {} else {v})
    ensures v in (marks - left) * keys + left
  {
  }

  /** Drops the marks of vertices that are no longer stored. */
  method PruneDeletes(store: Store, marks: Marks) returns (removed: nat)
    modifies marks
    ensures marks.ids == old(marks.ids) * store.vertices.Keys
    ensures removed == |old(marks.ids)| - |marks.ids|
  {
    removed := 0;
    var left := marks.ids;
    ghost var before, keys := marks.ids, store.vertices.Keys;
    while left != {}
      invariant left <= before && store.vertices.Keys == keys
      invariant marks.ids == (before - left) * keys + left
      invariant removed == |before| - |marks.ids|
      decreases left
    {
      var v :| v in left;
      PruneStep(before, left, keys, v);
      var alive := store.GetVertex(v);
      if alive.None? {
        marks.ids := marks.ids - {v};
        removed := removed + 1;
      }
      left := left - {v};
    }
  }

  /** Both phases and the pruning, for a session that has marked only the start vertex. */
  method Explore(ctx: Context, store: Store, session: Session, start: string, home: nat, maxDepth: int,
                 ghost shards: seq<ShardState>)
    returns (r: Result<seq<Path>>, ghost t: HomeTrace, ghost drained: seq<Continuation>, ghost queued: nat)
    requires Serves(store, shards) && session.visited.ids == {start}
    modifies session`state, session.visited
    ensures r.Err? ==> !ctx.Background? && r.error == Error.Cancelled
    ensures ctx.Spent? ==> r.Err?
    ensures r.Ok? ==> Report(Tour(shards, home, start, maxDepth), t, drained, queued, r.value)
    ensures r.Ok? ==> session.visited.ids == Ends(r.value) * store.vertices.Keys && session.state == Draining
  {
    r, t, drained, queued := Traverse(ctx, store, session, start, home, maxDepth, shards);
    if r.Ok? {
      WalkedAnswers(Tour(shards, home, start, maxDepth), t, drained, r.value, session.visited.ids);
      var _ := PruneDeletes(store, session.visited);
    }
  }

  /** The state of the store that a walk reads. */
  ghost predicate Reads(store: Store, shards: seq<ShardState>)
    reads store.manager, store.manager.pool, store.router
  {
    store.Readable() && store.manager.States() == shards
  }

  /** Starts a session that has no marks on the stored start vertex. */
  method Launch(ctx: Context, store: Store, session: Session, start: string, maxDepth: int,
                ghost shards: seq<ShardState>)
    returns (r: Result<seq<Path>>, ghost t: HomeTrace, ghost drained: seq<Continuation>, ghost queued: nat)
    requires Reads(store, shards) && session.visited.ids == {}
    modifies session`state, session.visited
    ensures r.Err? ==> !ctx.Background? && r.error == Error.Cancelled
    ensures ctx.Spent? ==> r.Err?
    ensures r.Ok? ==> Report(TourFrom(store.cfg, store.router.route, shards, start, maxDepth), t, drained, queued,
                             r.value)
    ensures r.Ok? ==> session.visited.ids == Ends(r.value) * store.vertices.Keys && session.state == Draining
  {
    session.Transition(Expanding);
    session.Mark(start);
    var home := store.ShardOfVertex(start);
    r, t, drained, queued := Explore(ctx, store, session, start, home, maxDepth, shards);
  }

  /** One answer per entry vertex, in order. */
  ghost predicate AllAnswer(cfg: Config, route: seq<nat>, shards: seq<ShardState>, entries: seq<string>, maxDepth: int,
                            walks: seq<seq<Path>>)
  {
    |walks| <= |entries|
    && (|walks| == 0 ||
        var n := |walks| - 1;
        AllAnswer(cfg, route, shards, entries, maxDepth, walks[..n])
            && Answers(TourFrom(cfg, route, shards, entries[n], maxDepth), walks[n]))
  }

  /** The results are the answers for the first entries, one after the other. */
  ghost predicate Gathered(cfg: Config, route: seq<nat>, shards: seq<ShardState>, entries: seq<string>, maxDepth: int,
                           walks: seq<seq<Path>>, results: seq<Path>)
  {
    AllAnswer(cfg, route, shards, entries, maxDepth, walks) && results == Flatten(walks)
  }

  lemma GatherOne(cfg: Config, route: seq<nat>, shards: seq<ShardState>, entries: seq<string>, maxDepth: int,
                  walks: seq<seq<Path>>, results: seq<Path>, paths: seq<Path>)
    requires Gathered(cfg, route, shards, entries, maxDepth, walks, results) && |walks| < |entries|
    requires Answers(TourFrom(cfg, route, shards, entries[|walks|], maxDepth), paths)
    ensures Gathered(cfg, route, shards, entries, maxDepth, walks + [paths], results + paths)
  {
    FlattenSnoc(walks, paths);
    assert (walks + [paths])[..|walks|] == walks;
  }

  class Walker {
    const store: Store
    var session: Session?

    constructor (store: Store)
      ensures this.store == store && session == null
    {
      this.store, session := store, null;
    }

    /** A session with no marks: a new one, or the old one with its marks replaced. */
    method EnsureSession() returns (current: Session)
      modifies this, session
      ensures session == current && fresh(current.visited) && current.visited.ids == {} && current.state == Open
      ensures current == old(session) || fresh(current)
    {
      if session == null {
        current := new Session();
        session := current;
        return;
      }
      current := session;
      current.Reset();
    }

    /** Walks from the start vertex. The outcome does not depend on earlier walks. */
    method Walk(ctx: Context, start: string, maxDepth: int, ghost shards: seq<ShardState>)
      returns (r: Result<seq<Path>>, ghost t: HomeTrace, ghost drained: seq<Continuation>, ghost queued: nat)
      requires Reads(store, shards)
      modifies this, session
      ensures Reads(store, shards) == old(Reads(store, shards))
      ensures session != null && (session == old(session) || fresh(session)) && fresh(session.visited)
      ensures start !in store.vertices ==> r == Err(VertexNotFound) && session.visited.ids == {}
                                           && session.state == Open
      ensures start in store.vertices && r.Err? ==> !ctx.Background? && r.error == Error.Cancelled
      ensures ctx.Spent? ==> r.Err?
      ensures r.Ok? ==> Report(TourFrom(store.cfg, store.router.route, shards, start, maxDepth), t, drained, queued,
                               r.value)
      ensures r.Ok? ==> session.visited.ids == Ends(r.value) * store.vertices.Keys && session.state == Draining
    {
      t, drained, queued := HomeTrace([], [], [], {}), [], 0;
      var current := EnsureSession();
      var found := store.GetVertex(start);
      if found.None? {
        return Err(VertexNotFound), t, drained, queued;
      }
      r, t, drained, queued := Launch(ctx, store, current, start, maxDepth, shards);
    }

    /** Walks from every entry vertex of the label, one after the other. */
    method WalkFromLabel(ctx: Context, tag: string, maxDepth: int, ghost shards: seq<ShardState>)
      returns (r: Result<seq<Path>>, ghost walks: seq<seq<Path>>)
      requires Reads(store, shards)
      modifies this, session
      ensures var entries := Entered(store.labelIndex.entries, tag);
              && (r.Ok? ==> |walks| == |entries|
                            && Gathered(store.cfg, store.router.route, shards, entries, maxDepth, walks, r.value))
              && (r.Err? ==> (r.error == VertexNotFound && exists v :: v in entries && v !in store.vertices)
                             || (!ctx.Background? && r.error == Error.Cancelled))
      ensures Labelled(store.labelIndex.entries, store.vertices) && ctx.Background? ==> r.Ok?
      ensures ctx.Spent? && Entered(store.labelIndex.entries, tag) != [] ==> r == Err(Error.Cancelled)
    {
      var entries := store.LookupLabel(tag);
      r, walks := WalkEntries(ctx, entries, maxDepth, shards);
    }

    /** One entry of the label, unless the context is found cancelled before it. */
    method WalkEntry(ctx: Context, entry: string, maxDepth: int, ghost shards: seq<ShardState>)
      returns (r: Result<seq<Path>>)
      requires Reads(store, shards)
      modifies this, session
      ensures Reads(store, shards) && store.router.route == old(store.router.route)
      ensures store.vertices == old(store.vertices)
      ensures session == old(session) || fresh(session)
      ensures r.Err? ==> (r.error == VertexNotFound && entry !in store.vertices)
                         || (!ctx.Background? && r.error == Error.Cancelled)
      ensures ctx.Spent? ==> r == Err(Error.Cancelled)
      ensures r.Ok? ==> Answers(TourFrom(store.cfg, store.router.route, shards, entry, maxDepth), r.value)
    {
      var stopped := Poll(ctx);
      if stopped {
        return Err(Error.Cancelled);
      }
      var paths, _, _, _ := Walk(ctx, entry, maxDepth, shards);
      r := paths;
    }

    method WalkEntries(ctx: Context, entries: seq<string>, maxDepth: int, ghost shards: seq<ShardState>)
      returns (r: Result<seq<Path>>, ghost walks: seq<seq<Path>>)
      requires Reads(store, shards)
      modifies this, session
      ensures r.Ok? ==> |walks| == |entries|
                        && Gathered(store.cfg, store.router.route, shards, entries, maxDepth, walks, r.value)
      ensures r.Err? ==> (r.error == VertexNotFound && exists v :: v in entries && v !in store.vertices)
                         || (!ctx.Background? && r.error == Error.Cancelled)
      ensures ctx.Spent? && entries != [] ==> r == Err(Error.Cancelled)
    {
      var results: seq<Path> := [];
      walks := [];
      ghost var route, vertices := store.router.route, store.vertices;
      for i := 0 to |entries|
        invariant Reads(store, shards) && store.router.route == route && store.vertices == vertices
        invariant session == old(session) || fresh(session)
        invariant ctx.Spent? ==> i == 0
        invariant |walks| == i && Gathered(store.cfg, route, shards, entries, maxDepth, walks, results)
      {
        var paths := WalkEntry(ctx, entries[i], maxDepth, shards);
        if paths.Err? {
          return Err(paths.error), walks;
        }
        GatherOne(store.cfg, route, shards, entries, maxDepth, walks, results, paths.value);
        results, walks := results + paths.value, walks + [paths.value];
      }
      r := Ok(results);
    }

    /** Ends the session; its marks are gone before the next walk. */
    method Close()
      modifies session
      ensures session != null ==> fresh(session.visited) && session.visited.ids == {} && session.state == Open
    {
      if session != null {
        session.Transition(Closed);
        session.Reset();
      }
    }
  }
}
