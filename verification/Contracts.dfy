/** What the public operations answer and change, told on the fields of the state and on literals: of the functions
    that make up an operation only the operation itself is named. */
module Contracts {
  import opened Seqs
  import opened GraphModel
  import opened Text
  import opened ShardSpec
  import opened IndexSpec
  import opened LabelSpec
  import opened StoreSpec
  import opened Routing
  import opened FlatGraph
  import opened Queries
  import opened Integrity
  import opened Journal
  import opened Runs
  import opened Placement
  import opened Lookup
  import opened Stores

  /** The index has gained exactly the entries `prefix key=value` of one id. */
  ghost predicate Gains(before: set<(string, string)>, after: set<(string, string)>, prefix: string,
                        attrs: map<string, string>, id: string)
  {
    forall entry, x :: (entry, x) in after <==>
      (entry, x) in before || (x == id && exists k :: k in attrs && entry == prefix + k + "=" + attrs[k])
  }

  lemma TaggedGains(pairs: set<(string, string)>, prefix: string, attrs: map<string, string>, id: string)
    ensures Gains(pairs, pairs + Tagged(Entries(prefix, attrs), id), prefix, attrs, id)
  {
    var after := pairs + Tagged(Entries(prefix, attrs), id);
    forall entry, x ensures (entry, x) in after <==>
      (entry, x) in pairs || (x == id && exists k :: k in attrs && entry == prefix + k + "=" + attrs[k])
    {
      assert entry in Entries(prefix, attrs) <==> exists k :: k in attrs && entry == AttrEntry(prefix + k, attrs[k]);
    }
  }

  // Vertices.

  /** A put is refused exactly on a closed store, without an id and for a stored id, and then changes nothing.
      Otherwise it stores the vertex, appends it to the order, indexes its attributes and logs it. */
  lemma PutVertexContract(cfg: Config, s: StoreState, v: Vertex)
    ensures var o := PutVertex(cfg, s, v);
            && (o.error.None? <==> !s.closed && v.id != "" && v.id !in s.vertices)
            && (s.closed ==> o.error == Some(StoreClosed))
            && (!s.closed && v.id == "" ==> o.error == Some(MissingId))
            && (!s.closed && v.id != "" && v.id in s.vertices ==> o.error == Some(VertexExists))
            && (o.error.Some? ==> o.state == s)
    ensures var o := PutVertex(cfg, s, v);
            o.error.None? ==>
              && o.state == s.(vertices := s.vertices[v.id := v], vertexSeq := s.vertexSeq + [v.id],
                               index := o.state.index, log := o.state.log)
              && Gains(s.index.pairs, o.state.index.pairs, "vertex:", v.attrs, v.id)
              && o.state.index.counted == s.index.counted
              && o.state.log == if cfg.logged then s.log + [Record("vertex", v.id, "", "", "", v.tag, v.attrs)]
                                else s.log
  {
    TaggedGains(s.index.pairs, "vertex:", v.attrs, v.id);
  }

  lemma ReplayEvictSameBut(s: StoreState, id: string)
    ensures SameBut(s, ReplayEvict(s, id).state)
  {
  }

  lemma {:induction false} CleanupSameBut(s: StoreState, es: seq<Edge>)
    ensures SameBut(s, Cleanup(s, es).state) && SameBut(s, ReplayCleanup(s, es).state)
    decreases |es|
  {
    if |es| > 0 {
      EvictSameBut(s, es[0].id);
      ReplayEvictSameBut(s, es[0].id);
      CleanupSameBut(Evict(s, es[0].id).state, es[1..]);
      CleanupSameBut(ReplayEvict(s, es[0].id).state, es[1..]);
    }
  }

  /** The log and the store agree on the vertices. */
  ghost predicate SameVertices(g: Graph, s: StoreState) {
    g.vertices == s.vertices && g.vertexSeq == s.vertexSeq
  }

  lemma ReplayRecordVertices(cfg: Config, g: Graph, s: StoreState, r: Record)
    requires SameVertices(g, s) && ReplayRecord(cfg, s, r).error.None?
    ensures SameVertices(Apply(g, r), ReplayRecord(cfg, s, r).state)
  {
    if r.op == "edge-delete" {
      ReplayEvictSameBut(s, r.id);
    } else if r.op == "vertex-delete" {
      CleanupSameBut(s, Incident(s, r.id));
    } else if r.op == "edge" {
      assert SameBut(s, ReplayRecord(cfg, s, r).state);
    }
  }

  lemma {:induction false} ReplayVertices(cfg: Config, log: seq<Record>)
    requires Replay(cfg, log).error.None?
    ensures SameVertices(LogGraph(log), Replay(cfg, log).state)
  {
    if |log| > 0 {
      var init := log[..|log| - 1];
      ReplayVertices(cfg, init);
      ReplayRecordVertices(cfg, LogGraph(init), Replay(cfg, init).state, log[|log| - 1]);
    }
  }

  /** Every stored vertex is listed exactly once, and the log knows the same vertices. */
  ghost predicate Enrolled(cfg: Config, s: StoreState) {
    VerticesListed(s) && if cfg.logged then SameVertices(LogGraph(s.log), s) else s.log == []
  }

  lemma PutVertexLists(cfg: Config, s: StoreState, v: Vertex)
    requires Enrolled(cfg, s)
    ensures Enrolled(cfg, PutVertex(cfg, s, v).state)
  {
    LogSnoc(s.log, VertexRecord(v));
    NoDupSnoc(s.vertexSeq, v.id);
  }

  lemma PutEdgeLists(cfg: Config, s: StoreState, e: Edge)
    requires Enrolled(cfg, s)
    ensures Enrolled(cfg, PutEdge(cfg, s, e).state)
  {
    LogSnoc(s.log, EdgeRecord(e));
  }

  lemma DeleteEdgeLists(cfg: Config, s: StoreState, id: string)
    requires Enrolled(cfg, s)
    ensures Enrolled(cfg, DeleteEdge(cfg, s, id).state)
  {
    EvictSameBut(s, id);
    LogSnoc(s.log, EdgeDeleteRecord(id));
  }

  lemma DropVertexLists(s: StoreState, v: string)
    requires VerticesListed(s)
    ensures VerticesListed(DropVertex(s, v))
  {
    FilterNoDup(s.vertexSeq, IsNot(v));
    FilterMembers(s.vertexSeq, IsNot(v));
  }

  lemma DeleteVertexLists(cfg: Config, s: StoreState, v: string)
    requires Enrolled(cfg, s)
    ensures Enrolled(cfg, DeleteVertex(cfg, s, v).state)
  {
    var cleaned := Cleanup(s, Incident(s, v)).state;
    CleanupSameBut(s, Incident(s, v));
    DropVertexLists(cleaned, v);
    LogSnoc(s.log, VertexDeleteRecord(v));
  }

  lemma ReopenLists(cfg: Config, s: StoreState)
    requires Enrolled(cfg, s)
    ensures Enrolled(cfg, Reopen(cfg, s).state)
  {
    if Replay(cfg, s.log).error.None? {
      ReplayVertices(cfg, s.log);
    }
  }

  lemma StepLists(cfg: Config, s: StoreState, op: Op)
    requires Enrolled(cfg, s)
    ensures Enrolled(cfg, Step(cfg, s, op).state)
  {
    match op
    case PutVertexOp(v) => PutVertexLists(cfg, s, v);
    case PutEdgeOp(e) => PutEdgeLists(cfg, s, e);
    case DeleteEdgeOp(id) => DeleteEdgeLists(cfg, s, id);
    case DeleteVertexOp(v) => DeleteVertexLists(cfg, s, v);
    case ReopenOp => ReopenLists(cfg, s);
    case _ =>
  }

  /** In every state of every run, whatever ids the callers use, the order lists each stored vertex exactly
      once under its own id. */
  lemma {:induction false} RunListsVertices(cfg: Config, ops: seq<Op>)
    ensures Enrolled(cfg, Run(cfg, FreshState(cfg), ops))
  {
    if |ops| > 0 {
      RunListsVertices(cfg, ops[..|ops| - 1]);
      StepLists(cfg, Run(cfg, FreshState(cfg), ops[..|ops| - 1]), ops[|ops| - 1]);
    }
  }

  // Where an edge goes.

  /** A put is refused exactly on a closed store, without an id or a stored endpoint, and when the newest
      generation of the edge's bucket is full or holds the id. Otherwise the edge goes to the end of that
      generation, into the index and into the log. The bucket is the hash of `from>kind>to` modulo their number. */
  lemma PutEdgeContract(cfg: Config, s: StoreState, e: Edge)
    requires ValidConfig(cfg) && Routed(cfg, s)
    ensures var b := if cfg.buckets <= 1 then 0 else cfg.hash(e.from + ">" + e.kind + ">" + e.to) % cfg.buckets;
            && b < |s.gens| && |s.gens[b]| > 0 && s.gens[b][|s.gens[b]| - 1] < |s.shards|
            && var i, o := s.gens[b][|s.gens[b]| - 1], PutEdge(cfg, s, e);
               && (o.error.None? <==> !s.closed && e.id != "" && e.from in s.vertices && e.to in s.vertices
                                      && |s.shards[i].live| < cfg.capacity
                                      && forall f :: f in s.shards[i].live ==> f.id != e.id)
               && (o.error.Some? ==> o.state == s)
               && (o.error.None? ==>
                     && o.state == s.(shards := s.shards[i := s.shards[i].(live := s.shards[i].live + [e])],
                                      index := o.state.index, log := o.state.log)
                     && o.state.index.counted == s.index.counted + {e.id}
                     && Gains(s.index.pairs, o.state.index.pairs, "", e.attrs, e.id)
                     && o.state.log == if cfg.logged
                                       then s.log + [Record("edge", e.id, e.from, e.to, e.kind, "",
                                                            e.attrs)] else s.log)
  {
    var b := if cfg.buckets <= 1 then 0 else cfg.hash(e.from + ">" + e.kind + ">" + e.to) % cfg.buckets;
    assert Fronted(s, b);
    TaggedGains(s.index.pairs, "", e.attrs, e.id);
    assert SoundShard(cfg, s.shards[s.route[b]]);
  }

  /** Which error a refused put reports. */
  lemma PutEdgeErrors(cfg: Config, s: StoreState, e: Edge)
    requires ValidConfig(cfg) && Routed(cfg, s)
    ensures var o := PutEdge(cfg, s, e);
            && (s.closed ==> o.error == Some(StoreClosed))
            && (!s.closed && e.id == "" ==> o.error == Some(MissingId))
            && (!s.closed && e.id != "" && (e.from !in s.vertices || e.to !in s.vertices) ==>
                  o.error == Some(VertexNotFound))
            && (!s.closed && e.id != "" && e.from in s.vertices && e.to in s.vertices && o.error.Some? ==>
                  o.error == Some(ShardFull) || o.error == Some(DuplicateEdge))
  {
    var b := if cfg.buckets <= 1 then 0 else cfg.hash(e.Key()) % cfg.buckets;
    assert Fronted(s, b);
  }

  /** A put into an explicit bucket looks at nothing but the closed flag, the range, and the bucket's newest
      generation, and logs nothing. */
  lemma PutEdgeToBucketContract(cfg: Config, s: StoreState, e: Edge, b: int)
    requires ValidConfig(cfg) && Routed(cfg, s)
    ensures var o := PutEdgeToBucket(cfg, s, e, b);
            && (s.closed ==> o.error == Some(StoreClosed))
            && (!s.closed && !(0 <= b < cfg.buckets) ==> o.error == Some(BucketOutOfRange))
            && (o.error.Some? ==> o.state == s)
            && (!s.closed && 0 <= b < cfg.buckets ==>
                  && |s.gens[b]| > 0 && s.gens[b][|s.gens[b]| - 1] < |s.shards|
                  && var i := s.gens[b][|s.gens[b]| - 1];
                     && (o.error.None? <==> |s.shards[i].live| < cfg.capacity
                                            && forall f :: f in s.shards[i].live ==> f.id != e.id)
                     && (o.error.None? ==>
                           && o.state == s.(shards := s.shards[i := s.shards[i].(live := s.shards[i].live + [e])],
                                            index := o.state.index)
                           && o.state.index.counted == s.index.counted + {e.id}
                           && Gains(s.index.pairs, o.state.index.pairs, "", e.attrs, e.id)))
  {
    if 0 <= b < cfg.buckets {
      assert Fronted(s, b);
      TaggedGains(s.index.pairs, "", e.attrs, e.id);
      assert SoundShard(cfg, s.shards[s.route[b]]);
    }
  }

  /** A vertex hashes to the newest generation of the bucket its id gives. */
  lemma ShardOfVertexContract(cfg: Config, s: StoreState, v: string)
    requires ValidConfig(cfg) && Routed(cfg, s)
    ensures var b := if cfg.buckets <= 1 then 0 else cfg.hash(v) % cfg.buckets;
            b < |s.gens| && |s.gens[b]| > 0 && HomeShard(cfg, s.route, s.shards, v) == s.gens[b][|s.gens[b]| - 1]
  {
    var b := if cfg.buckets <= 1 then 0 else cfg.hash(v) % cfg.buckets;
    assert Fronted(s, b);
  }

  // The enumeration.

  /** The answer is the first listed generation that holds the id. */
  lemma {:induction false} LocateContract(order: seq<nat>, shards: seq<ShardState>, id: string)
    ensures match Locate(order, shards, id)
            case None => forall k :: 0 <= k < |order| && order[k] < |shards| ==>
                           forall e :: e in shards[order[k]].live ==> e.id != id
            case Some(i) => exists k :: 0 <= k < |order| && order[k] == i && FirstAt(order, shards, id, k)
  {
    if order != [] {
      var rest := order[1..];
      LocateContract(rest, shards, id);
      if !(order[0] < |shards| && HasId(shards[order[0]].live, id)) {
        match Locate(rest, shards, id)
        case None =>
        case Some(i) =>
          var k :| 0 <= k < |rest| && rest[k] == i && FirstAt(rest, shards, id, k);
          assert order[k + 1] == i;
          forall j | 0 <= j < k + 1 && order[j] < |shards|
            ensures forall e :: e in shards[order[j]].live ==> e.id != id
          {
            if j > 0 { assert rest[j - 1] == order[j]; }
          }
          assert FirstAt(order, shards, id, k + 1);
      } else {
        assert FirstAt(order, shards, id, 0);
      }
    }
  }

  ghost predicate FirstAt(order: seq<nat>, shards: seq<ShardState>, id: string, k: nat)
    requires k < |order|
  {
    && order[k] < |shards| && (exists e :: e in shards[order[k]].live && e.id == id)
    && (forall j :: 0 <= j < k && order[j] < |shards| ==> forall e :: e in shards[order[j]].live ==> e.id != id)
  }

  ghost predicate Before(gens: seq<seq<nat>>, i: nat, j: nat) {
    exists b, k, c, l :: 0 <= b <= c < |gens| && 0 <= k < |gens[b]| && 0 <= l < |gens[c]|
                         && gens[b][k] == i && gens[c][l] == j && (b < c || k < l)
  }

  lemma {:induction false} FlattenOrder(gens: seq<seq<nat>>, n: nat, i: nat, j: nat)
    requires n <= |gens| && i < j < |Flatten(gens[..n])|
    ensures Before(gens, Flatten(gens[..n])[i], Flatten(gens[..n])[j])
  {
    assert gens[..n][..n - 1] == gens[..n - 1];
    var head, last := Flatten(gens[..n - 1]), gens[n - 1];
    if j < |head| {
      FlattenOrder(gens, n - 1, i, j);
    } else if i >= |head| {
      assert last[i - |head|] == Flatten(gens[..n])[i] && last[j - |head|] == Flatten(gens[..n])[j];
    } else {
      FlattenMembers(gens[..n - 1]);
      assert head[i] in head;
      var b :| 0 <= b < n - 1 && head[i] in gens[..n - 1][b];
      var k :| 0 <= k < |gens[b]| && gens[b][k] == head[i];
      assert last[j - |head|] == Flatten(gens[..n])[j];
    }
  }

  /** Generations are enumerated bucket by bucket and, within a bucket, oldest first. */
  lemma EnumerationOrder(s: StoreState, i: nat, j: nat)
    requires i < j < |Order(s)|
    ensures Before(s.gens, Order(s)[i], Order(s)[j])
  {
    assert s.gens[..|s.gens|] == s.gens;
    FlattenOrder(s.gens, |s.gens|, i, j);
  }

  // Generations.

  /** A rotation succeeds exactly on an open store for a bucket in range. It seals the newest generation, which
      keeps its edges, and puts an empty active one behind it under the next id, which then takes the writes. */
  lemma RotateBucketContract(cfg: Config, s: StoreState, b: int)
    requires ValidConfig(cfg) && Routed(cfg, s)
    ensures var o := RotateBucket(cfg, s, b);
            && (!(0 <= b < cfg.buckets) ==> o.error == Some(BucketOutOfRange))
            && (0 <= b < cfg.buckets && s.closed ==> o.error == Some(StoreClosed))
            && (o.error.Some? ==> o.state == s)
            && (0 <= b < cfg.buckets && !s.closed ==>
                  && o.error.None? && |s.gens[b]| > 0 && s.gens[b][|s.gens[b]| - 1] < |s.shards|
                  && var i, id := s.gens[b][|s.gens[b]| - 1], |s.shards|;
                     o.state == s.(shards := s.shards[i := ShardState(Sealed, s.shards[i].cap, s.shards[i].live)]
                                             + [ShardState(Active, cfg.capacity, [])],
                                   gens := s.gens[b := s.gens[b] + [id]],
                                   active := s.active[b := |s.gens[b]|],
                                   route := s.route[b := id]))
  {
    if 0 <= b < cfg.buckets {
      assert Fronted(s, b);
    }
  }

  /** Archiving works on a closed store too. It freezes the sealed generations of the bucket but the newest, and
      they keep their edges; a bucket out of range is ignored. */
  lemma ArchiveBucketContract(cfg: Config, s: StoreState, b: int)
    requires ValidConfig(cfg) && Routed(cfg, s)
    ensures var t := ArchiveBucket(s, b);
            && t == s.(shards := t.shards) && |t.shards| == |s.shards|
            && (!(0 <= b < cfg.buckets) ==> t.shards == s.shards)
            && (0 <= b < cfg.buckets ==>
                  forall i :: 0 <= i < |s.shards| ==>
                    t.shards[i] == if exists k :: 0 <= k < |s.gens[b]| - 1 && s.gens[b][k] == i
                                   then ShardState(Archived, s.shards[i].cap, s.shards[i].live) else s.shards[i])
  {
    if 0 <= b < cfg.buckets {
      assert Fronted(s, b);
      forall i: nat | i < |s.shards|
        ensures Retired(s, b, i) <==> exists k :: 0 <= k < |s.gens[b]| - 1 && s.gens[b][k] == i
      {
        if Retired(s, b, i) {
          var k :| 0 <= k < |s.gens[b]| && k != s.active[b] && s.gens[b][k] == i;
          assert 0 <= k < |s.gens[b]| - 1;
        }
      }
    }
  }

  // Freezing.

  /** A rotation freezes nothing: what could be removed before it can be removed after it. */
  lemma RotationFreezesNothing(cfg: Config, s: StoreState, b: int, id: string)
    requires ValidConfig(cfg) && Routed(cfg, s)
    ensures Frozen(RotateBucket(cfg, s, b).state, id) <==> Frozen(s, id)
  {
    var t := RotateBucket(cfg, s, b).state;
    RotateBucketContract(cfg, s, b);
    if RotateBucket(cfg, s, b).error.None? {
      var i := s.gens[b][|s.gens[b]| - 1];
      assert Fronted(s, b);
      if k :| 0 <= k < |s.shards| && HasId(s.shards[k].live, id) && s.shards[k].phase == Archived {
        assert k != i && t.shards[k] == s.shards[k];
      }
      if k :| 0 <= k < |t.shards| && HasId(t.shards[k].live, id) && t.shards[k].phase == Archived {
        assert k < |s.shards| && k != i && t.shards[k] == s.shards[k];
      }
    }
  }

  /** What a delete of an edge reports, and that a failing one drops at most a live edge without attributes. */
  lemma DeleteEdgeContract(cfg: Config, s: StoreState, id: string)
    requires Kept(cfg, s)
    ensures var o := DeleteEdge(cfg, s, id);
            && (s.closed ==> o.error == Some(StoreClosed))
            && (!s.closed && (forall e :: e in EdgeSet(s.shards) ==> e.id != id) ==> o.error == Some(EdgeNotFound))
            && (forall e :: e in EdgeSet(s.shards) && e.id == id && !s.closed ==>
                  o.error == if Frozen(s, id) then Some(ShardArchived)
                             else if e.attrs == map[] then Some(EntryMissing) else None)
            && (o.error.Some? && o.error != Some(EntryMissing) ==> o.state == s)
            && (o.error.None? ==>
                  o.state.log == if cfg.logged then s.log + [Record("edge-delete", id, "", "", "", "", map[])]
                                 else s.log)
  {
    FreeMeansAbsent(s.shards, id);
    if e :| e in EdgeSet(s.shards) && e.id == id {
      EvictOutcome(cfg, s, e);
      if !Removable(s, e) { EvictError(cfg, s, e); }
      SameIdSameEdges(s.shards);
    } else {
      EvictEffect(cfg, s, id);
    }
  }

  lemma DeleteVertexErrors(cfg: Config, s: StoreState, v: string)
    requires Kept(cfg, s)
    ensures var o := DeleteVertex(cfg, s, v);
            && (s.closed ==> o.error == Some(StoreClosed) && o.state == s)
            && (!s.closed && v !in s.vertices ==> o.error == Some(VertexNotFound) && o.state == s)
            && (o.error.None? ==>
                  o.state.log == if cfg.logged then s.log + [Record("vertex-delete", v, "", "", "", "", map[])]
                                 else s.log)
  {
    var k := DeleteVertexEffect(cfg, s, v);
  }

  lemma RotationIsKept(cfg: Config, s: StoreState, b: int)
    requires ValidConfig(cfg) && Kept(cfg, s)
    ensures var t := RotateBucket(cfg, s, b).state;
            Kept(cfg, t) && EdgeSet(t.shards) == EdgeSet(s.shards) && t.vertices == s.vertices && t.closed == s.closed
  {
    GenerationsKeep(cfg, s, b);
    GenerationsKeepEdges(cfg, s, b);
  }

  /** Hence every delete answers after a rotation as it did before it. */
  lemma RotationKeepsDeletes(cfg: Config, s: StoreState, b: int, id: string)
    requires ValidConfig(cfg) && Kept(cfg, s)
    ensures var t := RotateBucket(cfg, s, b).state;
            && DeleteEdge(cfg, t, id).error == DeleteEdge(cfg, s, id).error
            && (DeleteVertex(cfg, t, id).error.None? <==> DeleteVertex(cfg, s, id).error.None?)
  {
    var t := RotateBucket(cfg, s, b).state;
    RotationIsKept(cfg, s, b);
    RotationFreezesNothing(cfg, s, b, id);
    DeleteEdgeContract(cfg, s, id);
    DeleteEdgeContract(cfg, t, id);
    var _ := DeleteVertexEffect(cfg, s, id);
    var _ := DeleteVertexEffect(cfg, t, id);
    forall e | e in EdgeSet(s.shards) ensures Removable(t, e) <==> Removable(s, e) {
      RotationFreezesNothing(cfg, s, b, e.id);
    }
  }

  lemma PlaceFreezesNothing(s: StoreState, e: Edge, target: Option<nat>, id: string)
    ensures Frozen(Place(s, e, target).state, id) ==> Frozen(s, id)
  {
    var t := Place(s, e, target).state;
    if i :| 0 <= i < |t.shards| && HasId(t.shards[i].live, id) && t.shards[i].phase == Archived {
      assert t.shards[i] == s.shards[i];
    }
  }

  lemma FewerIds(live: seq<Edge>, gone: string, id: string)
    requires HasId(Filter(live, IdIsNot(gone)), id)
    ensures HasId(live, id)
  {
    FilterMembers(live, IdIsNot(gone));
  }

  lemma EvictFreezesNothing(s: StoreState, gone: string, id: string)
    ensures Frozen(Evict(s, gone).state, id) ==> Frozen(s, id)
  {
    var t := Evict(s, gone).state;
    if i :| 0 <= i < |t.shards| && HasId(t.shards[i].live, id) && t.shards[i].phase == Archived {
      if t.shards[i] != s.shards[i] { FewerIds(s.shards[i].live, gone, id); }
      assert HasId(s.shards[i].live, id) && s.shards[i].phase == Archived;
    }
  }

  lemma {:induction false} CleanupFreezesNothing(s: StoreState, es: seq<Edge>, id: string)
    ensures Frozen(Cleanup(s, es).state, id) ==> Frozen(s, id)
    decreases |es|
  {
    if |es| > 0 {
      EvictFreezesNothing(s, es[0].id, id);
      CleanupFreezesNothing(Evict(s, es[0].id).state, es[1..], id);
    }
  }

  lemma DeleteVertexFreezesNothing(cfg: Config, s: StoreState, v: string, id: string)
    ensures Frozen(DeleteVertex(cfg, s, v).state, id) ==> Frozen(s, id)
  {
    CleanupFreezesNothing(s, Incident(s, v), id);
    var cleaned := Cleanup(s, Incident(s, v)).state;
    assert DeleteVertex(cfg, s, v).state.shards in {s.shards, cleaned.shards};
  }

  lemma ReplayIsActive(cfg: Config, log: seq<Record>, i: nat)
    requires ValidConfig(cfg) && i < |Replay(cfg, log).state.shards|
    ensures Replay(cfg, log).state.shards[i].phase == Active
  {
    var t := Replay(cfg, log).state;
    ReplayIsRouted(cfg, log);
    ReplayKeepsGens(cfg, log);
    assert Fronted(t, i) && t.gens[i][0] == i;
  }

  lemma ReopenFreezesNothing(cfg: Config, s: StoreState, id: string)
    requires ValidConfig(cfg)
    ensures Frozen(Reopen(cfg, s).state, id) ==> Frozen(s, id)
  {
    forall i: nat | i < |Replay(cfg, s.log).state.shards| ensures Replay(cfg, s.log).state.shards[i].phase == Active {
      ReplayIsActive(cfg, s.log, i);
    }
  }

  /** No operation but archiving freezes an edge, whatever its outcome. */
  lemma OnlyArchivingFreezes(cfg: Config, s: StoreState, op: Op, id: string)
    requires ValidConfig(cfg) && Routed(cfg, s) && !op.ArchiveBucketOp?
    ensures Frozen(Step(cfg, s, op).state, id) ==> Frozen(s, id)
  {
    match op
    case RotateBucketOp(b) => RotationFreezesNothing(cfg, s, b, id);
    case ReopenOp => ReopenFreezesNothing(cfg, s, id);
    case DeleteEdgeOp(gone) => EvictFreezesNothing(s, gone, id);
    case DeleteVertexOp(v) => DeleteVertexFreezesNothing(cfg, s, v, id);
    case PutEdgeOp(e) => PlaceFreezesNothing(s, e, Target(s, Bucket(cfg, e.Key())), id);
    case PutEdgeToBucketOp(e, b) => PlaceFreezesNothing(s, e, Target(s, b), id);
    case _ =>
  }

  /** In a run that archives nothing no edge is ever frozen, whatever ids the callers use. */
  lemma {:induction false} RunFreezesNothing(cfg: Config, ops: seq<Op>, id: string)
    requires ValidConfig(cfg) && forall op :: op in ops ==> !op.ArchiveBucketOp?
    ensures !Frozen(Run(cfg, FreshState(cfg), ops), id)
  {
    if |ops| == 0 {
      FreshIsKept(cfg);
    } else {
      var init, op := ops[..|ops| - 1], ops[|ops| - 1];
      assert op in ops;
      RunFreezesNothing(cfg, init, id);
      RunKeepsRouted(cfg, init);
      OnlyArchivingFreezes(cfg, Run(cfg, FreshState(cfg), init), op, id);
    }
  }

  // Replay.

  /** A vertex record is taken as it is and a record with an unknown operation stops the replay. */
  lemma ReplayRecordContract(cfg: Config, s: StoreState, r: Record)
    ensures var o := ReplayRecord(cfg, s, r);
            && (r.op == "vertex" ==>
                  && o.error.None?
                  && o.state == s.(vertices := s.vertices[r.id := Vertex(r.id, r.tag, r.attrs)],
                                   vertexSeq := s.vertexSeq + [r.id], index := o.state.index)
                  && Gains(s.index.pairs, o.state.index.pairs, "vertex:", r.attrs, r.id))
            && (r.op !in {"vertex", "edge", "edge-delete", "vertex-delete"} ==> o == Outcome(s, Some(UnknownRecord)))
  {
    TaggedGains(s.index.pairs, "vertex:", r.attrs, r.id);
  }

  // Lookups.

  /** The answer to an attribute query: the edges and the vertices some attribute of which reads like it, where
      the key of a vertex is read with `vertex:` in front. */
  lemma LookupContract(cfg: Config, s: StoreState, key: string, value: string, id: string)
    requires Kept(cfg, s)
    ensures id in IdsUnder(s.index, AttrEntry(key, value)) <==>
            || (exists e, k :: e in EdgeSet(s.shards) && e.id == id && k in e.attrs
                               && k + "=" + e.attrs[k] == key + "=" + value)
            || (id in s.vertices && exists k :: k in s.vertices[id].attrs
                                                && "vertex:" + k + "=" + s.vertices[id].attrs[k] == key + "=" + value)
  {
    EntryLists(cfg, s, AttrEntry(key, value));
    if e, k :| e in EdgeSet(s.shards) && e.id == id && k in e.attrs && k + "=" + e.attrs[k] == key + "=" + value {
      assert "" + k == k && AttrEntry("" + k, e.attrs[k]) in Entries("", e.attrs);
    }
    if e :| e in EdgeSet(s.shards) && e.id == id && AttrEntry(key, value) in Entries("", e.attrs) {
      var k :| k in e.attrs && AttrEntry("" + k, e.attrs[k]) == AttrEntry(key, value);
      assert "" + k == k;
    }
  }

  // Options.

  /** Each option counts for what it says when it is positive, and otherwise for its own default. */
  lemma NormalizeContract(o: Options, hash: string -> nat)
    ensures var cfg := Normalize(o, hash);
            && ValidConfig(cfg) && cfg.logged == o.enableWal && cfg.hash == hash
            && cfg.buckets == (if o.edgeBuckets > 0 then o.edgeBuckets else 4)
            && cfg.capacity == (if o.shardCapacity > 0 then o.shardCapacity else 1024)
            && cfg.labelCap == (if o.labelCap > 0 then o.labelCap else 4096)
  {
  }

  // Labels.

  /** White space is what unicode.IsSpace says. */
  lemma SpaceMeans(c: char)
    ensures IsSpace(c) <==> c in {'\t', '\n', '\U{0B}', '\U{0C}', '\r', ' ', '\U{85}', '\U{A0}', '\U{1680}', '\U{2000}',
                                  '\U{2001}', '\U{2002}', '\U{2003}', '\U{2004}', '\U{2005}', '\U{2006}', '\U{2007}',
                                  '\U{2008}', '\U{2009}', '\U{200A}', '\U{2028}', '\U{2029}', '\U{202F}', '\U{205F}',
                                  '\U{3000}'}
  {
  }

  /** Characters below 0x80, 0x800 and 0x10000 take one, two and three bytes, and any other takes four. */
  lemma CharBytes(c: char)
    ensures var n := c as int;
            Utf8Length([c]) == if n < 0x80 then 1 else if n < 0x800 then 2 else if n < 0x1_0000 then 3 else 4
  {
    assert [c][..0] == "";
  }

  lemma {:induction false} BytesAdd(a: string, b: string)
    ensures Utf8Length(a + b) == Utf8Length(a) + Utf8Length(b)
  {
    if |b| == 0 {
      assert a + b == a;
    } else {
      assert (a + b)[..|a + b| - 1] == a + b[..|b| - 1];
      BytesAdd(a, b[..|b| - 1]);
    }
  }

  lemma {:induction false} AsciiBytes(s: string)
    requires forall i :: 0 <= i < |s| ==> s[i] as int < 0x80
    ensures Utf8Length(s) == |s|
  {
    if |s| > 0 {
      AsciiBytes(s[..|s| - 1]);
    }
  }

  /** A label needs a character that is no white space and at most 64 bytes. */
  lemma LabelMeans(tag: string)
    ensures ValidLabel(tag) <==> (exists c :: c in tag && !IsSpace(c)) && Utf8Length(tag) <= 64
  {
  }

  /** A registration is refused for an invalid label or a blank id, then accepted without a change if it is
      there, then refused at the cap, and otherwise appended. Other labels stay. */
  lemma AddLabelContract(entries: Labels, cap: nat, tag: string, id: string)
    ensures var ids := if tag in entries then entries[tag] else [];
            var valid := (exists c :: c in tag && !IsSpace(c)) && Utf8Length(tag) <= 64
                && exists c :: c in id && !IsSpace(c);
            AddLabel(entries, cap, tag, id) == if !valid then Err(InvalidLabel)
                                               else if id in ids then Ok(entries)
                                               else if |ids| >= cap then Err(IndexFull)
                                               else Ok(entries[tag := ids + [id]])
  {
  }

  /** Removing takes out the first registration, whatever the list holds besides. */
  lemma RemoveLabelContract(entries: Labels, tag: string, low: seq<string>, id: string, high: seq<string>)
    requires tag in entries && entries[tag] == low + [id] + high && id !in low
    ensures RemoveLabel(entries, tag, id) == if low + high == [] then entries - {tag} else entries[tag := low + high]
  {
    var ids := entries[tag];
    var k := IndexOf(ids, id);
    assert ids[|low|] == id && ids[..|low|] == low && ids[|low| + 1..] == high;
    assert forall j :: 0 <= j < k ==> ids[..k][j] == ids[j];
    assert forall j :: 0 <= j < |low| ==> low[j] == ids[j];
  }

  /** A failing pass stops at a vertex that the label index refuses after the ones before it, and reports that refusal.
      */
  ghost predicate RefusedAt(vs: seq<Vertex>, cap: nat, n: nat, error: Error) {
    && n < |vs| && vs[n].tag != "" && BuildLabels(vs[..n], cap).Ok?
    && AddLabel(BuildLabels(vs[..n], cap).value, cap, vs[n].tag, vs[n].id) == Err(error)
  }

  ghost predicate Refused(vs: seq<Vertex>, cap: nat, error: Error) {
    exists n: nat :: RefusedAt(vs, cap, n, error)
  }

  lemma {:induction false} FailingPassStops(vs: seq<Vertex>, cap: nat, error: Error)
    requires BuildLabels(vs, cap) == Err(error)
    ensures Refused(vs, cap, error)
  {
    var init := vs[..|vs| - 1];
    if BuildLabels(init, cap).Err? {
      FailingPassStops(init, cap, error);
      var n: nat :| RefusedAt(init, cap, n, error);
      assert init[..n] == vs[..n];
      assert RefusedAt(vs, cap, n, error);
    } else {
      assert RefusedAt(vs, cap, |vs| - 1, error);
    }
  }

  /** A rebuild reports its cancellation, or the refusal its pass stopped at. */
  lemma RebuildErrors(cfg: Config, s: StoreState, cancelled: bool)
    ensures var o, all := Rebuild(cfg, s, cancelled), AllVertices(s.vertices, s.vertexSeq);
            && (cancelled ==> o.error == Some(Error.Cancelled))
            && (!cancelled && o.error.Some? ==> Refused(all, cfg.labelCap, o.error.value))
            && o.state == s.(labels := o.state.labels)
  {
    var o, all := Rebuild(cfg, s, cancelled), AllVertices(s.vertices, s.vertexSeq);
    if !cancelled && o.error.Some? {
      FailingPassStops(all, cfg.labelCap, o.error.value);
    }
  }

  // A new store.

  /** One empty generation per bucket, numbered like the buckets, and nothing else. */
  lemma FreshContract(cfg: Config)
    requires ValidConfig(cfg)
    ensures var s := FreshState(cfg);
            && |s.shards| == |s.gens| == |s.active| == |s.route| == cfg.buckets
            && (forall b :: 0 <= b < cfg.buckets ==>
                  s.shards[b] == ShardState(Active, cfg.capacity, []) && s.gens[b] == [b] && s.active[b] == 0
                  && s.route[b] == b)
            && s.vertices == map[] && s.vertexSeq == [] && s.labels == map[] && s.log == [] && !s.closed
            && s.index.pairs == {} && s.index.counted == {}
  {
  }
}
