/** When the public operations succeed in a reachable state, and what one of them undoes of another. */
module Outcomes {
  import opened Seqs
  import opened GraphModel
  import opened ShardSpec
  import opened IndexSpec
  import opened LabelSpec
  import opened StoreSpec
  import opened Routing
  import opened FlatGraph
  import opened Queries
  import opened Integrity
  import opened Journal
  import opened LabelTheory

  /** The generation that takes the writes of a bucket. */
  ghost function ActiveShard(cfg: Config, s: StoreState, b: nat): (sh: ShardState)
    requires Routed(cfg, s) && b < cfg.buckets
    ensures sh.phase == Active && sh.cap == cfg.capacity
  {
    assert Fronted(s, b);
    s.shards[s.gens[b][|s.gens[b]| - 1]]
  }

  /** A routed store never misses its target and never routes to a sealed generation: the only reasons
      for a put to fail are a closed store, a missing id or endpoint, a full active generation and an
      id it already holds. */
  lemma PutEdgeOutcome(cfg: Config, s: StoreState, e: Edge)
    requires ValidConfig(cfg) && Routed(cfg, s)
    ensures Bucket(cfg, e.Key()) < cfg.buckets
    ensures var front := ActiveShard(cfg, s, Bucket(cfg, e.Key()));
            PutEdge(cfg, s, e).error.None? <==>
            && !s.closed && e.id != "" && e.from in s.vertices && e.to in s.vertices
            && |front.live| < cfg.capacity && !HasId(front.live, e.id)
    ensures var t := PutEdge(cfg, s, e).state;
            if PutEdge(cfg, s, e).error.Some? then t == s
            else EdgeSet(t.shards) == EdgeSet(s.shards) + {e}
                 && t == s.(shards := t.shards, index := t.index, log := t.log)
  {
    var b := Bucket(cfg, e.Key());
    BucketInRange(cfg, e.Key());
    assert Fronted(s, b);
    if PutEdge(cfg, s, e).error.None? {
      PlaceEffect(s, e, Target(s, b));
    }
  }

  /** An explicit bucket is checked for its range and nothing else about the edge is: no id, no endpoint,
      no log record. */
  lemma PutEdgeToBucketOutcome(cfg: Config, s: StoreState, e: Edge, bucket: int)
    requires ValidConfig(cfg) && Routed(cfg, s)
    ensures PutEdgeToBucket(cfg, s, e, bucket).error.None? <==>
            && !s.closed && 0 <= bucket < cfg.buckets
            && |ActiveShard(cfg, s, bucket).live| < cfg.capacity && !HasId(ActiveShard(cfg, s, bucket).live, e.id)
    ensures var t := PutEdgeToBucket(cfg, s, e, bucket).state;
            if PutEdgeToBucket(cfg, s, e, bucket).error.Some? then t == s
            else EdgeSet(t.shards) == EdgeSet(s.shards) + {e} && t == s.(shards := t.shards, index := t.index)
  {
    if 0 <= bucket < cfg.buckets {
      assert Fronted(s, bucket);
      if PutEdgeToBucket(cfg, s, e, bucket).error.None? {
        PlaceEffect(s, e, Target(s, bucket));
      }
    }
  }

  /** A rotation succeeds on every bucket of an open store. It hands out the next shard id, leaves the
      edges where they are and gives the bucket an empty active generation. */
  lemma RotateOutcome(cfg: Config, s: StoreState, bucket: int)
    requires ValidConfig(cfg) && Routed(cfg, s)
    ensures RotateBucket(cfg, s, bucket).error.None? <==> !s.closed && 0 <= bucket < cfg.buckets
    ensures var t := RotateBucket(cfg, s, bucket).state;
            && Routed(cfg, t) && t == s.(shards := t.shards, gens := t.gens, active := t.active, route := t.route)
            && (RotateBucket(cfg, s, bucket).error.None? ==>
                  && |t.shards| == |s.shards| + 1 && t.gens[bucket] == s.gens[bucket] + [|s.shards|]
                  && ActiveShard(cfg, t, bucket).live == []
                  && forall i :: 0 <= i < |s.shards| ==> t.shards[i].live == s.shards[i].live)
  {
    RotateKeepsRouted(cfg, s, bucket);
    if 0 <= bucket < cfg.buckets {
      TargetIsActive(cfg, s, bucket);
    }
  }

  /** Rotating the bucket of an edge always makes room for it, even when the old generation was full
      or already held its id. */
  lemma RotateMakesRoom(cfg: Config, s: StoreState, e: Edge)
    requires ValidConfig(cfg) && Routed(cfg, s) && !s.closed
    requires e.id != "" && e.from in s.vertices && e.to in s.vertices
    ensures RotateBucket(cfg, s, Bucket(cfg, e.Key())).error.None?
    ensures PutEdge(cfg, RotateBucket(cfg, s, Bucket(cfg, e.Key())).state, e).error.None?
  {
    var b := Bucket(cfg, e.Key());
    BucketInRange(cfg, e.Key());
    TargetIsActive(cfg, s, b);
    RotateKeepsRouted(cfg, s, b);
    PutEdgeOutcome(cfg, RotateBucket(cfg, s, b).state, e);
  }

  lemma UnregisterEverywhere(labels: Labels, vs: map<string, Vertex>, v: string, tag: string)
    requires Labelled(labels, vs) && v in vs
    ensures var after := if vs[v].tag != "" then RemoveLabel(labels, vs[v].tag, v) else labels;
            Entered(after, tag) == Filter(Entered(labels, tag), IsNot(v))
  {
    if vs[v].tag != "" {
      RemoveLabelMeans(labels, vs[v].tag, v);
    }
    if tag != vs[v].tag || tag == "" {
      FilterKeepsAll(Entered(labels, tag), IsNot(v));
    }
  }

  lemma DeleteVertexTables(cfg: Config, s: StoreState, v: string)
    requires Kept(cfg, s) && DeleteVertex(cfg, s, v).error.None?
    ensures var t := DeleteVertex(cfg, s, v).state;
            && v in s.vertices && t.labels == (if s.vertices[v].tag != ""
                                               then RemoveLabel(s.labels, s.vertices[v].tag, v) else s.labels)
            && t.gens == s.gens && t.active == s.active && t.route == s.route && t.closed == s.closed
  {
    IncidentMembers(cfg, s, v);
    CleanupKeeps(cfg, s, Incident(s, v));
  }

  /** A successful vertex delete takes the vertex out of its label and leaves every other entry alone. */
  lemma DeleteVertexUnregisters(cfg: Config, s: StoreState, v: string, tag: string)
    requires Kept(cfg, s) && DeleteVertex(cfg, s, v).error.None?
    ensures Entered(DeleteVertex(cfg, s, v).state.labels, tag) == Filter(Entered(s.labels, tag), IsNot(v))
  {
    DeleteVertexTables(cfg, s, v);
    UnregisterEverywhere(s.labels, s.vertices, v, tag);
  }

  /** Archiving freezes exactly the edges that sit in the retired generations of the bucket. */
  lemma ArchiveFreezes(cfg: Config, s: StoreState, b: nat, id: string)
    requires Routed(cfg, s) && b < cfg.buckets
    ensures Frozen(ArchiveBucket(s, b), id) <==>
            Frozen(s, id) || exists k :: 0 <= k < |s.gens[b]| - 1 && HasId(s.shards[s.gens[b][k]].live, id)
  {
    var t := ArchiveBucket(s, b);
    assert Fronted(s, b);
    forall k | 0 <= k < |s.gens[b]| - 1 ensures t.shards[s.gens[b][k]].phase == Archived {
      assert Retired(s, b, s.gens[b][k]);
    }
    if i :| 0 <= i < |s.shards| && HasId(s.shards[i].live, id) && s.shards[i].phase == Archived {
      assert HasId(t.shards[i].live, id) && t.shards[i].phase == Archived;
    }
    if Frozen(t, id) && !Frozen(s, id) {
      var i :| 0 <= i < |t.shards| && HasId(t.shards[i].live, id) && t.shards[i].phase == Archived;
      assert Retired(s, b, i);
      var k :| 0 <= k < |s.gens[b]| && k != s.active[b] && s.gens[b][k] == i;
    }
    if k :| 0 <= k < |s.gens[b]| - 1 && HasId(s.shards[s.gens[b][k]].live, id) {
      assert HasId(t.shards[s.gens[b][k]].live, id);
    }
  }

  // Undoing.

  lemma LocateOnly(order: seq<nat>, shards: seq<ShardState>, id: string, i: nat)
    requires i in order && i < |shards| && HasId(shards[i].live, id)
    requires forall j :: 0 <= j < |shards| && j != i ==> !HasId(shards[j].live, id)
    ensures Locate(order, shards, id) == Some(i)
  {
  }

  lemma DropAppended(live: seq<Edge>, e: Edge)
    requires !HasId(live, e.id)
    ensures HasId(live + [e], e.id) && Filter(live + [e], IdIsNot(e.id)) == live
  {
    assert e in live + [e];
    FilterSnoc(live, e, IdIsNot(e.id));
    FilterKeepsAll(live, IdIsNot(e.id));
  }

  lemma PutLandsAt(cfg: Config, s: StoreState, e: Edge) returns (i: nat)
    requires ValidConfig(cfg) && Routed(cfg, s) && PutEdge(cfg, s, e).error.None? && IdFree(s.shards, e.id)
    ensures i < |s.shards| && s.shards[i].phase == Active
    ensures var t := PutEdge(cfg, s, e).state;
            && t.shards == s.shards[i := s.shards[i].(live := s.shards[i].live + [e])]
            && Locate(Order(t), t.shards, e.id) == Some(i)
  {
    var b := Bucket(cfg, e.Key());
    BucketInRange(cfg, e.Key());
    assert Fronted(s, b);
    i := s.route[b];
    OrderCovers(cfg, s, i);
    DropAppended(s.shards[i].live, e);
    LocateOnly(Order(s), PutEdge(cfg, s, e).state.shards, e.id, i);
  }

  lemma AddThenErasePairs(s: StoreState, e: Edge)
    requires Indexed(s) && NewId(GraphOf(s), e.id)
    ensures var ix := IndexEdge(s.index, e);
            && PairsOf(ix.pairs, e.id) == EdgePairs(e)
            && ix.pairs - EdgePairs(e) == s.index.pairs
            && (EdgePairs(e) == {} <==> e.attrs == map[])
  {
    assert forall p :: p in s.index.pairs ==> p.1 != e.id;
    if e.attrs != map[] {
      var k :| k in e.attrs;
      assert (AttrEntry("" + k, e.attrs[k]), e.id) in EdgePairs(e);
    }
  }

  lemma DeleteUndoesPut(cfg: Config, s: StoreState, e: Edge, i: nat)
    requires i < |s.shards| && s.shards[i].phase == Active && !HasId(s.shards[i].live, e.id)
    requires PutEdge(cfg, s, e).error.None?
    requires var t := PutEdge(cfg, s, e).state;
             && t.shards == s.shards[i := s.shards[i].(live := s.shards[i].live + [e])]
             && Locate(Order(t), t.shards, e.id) == Some(i)
    requires PairsOf(IndexEdge(s.index, e).pairs, e.id) == EdgePairs(e)
             && IndexEdge(s.index, e).pairs - EdgePairs(e) == s.index.pairs
    requires EdgePairs(e) == {} <==> e.attrs == map[]
    ensures var u := DeleteEdge(cfg, PutEdge(cfg, s, e).state, e.id);
            && u.state.shards == s.shards && GraphOf(u.state) == GraphOf(s) && u.state.index.pairs == s.index.pairs
            && (u.error.None? <==> e.attrs != map[])
  {
    var t := PutEdge(cfg, s, e).state;
    DropAppended(s.shards[i].live, e);
    assert RemoveEdge(t.shards[i], e.id) == Ok(s.shards[i]);
    assert t.shards[i := s.shards[i]] == s.shards;
  }

  /** Deleting an edge that was just put under a new id restores every generation, list orders
      included; the delete reports success exactly when the edge had attributes. */
  lemma PutThenDeleteEdge(cfg: Config, s: StoreState, e: Edge)
    requires ValidConfig(cfg) && Kept(cfg, s) && PutEdge(cfg, s, e).error.None? && NewId(GraphOf(s), e.id)
    ensures var u := DeleteEdge(cfg, PutEdge(cfg, s, e).state, e.id);
            && u.state.shards == s.shards && GraphOf(u.state) == GraphOf(s) && u.state.index.pairs == s.index.pairs
            && (u.error.None? <==> e.attrs != map[])
  {
    FreeMeansAbsent(s.shards, e.id);
    var i := PutLandsAt(cfg, s, e);
    AddThenErasePairs(s, e);
    DeleteUndoesPut(cfg, s, e, i);
  }

  lemma {:induction false} NothingTouches(order: seq<nat>, shards: seq<ShardState>, v: string)
    requires forall e :: e in EdgeSet(shards) ==> !Touches(e, v)
    ensures TouchingIn(order, shards, v) == []
  {
    if |order| > 0 {
      var i := order[|order| - 1];
      NothingTouches(order[..|order| - 1], shards, v);
      if i < |shards| {
        assert forall e :: e in shards[i].live ==> e in EdgeSet(shards);
        FilterKeepsNone(shards[i].live, FromIs(v));
        FilterKeepsNone(shards[i].live, ToIs(v));
      }
    }
  }

  lemma AddThenUnindexVertex(s: StoreState, v: Vertex)
    requires Indexed(s) && NewId(GraphOf(s), v.id)
    ensures UnindexVertex(IndexVertex(s.index, v), v.id) == s.index
  {
    var pairs := s.index.pairs;
    assert forall p :: p in pairs ==> p.1 != v.id;
    assert pairs + VertexPairs(v) - PairsOf(pairs + VertexPairs(v), v.id) == pairs;
  }

  lemma AddThenDropVertex(cfg: Config, s: StoreState, v: Vertex)
    requires VerticesListed(s) && Indexed(s) && v.id !in s.vertices && NewId(GraphOf(s), v.id)
    ensures var t := PutVertex(cfg, s, v).state;
            PutVertex(cfg, s, v).error.None? ==> DropVertex(t, v.id) == s.(log := t.log)
  {
    var t := PutVertex(cfg, s, v).state;
    if PutVertex(cfg, s, v).error.None? {
      assert v.id !in s.vertexSeq && t.vertices - {v.id} == s.vertices;
      DropAppendedId(s.vertexSeq, v.id);
      AddThenUnindexVertex(s, v);
    }
  }

  lemma NothingIncident(s: StoreState, t: StoreState, v: string)
    requires Anchored(EdgeSet(s.shards), s.vertices) && v !in s.vertices && t.shards == s.shards
    ensures Cleanup(t, Incident(t, v)) == Outcome(t, None)
  {
    NothingTouches(Order(t), t.shards, v);
    assert Incident(t, v) == [];
  }

  /** Deleting a vertex that was just put restores the store, up to the log. */
  lemma PutThenDeleteVertex(cfg: Config, s: StoreState, v: Vertex)
    requires Kept(cfg, s) && Anchored(EdgeSet(s.shards), s.vertices)
    requires PutVertex(cfg, s, v).error.None? && NewId(GraphOf(s), v.id)
    ensures var u := DeleteVertex(cfg, PutVertex(cfg, s, v).state, v.id);
            u.error.None? && u.state == s.(log := u.state.log)
  {
    var t := PutVertex(cfg, s, v).state;
    NothingIncident(s, t, v.id);
    AddThenDropVertex(cfg, s, v);
    assert v.id !in Entered(s.labels, v.tag);
  }

  // A closed store.

  lemma ClosedStepKeepsGraph(cfg: Config, s: StoreState, op: Op)
    requires ValidConfig(cfg) && Routed(cfg, s) && s.closed && op != ReopenOp
    ensures var t := Step(cfg, s, op).state;
            t.closed && GraphOf(t) == GraphOf(s) && t.index == s.index && t.log == s.log
  {
    match op
    case ArchiveBucketOp(b) => GenerationsKeepEdges(cfg, s, b);
    case _ =>
  }

  /** Until it is reopened, a closed store keeps its graph and its index through any operations, also
      through the ones that do not look at the closed flag. */
  lemma {:induction false} ClosedGraphIsFixed(cfg: Config, s: StoreState, ops: seq<Op>)
    requires ValidConfig(cfg) && Routed(cfg, s) && s.closed && ReopenOp !in ops
    ensures Routed(cfg, Run(cfg, s, ops))
    ensures var t := Run(cfg, s, ops); t.closed && GraphOf(t) == GraphOf(s) && t.index == s.index && t.log == s.log
  {
    if |ops| > 0 {
      var init, op := ops[..|ops| - 1], ops[|ops| - 1];
      assert op in ops && ops == init + [op];
      ClosedGraphIsFixed(cfg, s, init);
      StepKeepsRouted(cfg, Run(cfg, s, init), op);
      ClosedStepKeepsGraph(cfg, Run(cfg, s, init), op);
    }
  }
}
