/** What a restart brings back after deletes that dropped an edge, failed and were not logged. */
module Restarts {
  import opened Seqs
  import opened GraphModel
  import opened StoreSpec
  import opened FlatGraph
  import opened Queries
  import opened Integrity
  import opened Journal
  import opened Runs
  import opened Outcomes
  import opened Scenarios

  // How the log and the store part, and what a restart makes of it.

  /** The edges the log holds although the store has dropped them, and the live edges the log does not hold. */
  datatype Drift = Drift(dropped: set<Edge>, unlogged: set<Edge>)

  /** A delete that fails drops unlogged, a put into an explicit bucket adds unlogged, a logged delete and a
      restart that goes through settle what they touch. */
  ghost function DriftBy(cfg: Config, s: StoreState, op: Op, d: Drift): Drift {
    var o := Step(cfg, s, op);
    if op == ReopenOp then (if o.error.None? then Drift({}, {}) else d)
    else if o.error.Some? then
      var gone := EdgeSet(s.shards) - EdgeSet(o.state.shards);
      Drift(d.dropped + (gone - d.unlogged), d.unlogged - gone)
    else
      match op
      case PutEdgeToBucketOp(e, _) => d.(unlogged := d.unlogged + {e})
      case DeleteEdgeOp(id) => Drift(WithoutId(d.dropped, id), WithoutId(d.unlogged, id))
      case DeleteVertexOp(v) => Drift(WithoutTouching(d.dropped, v), WithoutTouching(d.unlogged, v))
      case _ => d
  }

  ghost function DriftOf(cfg: Config, ops: seq<Op>): Drift {
    if |ops| == 0 then Drift({}, {})
    else
      var init, op := ops[..|ops| - 1], ops[|ops| - 1];
      DriftBy(cfg, Run(cfg, FreshState(cfg), init), op, DriftOf(cfg, init))
  }

  ghost predicate Parts(all: set<Edge>, live: set<Edge>, d: Drift) {
    && d.unlogged <= live && d.dropped !! (live - d.unlogged)
    && all == (live - d.unlogged) + d.dropped
  }

  /** The log holds the live edges but the unlogged ones, the dropped edges, and no others. */
  ghost predicate Splits(s: StoreState, d: Drift) {
    Parts(LogGraph(s.log).edges, EdgeSet(s.shards), d)
  }

  lemma PartsPut(all: set<Edge>, live: set<Edge>, d: Drift, e: Edge)
    requires Parts(all, live, d) && e !in live
    ensures e !in all ==> Parts(all + {e}, live + {e}, d)
    ensures Parts(all, live + {e}, d.(unlogged := d.unlogged + {e}))
  {
    assert (live + {e}) - (d.unlogged + {e}) == live - d.unlogged;
  }

  lemma PartsDrop(all: set<Edge>, live: set<Edge>, d: Drift, gone: set<Edge>)
    requires Parts(all, live, d) && gone <= live
    ensures Parts(all, live - gone, Drift(d.dropped + (gone - d.unlogged), d.unlogged - gone))
  {
  }

  lemma PartsWithoutId(all: set<Edge>, live: set<Edge>, d: Drift, id: string)
    requires Parts(all, live, d)
    ensures Parts(WithoutId(all, id), WithoutId(live, id), Drift(WithoutId(d.dropped, id), WithoutId(d.unlogged, id)))
  {
  }

  lemma PartsWithoutTouching(all: set<Edge>, live: set<Edge>, d: Drift, v: string)
    requires Parts(all, live, d)
    ensures Parts(WithoutTouching(all, v), WithoutTouching(live, v),
                  Drift(WithoutTouching(d.dropped, v), WithoutTouching(d.unlogged, v)))
  {
  }

  lemma PartsWhole(all: set<Edge>)
    ensures Parts(all, all, Drift({}, {}))
  {
  }

  /** What a restart gives is what was live exactly when nothing but unlogged edges was dropped and all of
      these come back. */
  lemma PartsRestore(all: set<Edge>, live: set<Edge>, d: Drift)
    requires Parts(all, live, d)
    ensures all == live <==> d.dropped == d.unlogged
  {
    if all == live {
      assert forall e :: e in d.dropped ==> e in all;
      assert forall e :: e in d.unlogged ==> e in all;
    }
  }

  /** An operation that fails can only have dropped edges. */
  lemma FailureSplits(cfg: Config, s: StoreState, op: Op, d: Drift)
    requires Splits(s, d) && op != ReopenOp
    requires var o := Step(cfg, s, op);
             o.error.Some? && o.state.log == s.log && EdgeSet(o.state.shards) <= EdgeSet(s.shards)
    ensures Splits(Step(cfg, s, op).state, DriftBy(cfg, s, op, d))
  {
    var live, after := EdgeSet(s.shards), EdgeSet(Step(cfg, s, op).state.shards);
    PartsDrop(LogGraph(s.log).edges, live, d, live - after);
    assert live - (live - after) == after;
  }

  lemma PutVertexSplits(cfg: Config, s: StoreState, v: Vertex, d: Drift)
    requires cfg.logged && Splits(s, d)
    ensures Splits(PutVertex(cfg, s, v).state, DriftBy(cfg, s, PutVertexOp(v), d))
  {
    if PutVertex(cfg, s, v).error.None? {
      LogSnoc(s.log, VertexRecord(v));
    } else {
      FailureSplits(cfg, s, PutVertexOp(v), d);
    }
  }

  lemma PutEdgeSplits(cfg: Config, s: StoreState, e: Edge, d: Drift)
    requires cfg.logged && Splits(s, d) && FreshId(cfg, s, PutEdgeOp(e)) && UnheldId(cfg, s, PutEdgeOp(e))
    ensures Splits(PutEdge(cfg, s, e).state, DriftBy(cfg, s, PutEdgeOp(e), d))
  {
    var o := PutEdge(cfg, s, e);
    if o.error.None? {
      LogSnoc(s.log, EdgeRecord(e));
      PlaceEffect(s, e, Target(s, Bucket(cfg, e.Key())));
      assert LogGraph(o.state.log).edges == LogGraph(s.log).edges + {e} by {
        assert RecordedEdge(EdgeRecord(e)) == e;
      }
      PartsPut(LogGraph(s.log).edges, EdgeSet(s.shards), d, e);
    } else {
      FailureSplits(cfg, s, PutEdgeOp(e), d);
    }
  }

  lemma PutEdgeToBucketSplits(cfg: Config, s: StoreState, e: Edge, b: int, d: Drift)
    requires Splits(s, d) && FreshId(cfg, s, PutEdgeToBucketOp(e, b))
    ensures Splits(PutEdgeToBucket(cfg, s, e, b).state, DriftBy(cfg, s, PutEdgeToBucketOp(e, b), d))
  {
    if PutEdgeToBucket(cfg, s, e, b).error.None? {
      PlaceEffect(s, e, Target(s, b));
      PartsPut(LogGraph(s.log).edges, EdgeSet(s.shards), d, e);
    } else {
      FailureSplits(cfg, s, PutEdgeToBucketOp(e, b), d);
    }
  }

  lemma DeleteEdgeSplits(cfg: Config, s: StoreState, id: string, d: Drift)
    requires cfg.logged && Kept(cfg, s) && Splits(s, d)
    ensures Splits(DeleteEdge(cfg, s, id).state, DriftBy(cfg, s, DeleteEdgeOp(id), d))
  {
    DeleteEdgeEffect(cfg, s, id);
    if DeleteEdge(cfg, s, id).error.None? {
      LogSnoc(s.log, EdgeDeleteRecord(id));
      FreeMeansAbsent(s.shards, id);
      PartsWithoutId(LogGraph(s.log).edges, EdgeSet(s.shards), d, id);
    } else {
      FailureSplits(cfg, s, DeleteEdgeOp(id), d);
    }
  }

  lemma DeleteVertexSplits(cfg: Config, s: StoreState, v: string, d: Drift)
    requires cfg.logged && Kept(cfg, s) && Splits(s, d)
    ensures Splits(DeleteVertex(cfg, s, v).state, DriftBy(cfg, s, DeleteVertexOp(v), d))
  {
    var k := DeleteVertexEffect(cfg, s, v);
    if DeleteVertex(cfg, s, v).error.None? {
      LogSnoc(s.log, VertexDeleteRecord(v));
      PartsWithoutTouching(LogGraph(s.log).edges, EdgeSet(s.shards), d, v);
    } else {
      FailureSplits(cfg, s, DeleteVertexOp(v), d);
    }
  }

  lemma ReopenSplits(cfg: Config, s: StoreState, d: Drift)
    requires ValidConfig(cfg) && WellFormed(s.log) && Splits(s, d)
    ensures Splits(Reopen(cfg, s).state, DriftBy(cfg, s, ReopenOp, d))
  {
    ReplayFollowsLog(cfg, s.log);
    var t := Reopen(cfg, s).state;
    if Replay(cfg, s.log).error.None? {
      assert t.log == s.log && EdgeSet(t.shards) == LogGraph(s.log).edges;
      PartsWhole(LogGraph(s.log).edges);
    } else {
      assert t.log == s.log && t.shards == s.shards;
    }
  }

  lemma GenerationsSplit(cfg: Config, s: StoreState, op: Op, b: int, d: Drift)
    requires Kept(cfg, s) && Splits(s, d) && (op == RotateBucketOp(b) || op == ArchiveBucketOp(b))
    ensures Splits(Step(cfg, s, op).state, DriftBy(cfg, s, op, d))
  {
    GenerationsKeepEdges(cfg, s, b);
    if Step(cfg, s, op).error.Some? {
      FailureSplits(cfg, s, op, d);
    }
  }

  lemma OutsideSplits(cfg: Config, s: StoreState, op: Op, d: Drift)
    requires Splits(s, d) && (op.RebuildOp? || op.CloseOp?)
    ensures Splits(Step(cfg, s, op).state, DriftBy(cfg, s, op, d))
  {
    if Step(cfg, s, op).error.Some? {
      FailureSplits(cfg, s, op, d);
    }
  }

  lemma StepSplits(cfg: Config, s: StoreState, op: Op, d: Drift)
    requires ValidConfig(cfg) && cfg.logged && Kept(cfg, s) && Recorded(cfg, s) && Splits(s, d)
    requires FreshId(cfg, s, op) && UnheldId(cfg, s, op)
    ensures Splits(Step(cfg, s, op).state, DriftBy(cfg, s, op, d))
  {
    match op
    case PutVertexOp(v) => PutVertexSplits(cfg, s, v, d);
    case PutEdgeOp(e) => PutEdgeSplits(cfg, s, e, d);
    case PutEdgeToBucketOp(e, b) => PutEdgeToBucketSplits(cfg, s, e, b, d);
    case DeleteEdgeOp(id) => DeleteEdgeSplits(cfg, s, id, d);
    case DeleteVertexOp(v) => DeleteVertexSplits(cfg, s, v, d);
    case RotateBucketOp(b) => GenerationsSplit(cfg, s, op, b, d);
    case ArchiveBucketOp(b) => GenerationsSplit(cfg, s, op, b, d);
    case ReopenOp => ReopenSplits(cfg, s, d);
    case _ => OutsideSplits(cfg, s, op, d);
  }

  lemma {:induction false} RunSplits(cfg: Config, ops: seq<Op>)
    requires ValidConfig(cfg) && cfg.logged
    requires FreshRun(cfg, FreshState(cfg), ops) && UnheldRun(cfg, FreshState(cfg), ops)
    ensures Splits(Run(cfg, FreshState(cfg), ops), DriftOf(cfg, ops))
  {
    if |ops| == 0 {
      FreshIsKept(cfg);
      PartsWhole({});
    } else {
      var init, op := ops[..|ops| - 1], ops[|ops| - 1];
      RunSplits(cfg, init);
      UnheldRunIsAdmissible(cfg, FreshState(cfg), init);
      RunKeeps(cfg, init);
      StepSplits(cfg, Run(cfg, FreshState(cfg), init), op, DriftOf(cfg, init));
    }
  }

  /** After any run, clean or not, a restart that goes through gives the live graph, less the live edges
      written into explicit buckets and so never logged, plus the edges that deletes dropped without
      logging it. */
  lemma RestartSettlesDrift(cfg: Config, ops: seq<Op>)
    requires ValidConfig(cfg) && cfg.logged
    requires FreshRun(cfg, FreshState(cfg), ops) && UnheldRun(cfg, FreshState(cfg), ops)
    ensures var s, d := Run(cfg, FreshState(cfg), ops), DriftOf(cfg, ops);
            var o, live := Reopen(cfg, s), EdgeSet(s.shards);
            && (o.error.None? <==> AlwaysRoomy(cfg, s.log))
            && d.unlogged <= live && d.dropped !! (live - d.unlogged)
            && (o.error.None? ==>
                  && GraphOf(o.state) == Graph(s.vertices, s.vertexSeq, (live - d.unlogged) + d.dropped)
                  && (GraphOf(o.state) == GraphOf(s) <==> d.dropped == d.unlogged)
                  && Kept(cfg, o.state))
  {
    var s := Run(cfg, FreshState(cfg), ops);
    UnheldRunIsAdmissible(cfg, FreshState(cfg), ops);
    RunKeeps(cfg, ops);
    RunSplits(cfg, ops);
    ReplayFollowsLog(cfg, s.log);
    ReopenKeeps(cfg, s);
    PartsRestore(LogGraph(s.log).edges, EdgeSet(s.shards), DriftOf(cfg, ops));
  }

  // Why a put before a restart must not use an id the log holds.

  /** Replaying an edge over a logged one of the same id goes wrong: it fails or leaves both live. */
  lemma HeldIdBreaksReplay(cfg: Config, log: seq<Record>, e: Edge, f: Edge)
    requires ValidConfig(cfg) && WellFormed(log) && f in LogGraph(log).edges && f.id == e.id
    requires Replay(cfg, log + [EdgeRecord(e)]).error.None?
    ensures !UniqueIds(Replay(cfg, log + [EdgeRecord(e)]).state.shards)
  {
    assert (log + [EdgeRecord(e)])[..|log|] == log;
    ReplayFollowsLog(cfg, log);
    ReplaySnoc(cfg, log, EdgeRecord(e));
    var t := Replay(cfg, log).state;
    assert RecordedEdge(EdgeRecord(e)) == e;
    PlaceEffect(t, e, Target(t, Bucket(cfg, e.Key())));
    FreeMeansAbsent(t.shards, e.id);
  }

  /** With a fresh id the restart keeps the invariant if the log did not hold the id. */
  lemma UnheldPutSurvives(cfg: Config, s: StoreState, op: Op)
    requires ValidConfig(cfg) && cfg.logged && Kept(cfg, s) && Recorded(cfg, s) && (op.PutVertexOp? || op.PutEdgeOp?)
    requires FreshId(cfg, s, op) && UnheldId(cfg, s, op)
    ensures Kept(cfg, Reopen(cfg, Step(cfg, s, op).state).state)
  {
    StepKeeps(cfg, s, op);
    StepKeepsRecorded(cfg, s, op);
    ReopenKeeps(cfg, Step(cfg, s, op).state);
  }

  lemma HeldEdgeBreaks(cfg: Config, s: StoreState, e: Edge)
    requires ValidConfig(cfg) && cfg.logged && Recorded(cfg, s) && PutEdge(cfg, s, e).error.None?
    requires NewId(GraphOf(s), e.id) && !NewId(LogGraph(s.log), e.id)
    ensures var o := Reopen(cfg, PutEdge(cfg, s, e).state); o.error.Some? || !Kept(cfg, o.state)
  {
    var f :| f in LogGraph(s.log).edges && f.id == e.id;
    if Replay(cfg, s.log + [EdgeRecord(e)]).error.None? {
      HeldIdBreaksReplay(cfg, s.log, e, f);
    }
  }

  lemma HeldVertexBreaks(cfg: Config, s: StoreState, v: Vertex)
    requires ValidConfig(cfg) && cfg.logged && Recorded(cfg, s) && PutVertex(cfg, s, v).error.None?
    requires NewId(GraphOf(s), v.id) && !NewId(LogGraph(s.log), v.id)
    ensures var o := Reopen(cfg, PutVertex(cfg, s, v).state); o.error.Some? || !Kept(cfg, o.state)
  {
    var f :| f in LogGraph(s.log).edges && f.id == v.id;
    if Replay(cfg, s.log + [VertexRecord(v)]).error.None? {
      assert (s.log + [VertexRecord(v)])[..|s.log|] == s.log;
      ReplayFollowsLog(cfg, s.log);
      ReplaySnoc(cfg, s.log, VertexRecord(v));
      assert RecordedVertex(VertexRecord(v)) == v;
    }
  }

  /** For a put with a fresh id, unheld ids are exactly what a restart needs: if it goes through right after the
      put, it keeps the invariant if and only if the log did not hold the id. */
  lemma RestartKeepsExactlyWhenUnheld(cfg: Config, s: StoreState, op: Op)
    requires ValidConfig(cfg) && cfg.logged && Kept(cfg, s) && Recorded(cfg, s)
    requires FreshId(cfg, s, op) && (op.PutVertexOp? || op.PutEdgeOp?)
    ensures var o := Reopen(cfg, Step(cfg, s, op).state);
            o.error.None? ==> (Kept(cfg, o.state) <==> UnheldId(cfg, s, op))
  {
    if UnheldId(cfg, s, op) {
      UnheldPutSurvives(cfg, s, op);
    } else {
      match op
      case PutVertexOp(v) => HeldVertexBreaks(cfg, s, v);
      case PutEdgeOp(e) => HeldEdgeBreaks(cfg, s, e);
    }
  }

  // An input.

  /** Two edges with one id, of which the first carries no attribute, at two vertices. */
  ghost predicate Reuses(u: Vertex, v: Vertex, e: Edge, f: Edge) {
    && u.id != "" && v.id != "" && u.id != v.id
    && e.id == f.id && e.id != "" && e.id != u.id && e.id != v.id && e.attrs == map[]
    && e.from == e.to == f.from == u.id && f.to == v.id
  }

  ghost function Setup(u: Vertex, v: Vertex): seq<Op> {
    [] + [PutVertexOp(u)] + [PutVertexOp(v)]
  }

  /** Put the edge, fail to delete it, put the other one under the same id. */
  ghost function Reuse(u: Vertex, v: Vertex, e: Edge, f: Edge): seq<Op> {
    Setup(u, v) + [PutEdgeOp(e)] + [DeleteEdgeOp(e.id)] + [PutEdgeOp(f)]
  }

  lemma SetupGraphs(u: Vertex, v: Vertex)
    ensures Apply(NOTHING, VertexRecord(u)) == Graph(map[u.id := u], [u.id], {})
    ensures Apply(Graph(map[u.id := u], [u.id], {}), VertexRecord(v))
            == Graph(map[u.id := u, v.id := v], [u.id, v.id], {})
  {
  }

  lemma FirstVertex(cfg: Config, u: Vertex)
    requires ValidConfig(cfg) && cfg.logged && u.id != ""
    ensures Scene(cfg, [] + [PutVertexOp(u)], Graph(map[u.id := u], [u.id], {}))
    ensures var s := Run(cfg, FreshState(cfg), [] + [PutVertexOp(u)]);
            s.shards == FreshState(cfg).shards && s.log == [VertexRecord(u)]
  {
    EmptyScene(cfg);
    SetupGraphs(u, u);
    AddVertex(cfg, [], NOTHING, u);
  }

  lemma AfterSetup(cfg: Config, u: Vertex, v: Vertex) returns (g: Graph)
    requires ValidConfig(cfg) && cfg.logged && u.id != "" && v.id != "" && u.id != v.id
    ensures Scene(cfg, Setup(u, v), g) && g == Graph(map[u.id := u, v.id := v], [u.id, v.id], {})
    ensures var s := Run(cfg, FreshState(cfg), Setup(u, v));
            s.shards == FreshState(cfg).shards && s.log == [VertexRecord(u), VertexRecord(v)]
  {
    FirstVertex(cfg, u);
    SetupGraphs(u, v);
    AddVertex(cfg, [] + [PutVertexOp(u)], Graph(map[u.id := u], [u.id], {}), v);
    g := Graph(map[u.id := u, v.id := v], [u.id, v.id], {});
  }

  /** A failing delete leaves the shards as they were before the put, and the log with the edge. */
  lemma FailedDeleteRestores(cfg: Config, s: StoreState, e: Edge)
    requires ValidConfig(cfg) && Kept(cfg, s) && Unrotated(cfg, s) && NewId(GraphOf(s), e.id) && e.attrs == map[]
    requires PutEdge(cfg, s, e).error.None? && Kept(cfg, PutEdge(cfg, s, e).state)
    ensures var t := DeleteEdge(cfg, PutEdge(cfg, s, e).state, e.id).state;
            && t.shards == s.shards && t.vertices == s.vertices && Unrotated(cfg, t)
            && t.log == Logging(cfg, s, EdgeRecord(e))
  {
    var put := PutEdge(cfg, s, e).state;
    PutThenDeleteEdge(cfg, s, e);
    EvictSameBut(put, e.id);
    assert DeleteEdge(cfg, put, e.id).error.Some?;
    assert DeleteEdge(cfg, put, e.id).state == Evict(put, e.id).state;
  }

  lemma PutThenFailedDelete(cfg: Config, ops: seq<Op>, g: Graph, e: Edge)
    requires ValidConfig(cfg) && Scene(cfg, ops, g) && e.id != "" && NewId(g, e.id) && e.attrs == map[]
    requires e.from in g.vertices && e.to in g.vertices
    requires |Run(cfg, FreshState(cfg), ops).shards[Bucket(cfg, e.Key())].live| < cfg.capacity
    ensures var s := Run(cfg, FreshState(cfg), ops);
            var t := Run(cfg, FreshState(cfg), ops + [PutEdgeOp(e)] + [DeleteEdgeOp(e.id)]);
            t.shards == s.shards && t.vertices == s.vertices && Unrotated(cfg, t)
            && t.log == Logging(cfg, s, EdgeRecord(e))
  {
    var s, put := Run(cfg, FreshState(cfg), ops), ops + [PutEdgeOp(e)];
    BucketInRange(cfg, e.Key());
    AddRouted(cfg, ops, g, e);
    SceneIsKept(cfg, ops, g);
    SceneIsKept(cfg, put, g.(edges := g.edges + {e}));
    FreeMeansAbsent(s.shards, e.id);
    Lands(cfg, s, e, Bucket(cfg, e.Key()));
    RunSnoc(cfg, FreshState(cfg), ops, PutEdgeOp(e));
    FailedDeleteRestores(cfg, s, e);
    RunSnoc(cfg, FreshState(cfg), put, DeleteEdgeOp(e.id));
  }

  lemma AfterFailedDelete(cfg: Config, u: Vertex, v: Vertex, e: Edge, f: Edge) returns (s: StoreState)
    requires ValidConfig(cfg) && cfg.logged && Reuses(u, v, e, f)
    ensures s == Run(cfg, FreshState(cfg), Setup(u, v) + [PutEdgeOp(e)] + [DeleteEdgeOp(e.id)])
    ensures s.shards == FreshState(cfg).shards && Unrotated(cfg, s) && s.vertices.Keys == {u.id, v.id}
    ensures s.log == [VertexRecord(u), VertexRecord(v)] + [EdgeRecord(e)]
  {
    var g := AfterSetup(cfg, u, v);
    BucketInRange(cfg, e.Key());
    PutThenFailedDelete(cfg, Setup(u, v), g, e);
    s := Run(cfg, FreshState(cfg), Setup(u, v) + [PutEdgeOp(e)] + [DeleteEdgeOp(e.id)]);
  }

  lemma ReplayVertices(cfg: Config, u: Vertex, v: Vertex)
    requires ValidConfig(cfg)
    ensures var o := Replay(cfg, [VertexRecord(u), VertexRecord(v)]);
            o.error.None? && Unrotated(cfg, o.state) && o.state.shards == FreshState(cfg).shards
  {
    ReplaySnoc(cfg, [], VertexRecord(u));
    ReplaySnoc(cfg, [] + [VertexRecord(u)], VertexRecord(v));
    assert [] + [VertexRecord(u)] + [VertexRecord(v)] == [VertexRecord(u), VertexRecord(v)];
  }

  lemma SecondPut(cfg: Config, t: StoreState, e: Edge, f: Edge, b: nat, c: nat)
    requires ValidConfig(cfg) && e.id == f.id && b < cfg.buckets && c < cfg.buckets && Unrotated(cfg, t)
    requires EdgeSet(t.shards) == {e}
    requires t.shards[b].live == [e] && t.shards == FreshState(cfg).shards[b := t.shards[b]]
    ensures var o := Place(t, f, Target(t, c));
            if b == c then o.error.Some? else o.error.None? && EdgeSet(o.state.shards) == {e, f}
  {
    if b != c {
      PlaceEffect(t, f, Some(c));
    } else {
      assert HasId(t.shards[c].live, f.id) by { assert e in t.shards[c].live; }
    }
  }

  /** Replaying the two puts of one id: into one shard the second fails, into two both land. */
  lemma ReplayTwice(cfg: Config, u: Vertex, v: Vertex, e: Edge, f: Edge)
    requires ValidConfig(cfg) && Reuses(u, v, e, f)
    ensures var o := Replay(cfg, [VertexRecord(u), VertexRecord(v)] + [EdgeRecord(e)] + [EdgeRecord(f)]);
            if Bucket(cfg, e.Key()) == Bucket(cfg, f.Key()) then o.error.Some?
            else o.error.None? && EdgeSet(o.state.shards) == {e, f}
  {
    var head := [VertexRecord(u), VertexRecord(v)];
    var t := Replay(cfg, head).state;
    ReplayVertices(cfg, u, v);
    BucketInRange(cfg, e.Key());
    BucketInRange(cfg, f.Key());
    FreshIsKept(cfg);
    Lands(cfg, t, e, Bucket(cfg, e.Key()));
    ReplaySnoc(cfg, head, EdgeRecord(e));
    ReplaySnoc(cfg, head + [EdgeRecord(e)], EdgeRecord(f));
    SecondPut(cfg, Place(t, e, Some(Bucket(cfg, e.Key()))).state, e, f, Bucket(cfg, e.Key()), Bucket(cfg, f.Key()));
  }

  /** The live store ends up with one edge under the id, but its log has two. When their keys share a
      bucket the store can no longer be opened; otherwise it opens with two live edges of one id. */
  lemma ReusedIdBreaksRestart(cfg: Config, u: Vertex, v: Vertex, e: Edge, f: Edge)
    requires ValidConfig(cfg) && cfg.logged && Reuses(u, v, e, f)
    ensures var s := Run(cfg, FreshState(cfg), Reuse(u, v, e, f));
            var o := Reopen(cfg, s);
            && EdgeSet(s.shards) == {f}
            && (Bucket(cfg, e.Key()) == Bucket(cfg, f.Key()) ==> o.error.Some?)
            && (Bucket(cfg, e.Key()) != Bucket(cfg, f.Key()) ==>
                  o.error.None? && EdgeSet(o.state.shards) == {e, f} && e != f && !UniqueIds(o.state.shards))
  {
    var s := AfterFailedDelete(cfg, u, v, e, f);
    RunSnoc(cfg, FreshState(cfg), Setup(u, v) + [PutEdgeOp(e)] + [DeleteEdgeOp(e.id)], PutEdgeOp(f));
    BucketInRange(cfg, f.Key());
    FreshIsKept(cfg);
    Lands(cfg, s, f, Bucket(cfg, f.Key()));
    ReplayTwice(cfg, u, v, e, f);
    var t := PutEdge(cfg, s, f).state;
    assert t.log == [VertexRecord(u), VertexRecord(v)] + [EdgeRecord(e)] + [EdgeRecord(f)];
    if Bucket(cfg, e.Key()) != Bucket(cfg, f.Key()) && UniqueIds(Reopen(cfg, t).state.shards) {
      SameIdSameEdge(Reopen(cfg, t).state.shards, e, f);
    }
  }
}
