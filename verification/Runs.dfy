/** The claims about whole runs: any sequence of operations, with failures, rotations and restarts. */
module Runs {
  import opened GraphModel
  import opened StoreSpec
  import opened Routing
  import opened FlatGraph
  import opened Queries
  import opened Integrity
  import opened Journal
  import opened LabelTheory

  ghost predicate NoEdgeId(es: set<Edge>, id: string) {
    forall e :: e in es ==> e.id != id
  }

  /** The callers' duty: a put that goes through uses an id that no live edge and, for an edge, no stored vertex
      holds. That no stored vertex holds the id of a new one is not asked: the store sees to it. */
  ghost predicate FreshId(cfg: Config, s: StoreState, op: Op) {
    match op
    case PutVertexOp(v) => Step(cfg, s, op).error.None? ==> NoEdgeId(EdgeSet(s.shards), v.id)
    case PutEdgeOp(e) => Step(cfg, s, op).error.None? ==> NewId(GraphOf(s), e.id)
    case PutEdgeToBucketOp(e, _) => Step(cfg, s, op).error.None? ==> NewId(GraphOf(s), e.id)
    case _ => true
  }

  /** A logged put that goes through uses an id that no edge of the log holds. This says more than FreshId
      only after a delete that dropped an edge, failed and was not logged. */
  ghost predicate UnheldId(cfg: Config, s: StoreState, op: Op) {
    match op
    case PutVertexOp(v) => Step(cfg, s, op).error.None? ==> NoEdgeId(LogGraph(s.log).edges, v.id)
    case PutEdgeOp(e) => Step(cfg, s, op).error.None? ==> NoEdgeId(LogGraph(s.log).edges, e.id)
    case _ => true
  }

  ghost predicate FreshRun(cfg: Config, s: StoreState, ops: seq<Op>) {
    |ops| == 0 ||
      var init, op := ops[..|ops| - 1], ops[|ops| - 1];
      FreshRun(cfg, s, init) && FreshId(cfg, Run(cfg, s, init), op)
  }

  ghost predicate UnheldRun(cfg: Config, s: StoreState, ops: seq<Op>) {
    |ops| == 0 ||
      var init, op := ops[..|ops| - 1], ops[|ops| - 1];
      UnheldRun(cfg, s, init) && UnheldId(cfg, Run(cfg, s, init), op)
  }

  /** Every put uses a fresh id, and every put that a restart comes after also one the log did not hold. */
  ghost predicate AdmissibleRun(cfg: Config, s: StoreState, ops: seq<Op>) {
    |ops| == 0 ||
      var init, op := ops[..|ops| - 1], ops[|ops| - 1];
      && AdmissibleRun(cfg, s, init) && FreshId(cfg, Run(cfg, s, init), op)
      && (op == ReopenOp ==> UnheldRun(cfg, s, init))
  }

  /** As long as an instance is not restarted, fresh ids are all that is asked. */
  lemma {:induction false} InstanceRunIsAdmissible(cfg: Config, s: StoreState, ops: seq<Op>)
    requires ReopenOp !in ops
    ensures AdmissibleRun(cfg, s, ops) <==> FreshRun(cfg, s, ops)
  {
    if |ops| > 0 {
      InstanceRunIsAdmissible(cfg, s, ops[..|ops| - 1]);
    }
  }

  lemma {:induction false} UnheldRunIsAdmissible(cfg: Config, s: StoreState, ops: seq<Op>)
    requires FreshRun(cfg, s, ops) && UnheldRun(cfg, s, ops)
    ensures AdmissibleRun(cfg, s, ops)
  {
    if |ops| > 0 {
      UnheldRunIsAdmissible(cfg, s, ops[..|ops| - 1]);
    }
  }

  lemma PutEdgeKeeps(cfg: Config, s: StoreState, e: Edge)
    requires ValidConfig(cfg) && Kept(cfg, s) && FreshId(cfg, s, PutEdgeOp(e))
    ensures Kept(cfg, PutEdge(cfg, s, e).state)
  {
    var o, target := PutEdge(cfg, s, e), Target(s, Bucket(cfg, e.Key()));
    if o.error.None? {
      FreeMeansAbsent(s.shards, e.id);
      PlaceKeeps(cfg, s, e, target);
      OutsideKeeps(cfg, Place(s, e, target).state, o.state);
    }
  }

  lemma PutsKeep(cfg: Config, s: StoreState, op: Op)
    requires ValidConfig(cfg) && Kept(cfg, s) && FreshId(cfg, s, op)
    requires op.PutVertexOp? || op.PutEdgeOp? || op.PutEdgeToBucketOp?
    ensures Kept(cfg, Step(cfg, s, op).state)
  {
    var o := Step(cfg, s, op);
    if o.error.None? {
      match op
      case PutVertexOp(v) =>
        FreeMeansAbsent(s.shards, v.id);
        PutVertexKeeps(cfg, s, o.state, v);
      case PutEdgeOp(e) => PutEdgeKeeps(cfg, s, e);
      case PutEdgeToBucketOp(e, b) =>
        FreeMeansAbsent(s.shards, e.id);
        PlaceKeeps(cfg, s, e, Target(s, b));
    }
  }

  lemma DeleteEdgeKeeps(cfg: Config, s: StoreState, id: string)
    requires Kept(cfg, s)
    ensures Kept(cfg, DeleteEdge(cfg, s, id).state)
  {
    if e :| e in EdgeSet(s.shards) && e.id == id {
      EvictKeeps(cfg, s, e);
    } else {
      FreeMeansAbsent(s.shards, id);
      EvictEffect(cfg, s, id);
    }
    var t := Evict(s, id).state;
    OutsideKeeps(cfg, t, t.(log := Logging(cfg, t, EdgeDeleteRecord(id))));
  }

  lemma DeleteVertexKeeps(cfg: Config, s: StoreState, v: string)
    requires Kept(cfg, s)
    ensures Kept(cfg, DeleteVertex(cfg, s, v).state)
  {
    var o := DeleteVertex(cfg, s, v);
    if !s.closed && v in s.vertices {
      IncidentMembers(cfg, s, v);
      CleanupKeeps(cfg, s, Incident(s, v));
      var cleaned := Cleanup(s, Incident(s, v)).state;
      if o.error.None? {
        DropVertexKeeps(cfg, cleaned, v);
        RemoveLabelKeeps(s.labels, s.vertices, v);
        OutsideKeeps(cfg, DropVertex(cleaned, v), o.state);
      }
    }
  }

  lemma GenerationsKeep(cfg: Config, s: StoreState, bucket: int)
    requires ValidConfig(cfg) && Kept(cfg, s)
    ensures Kept(cfg, RotateBucket(cfg, s, bucket).state) && Kept(cfg, ArchiveBucket(s, bucket))
  {
    GenerationsKeepEdges(cfg, s, bucket);
    RotateKeepsRouted(cfg, s, bucket);
    ArchiveKeepsRouted(cfg, s, bucket);
  }

  lemma ReopenKeeps(cfg: Config, s: StoreState)
    requires ValidConfig(cfg) && Kept(cfg, s) && WellFormed(s.log)
    ensures Kept(cfg, Reopen(cfg, s).state)
  {
    ReplayFollowsLog(cfg, s.log);
    if Reopen(cfg, s).error.None? {
      OutsideKeeps(cfg, Replay(cfg, s.log).state, Reopen(cfg, s).state);
    } else {
      OutsideKeeps(cfg, s, Reopen(cfg, s).state);
    }
  }

  lemma StepKeeps(cfg: Config, s: StoreState, op: Op)
    requires ValidConfig(cfg) && Kept(cfg, s) && FreshId(cfg, s, op) && (op == ReopenOp ==> WellFormed(s.log))
    ensures Kept(cfg, Step(cfg, s, op).state)
  {
    match op
    case DeleteEdgeOp(id) => DeleteEdgeKeeps(cfg, s, id);
    case DeleteVertexOp(v) => DeleteVertexKeeps(cfg, s, v);
    case RotateBucketOp(b) => GenerationsKeep(cfg, s, b);
    case ArchiveBucketOp(b) => GenerationsKeep(cfg, s, b);
    case RebuildOp(cancelled) =>
      RebuildMeans(cfg, s, cancelled);
      OutsideKeeps(cfg, s, Step(cfg, s, op).state);
    case CloseOp => OutsideKeeps(cfg, s, Step(cfg, s, op).state);
    case ReopenOp => ReopenKeeps(cfg, s);
    case _ => PutsKeep(cfg, s, op);
  }

  lemma DeleteEdgeEffect(cfg: Config, s: StoreState, id: string)
    requires Kept(cfg, s)
    ensures var o := DeleteEdge(cfg, s, id);
            && SameBut(s, o.state.(log := s.log))
            && (s.closed || IdFree(s.shards, id) || Frozen(s, id) ==> o.error.Some? && o.state == s)
            && (!s.closed && !IdFree(s.shards, id) && !Frozen(s, id) ==>
                  EdgeSet(o.state.shards) == WithoutId(EdgeSet(s.shards), id))
            && o.state.log == (if o.error.None? then Logging(cfg, s, EdgeDeleteRecord(id)) else s.log)
    ensures DeleteEdge(cfg, s, id).error.None?
            <==> !s.closed && exists e :: e in EdgeSet(s.shards) && e.id == id && Removable(s, e)
  {
    FreeMeansAbsent(s.shards, id);
    if e :| e in EdgeSet(s.shards) && e.id == id {
      EvictKeeps(cfg, s, e);
      SameIdSameEdges(s.shards);
    } else {
      EvictEffect(cfg, s, id);
    }
  }

  // The log stays one that can be replayed.

  lemma LogSnoc(log: seq<Record>, r: Record)
    ensures WellFormed(log + [r]) <==> WellFormed(log) && Legal(LogGraph(log), r)
    ensures LogGraph(log + [r]) == Apply(LogGraph(log), r)
  {
    assert (log + [r])[..|log|] == log;
  }

  /** The log is well formed and tells the stored vertices and their order. About the edges it may say
      too much, after an unlogged drop, or too little, after an unlogged put. */
  ghost predicate Recorded(cfg: Config, s: StoreState) {
    && WellFormed(s.log)
    && (cfg.logged ==> LogGraph(s.log).vertices == s.vertices && LogGraph(s.log).vertexSeq == s.vertexSeq)
    && (!cfg.logged ==> s.log == [])
  }

  lemma PutVertexKeepsRecorded(cfg: Config, s: StoreState, v: Vertex)
    requires Recorded(cfg, s) && UnheldId(cfg, s, PutVertexOp(v))
    ensures Recorded(cfg, PutVertex(cfg, s, v).state)
  {
    LogSnoc(s.log, VertexRecord(v));
  }

  lemma PutEdgeKeepsRecorded(cfg: Config, s: StoreState, e: Edge)
    requires Recorded(cfg, s) && FreshId(cfg, s, PutEdgeOp(e)) && UnheldId(cfg, s, PutEdgeOp(e))
    ensures Recorded(cfg, PutEdge(cfg, s, e).state)
  {
    LogSnoc(s.log, EdgeRecord(e));
  }

  lemma DeleteVertexKeepsRecorded(cfg: Config, s: StoreState, v: string)
    requires Kept(cfg, s) && Recorded(cfg, s)
    ensures Recorded(cfg, DeleteVertex(cfg, s, v).state)
  {
    var k := DeleteVertexEffect(cfg, s, v);
    LogSnoc(s.log, VertexDeleteRecord(v));
  }

  lemma DeleteEdgeKeepsRecorded(cfg: Config, s: StoreState, id: string)
    requires Kept(cfg, s) && Recorded(cfg, s)
    ensures Recorded(cfg, DeleteEdge(cfg, s, id).state)
  {
    DeleteEdgeEffect(cfg, s, id);
    LogSnoc(s.log, EdgeDeleteRecord(id));
  }

  lemma StepKeepsRecorded(cfg: Config, s: StoreState, op: Op)
    requires ValidConfig(cfg) && Kept(cfg, s) && Recorded(cfg, s) && FreshId(cfg, s, op) && UnheldId(cfg, s, op)
    ensures Recorded(cfg, Step(cfg, s, op).state)
  {
    match op
    case PutVertexOp(v) => PutVertexKeepsRecorded(cfg, s, v);
    case PutEdgeOp(e) => PutEdgeKeepsRecorded(cfg, s, e);
    case DeleteEdgeOp(id) => DeleteEdgeKeepsRecorded(cfg, s, id);
    case DeleteVertexOp(v) => DeleteVertexKeepsRecorded(cfg, s, v);
    case ReopenOp => ReplayFollowsLog(cfg, s.log);
    case _ =>
  }

  /** Unique ids, an index equal to a scan, listed vertices and live label entries hold in every reachable
      state, including after operations that failed partway and after restarts. The log can be replayed
      while no put has used an id it held. */
  lemma {:induction false} RunKeeps(cfg: Config, ops: seq<Op>)
    requires ValidConfig(cfg) && AdmissibleRun(cfg, FreshState(cfg), ops)
    ensures Kept(cfg, Run(cfg, FreshState(cfg), ops))
    ensures UnheldRun(cfg, FreshState(cfg), ops) ==> Recorded(cfg, Run(cfg, FreshState(cfg), ops))
  {
    if |ops| == 0 {
      FreshIsKept(cfg);
    } else {
      var init, op := ops[..|ops| - 1], ops[|ops| - 1];
      RunKeeps(cfg, init);
      StepKeeps(cfg, Run(cfg, FreshState(cfg), init), op);
      if UnheldRun(cfg, FreshState(cfg), ops) {
        StepKeepsRecorded(cfg, Run(cfg, FreshState(cfg), init), op);
      }
    }
  }

  // Referential integrity.

  ghost predicate BringsEndpoints(s: StoreState, op: Op) {
    op.PutEdgeToBucketOp? ==> op.e.from in s.vertices && op.e.to in s.vertices
  }

  lemma PutKeepsAnchored(cfg: Config, s: StoreState, op: Op)
    requires Anchored(EdgeSet(s.shards), s.vertices) && (op.PutVertexOp? || op.PutEdgeOp? || op.PutEdgeToBucketOp?)
    ensures Anchored(EdgeSet(Step(cfg, s, op).state.shards), Step(cfg, s, op).state.vertices)
        <==> Step(cfg, s, op).error.Some? || BringsEndpoints(s, op)
  {
    match op
    case PutVertexOp(_) =>
    case PutEdgeOp(e) =>
      if Step(cfg, s, op).error.None? { PlaceEffect(s, e, Target(s, Bucket(cfg, e.Key()))); }
    case PutEdgeToBucketOp(e, b) =>
      if Step(cfg, s, op).error.None? { PlaceEffect(s, e, Target(s, b)); }
  }

  lemma DeletesKeepAnchored(cfg: Config, s: StoreState, op: Op)
    requires Kept(cfg, s) && Anchored(EdgeSet(s.shards), s.vertices) && (op.DeleteEdgeOp? || op.DeleteVertexOp?)
    ensures Anchored(EdgeSet(Step(cfg, s, op).state.shards), Step(cfg, s, op).state.vertices)
  {
    match op
    case DeleteEdgeOp(id) => DeleteEdgeEffect(cfg, s, id);
    case DeleteVertexOp(v) => var k := DeleteVertexEffect(cfg, s, v);
  }

  /** One step keeps every edge anchored exactly when it does not bring an edge without endpoints. */
  lemma StepKeepsAnchored(cfg: Config, s: StoreState, op: Op)
    requires ValidConfig(cfg) && Kept(cfg, s) && op != ReopenOp
    requires Anchored(EdgeSet(s.shards), s.vertices)
    ensures Anchored(EdgeSet(Step(cfg, s, op).state.shards), Step(cfg, s, op).state.vertices)
        <==> Step(cfg, s, op).error.Some? || BringsEndpoints(s, op)
  {
    match op
    case DeleteEdgeOp(_) => DeletesKeepAnchored(cfg, s, op);
    case DeleteVertexOp(_) => DeletesKeepAnchored(cfg, s, op);
    case RotateBucketOp(b) => GenerationsKeepEdges(cfg, s, b);
    case ArchiveBucketOp(b) => GenerationsKeepEdges(cfg, s, b);
    case RebuildOp(_) =>
    case CloseOp =>
    case _ => PutKeepsAnchored(cfg, s, op);
  }

  /** The log holds only edges between stored vertices, also those the store has dropped unlogged. */
  ghost predicate Backed(cfg: Config, s: StoreState) {
    cfg.logged ==> Anchored(LogGraph(s.log).edges, s.vertices)
  }

  lemma DeleteEdgeKeepsBacked(cfg: Config, s: StoreState, id: string)
    requires Kept(cfg, s) && Backed(cfg, s)
    ensures Backed(cfg, DeleteEdge(cfg, s, id).state)
  {
    DeleteEdgeEffect(cfg, s, id);
    LogSnoc(s.log, EdgeDeleteRecord(id));
  }

  lemma DeleteVertexKeepsBacked(cfg: Config, s: StoreState, v: string)
    requires Kept(cfg, s) && Backed(cfg, s)
    ensures Backed(cfg, DeleteVertex(cfg, s, v).state)
  {
    var k := DeleteVertexEffect(cfg, s, v);
    LogSnoc(s.log, VertexDeleteRecord(v));
  }

  lemma PutVertexKeepsBacked(cfg: Config, s: StoreState, v: Vertex)
    requires Backed(cfg, s)
    ensures Backed(cfg, PutVertex(cfg, s, v).state)
  {
    LogSnoc(s.log, VertexRecord(v));
  }

  lemma PutEdgeKeepsBacked(cfg: Config, s: StoreState, e: Edge)
    requires Backed(cfg, s)
    ensures Backed(cfg, PutEdge(cfg, s, e).state)
  {
    LogSnoc(s.log, EdgeRecord(e));
    assert RecordedEdge(EdgeRecord(e)) == e;
  }

  lemma StepKeepsBacked(cfg: Config, s: StoreState, op: Op)
    requires ValidConfig(cfg) && Kept(cfg, s) && Backed(cfg, s) && (op == ReopenOp ==> Recorded(cfg, s))
    ensures Backed(cfg, Step(cfg, s, op).state)
  {
    match op
    case ReopenOp => ReplayFollowsLog(cfg, s.log);
    case DeleteEdgeOp(id) => DeleteEdgeKeepsBacked(cfg, s, id);
    case DeleteVertexOp(v) => DeleteVertexKeepsBacked(cfg, s, v);
    case PutVertexOp(v) => PutVertexKeepsBacked(cfg, s, v);
    case PutEdgeOp(e) => PutEdgeKeepsBacked(cfg, s, e);
    case _ =>
  }

  lemma ReopenKeepsAnchored(cfg: Config, s: StoreState)
    requires ValidConfig(cfg) && Recorded(cfg, s) && Backed(cfg, s) && Anchored(EdgeSet(s.shards), s.vertices)
    ensures var t := Reopen(cfg, s).state; Anchored(EdgeSet(t.shards), t.vertices)
  {
    ReplayFollowsLog(cfg, s.log);
  }

  ghost predicate AnchoredRun(cfg: Config, s: StoreState, ops: seq<Op>) {
    |ops| == 0 ||
      var init, op := ops[..|ops| - 1], ops[|ops| - 1];
      AnchoredRun(cfg, s, init) && BringsEndpoints(Run(cfg, s, init), op)
  }

  /** Both endpoints of every live edge are stored in every reachable state, also after a vertex
      deletion that failed partway and after a restart that brings its dropped edges back. */
  lemma {:induction false} RunKeepsAnchored(cfg: Config, ops: seq<Op>)
    requires ValidConfig(cfg) && AdmissibleRun(cfg, FreshState(cfg), ops) && AnchoredRun(cfg, FreshState(cfg), ops)
    ensures var s := Run(cfg, FreshState(cfg), ops); Anchored(EdgeSet(s.shards), s.vertices) && Backed(cfg, s)
  {
    if |ops| == 0 {
      FreshIsKept(cfg);
    } else {
      var init, op := ops[..|ops| - 1], ops[|ops| - 1];
      var s := Run(cfg, FreshState(cfg), init);
      RunKeepsAnchored(cfg, init);
      RunKeeps(cfg, init);
      StepKeepsBacked(cfg, s, op);
      if op == ReopenOp {
        ReopenKeepsAnchored(cfg, s);
      } else {
        StepKeepsAnchored(cfg, s, op);
      }
    }
  }

  // The log follows the graph.

  ghost predicate Logged(s: StoreState) {
    WellFormed(s.log) && LogGraph(s.log) == GraphOf(s)
  }

  /** The operations after which the log still describes the graph. Writes into an explicit bucket
      are not logged; a delete that drops edges and then fails is not logged either. */
  ghost predicate Clean(cfg: Config, s: StoreState, op: Op) {
    match op
    case PutEdgeToBucketOp(e, b) => Step(cfg, s, op).error.Some?
    case DeleteEdgeOp(id) =>
      s.closed || forall e :: e in EdgeSet(s.shards) && e.id == id ==> Frozen(s, id) || e.attrs != map[]
    case DeleteVertexOp(v) =>
      || s.closed || v !in s.vertices || AllRemovable(s, v)
      || (Incident(s, v) != [] && Frozen(s, Incident(s, v)[0].id))
    case _ => true
  }

  lemma PutVertexLogs(cfg: Config, s: StoreState, v: Vertex)
    requires cfg.logged && Logged(s) && FreshId(cfg, s, PutVertexOp(v))
    ensures Logged(PutVertex(cfg, s, v).state)
  {
    LogSnoc(s.log, VertexRecord(v));
  }

  lemma PutEdgeLogs(cfg: Config, s: StoreState, e: Edge)
    requires cfg.logged && Logged(s) && FreshId(cfg, s, PutEdgeOp(e))
    ensures Logged(PutEdge(cfg, s, e).state)
  {
    if PutEdge(cfg, s, e).error.None? {
      PlaceEffect(s, e, Target(s, Bucket(cfg, e.Key())));
      LogSnoc(s.log, EdgeRecord(e));
    }
  }

  lemma PutEdgeToBucketLogs(cfg: Config, s: StoreState, e: Edge, b: int)
    requires Logged(s) && FreshId(cfg, s, PutEdgeToBucketOp(e, b))
    ensures Logged(PutEdgeToBucket(cfg, s, e, b).state) <==> PutEdgeToBucket(cfg, s, e, b).error.Some?
  {
    if PutEdgeToBucket(cfg, s, e, b).error.None? {
      PlaceEffect(s, e, Target(s, b));
      assert e !in EdgeSet(s.shards) && e in EdgeSet(s.shards) + {e};
    }
  }

  lemma DeletedEdgeIsLogged(cfg: Config, s: StoreState, id: string)
    requires cfg.logged && Kept(cfg, s) && Logged(s) && DeleteEdge(cfg, s, id).error.None?
    ensures Logged(DeleteEdge(cfg, s, id).state) && Clean(cfg, s, DeleteEdgeOp(id))
  {
    DeleteEdgeEffect(cfg, s, id);
    LogSnoc(s.log, EdgeDeleteRecord(id));
    SameIdSameEdges(s.shards);
  }

  lemma DropShows(s: StoreState, e: Edge)
    requires e in EdgeSet(s.shards)
    ensures WithoutId(EdgeSet(s.shards), e.id) != EdgeSet(s.shards)
  {
    assert e !in WithoutId(EdgeSet(s.shards), e.id);
  }

  lemma FailedDropIsNotLogged(cfg: Config, s: StoreState, id: string)
    requires Kept(cfg, s) && Logged(s) && DeleteEdge(cfg, s, id).error.Some?
    ensures Logged(DeleteEdge(cfg, s, id).state) <==> Clean(cfg, s, DeleteEdgeOp(id))
  {
    var t := DeleteEdge(cfg, s, id).state;
    DeleteEdgeEffect(cfg, s, id);
    FreeMeansAbsent(s.shards, id);
    if s.closed || IdFree(s.shards, id) || Frozen(s, id) {
      assert t == s;
    } else {
      var e :| e in EdgeSet(s.shards) && e.id == id;
      DropShows(s, e);
      assert !Removable(s, e);
    }
  }

  lemma DeleteEdgeLogs(cfg: Config, s: StoreState, id: string)
    requires cfg.logged && Kept(cfg, s) && Logged(s)
    ensures Logged(DeleteEdge(cfg, s, id).state) <==> Clean(cfg, s, DeleteEdgeOp(id))
  {
    if DeleteEdge(cfg, s, id).error.None? {
      DeletedEdgeIsLogged(cfg, s, id);
    } else {
      FailedDropIsNotLogged(cfg, s, id);
    }
  }

  lemma CascadeDrops(cfg: Config, s: StoreState, v: string, k: nat)
    requires Kept(cfg, s) && 0 < k <= |Incident(s, v)|
    ensures WithoutAll(EdgeSet(s.shards), Incident(s, v)[..k]) != EdgeSet(s.shards)
  {
    IncidentMembers(cfg, s, v);
    var e := Incident(s, v)[0];
    assert e in Incident(s, v)[..k];
    assert e !in WithoutAll(EdgeSet(s.shards), Incident(s, v)[..k]);
  }

  lemma DeletedVertexIsLogged(cfg: Config, s: StoreState, v: string)
    requires cfg.logged && Kept(cfg, s) && Logged(s) && DeleteVertex(cfg, s, v).error.None?
    ensures Logged(DeleteVertex(cfg, s, v).state)
  {
    var k := DeleteVertexEffect(cfg, s, v);
    LogSnoc(s.log, VertexDeleteRecord(v));
  }

  lemma FailedCascadeIsNotLogged(cfg: Config, s: StoreState, v: string)
    requires Kept(cfg, s) && Logged(s) && DeleteVertex(cfg, s, v).error.Some?
    ensures Logged(DeleteVertex(cfg, s, v).state) <==> Clean(cfg, s, DeleteVertexOp(v))
  {
    var k := DeleteVertexEffect(cfg, s, v);
    if k > 0 {
      CascadeDrops(cfg, s, v, k);
    } else {
      assert DeleteVertex(cfg, s, v).state == s;
    }
  }

  lemma DeleteVertexLogs(cfg: Config, s: StoreState, v: string)
    requires cfg.logged && Kept(cfg, s) && Logged(s)
    ensures Logged(DeleteVertex(cfg, s, v).state) <==> Clean(cfg, s, DeleteVertexOp(v))
  {
    if DeleteVertex(cfg, s, v).error.None? {
      DeletedVertexIsLogged(cfg, s, v);
      var k := DeleteVertexEffect(cfg, s, v);
    } else {
      FailedCascadeIsNotLogged(cfg, s, v);
    }
  }

  lemma ReopenLogs(cfg: Config, s: StoreState)
    requires ValidConfig(cfg) && Logged(s)
    ensures Logged(Reopen(cfg, s).state)
  {
    ReplayFollowsLog(cfg, s.log);
  }

  lemma GenerationsLog(cfg: Config, s: StoreState, b: int)
    requires Routed(cfg, s) && Logged(s)
    ensures Logged(RotateBucket(cfg, s, b).state) && Logged(ArchiveBucket(s, b))
  {
    GenerationsKeepEdges(cfg, s, b);
  }

  /** One step keeps the log a description of the graph exactly when it is clean. */
  lemma StepLogsExactlyWhenClean(cfg: Config, s: StoreState, op: Op)
    requires ValidConfig(cfg) && cfg.logged && Kept(cfg, s) && Logged(s) && FreshId(cfg, s, op)
    ensures Logged(Step(cfg, s, op).state) <==> Clean(cfg, s, op)
  {
    match op
    case DeleteEdgeOp(id) => DeleteEdgeLogs(cfg, s, id);
    case DeleteVertexOp(v) => DeleteVertexLogs(cfg, s, v);
    case RotateBucketOp(b) => GenerationsLog(cfg, s, b);
    case ArchiveBucketOp(b) => GenerationsLog(cfg, s, b);
    case ReopenOp => ReopenLogs(cfg, s);
    case PutVertexOp(v) => PutVertexLogs(cfg, s, v);
    case PutEdgeOp(e) => PutEdgeLogs(cfg, s, e);
    case PutEdgeToBucketOp(e, b) => PutEdgeToBucketLogs(cfg, s, e, b);
    case _ =>
  }

  ghost predicate CleanRun(cfg: Config, s: StoreState, ops: seq<Op>) {
    |ops| == 0 || (CleanRun(cfg, s, ops[..|ops| - 1])
                   && FreshId(cfg, Run(cfg, s, ops[..|ops| - 1]), ops[|ops| - 1])
                   && Clean(cfg, Run(cfg, s, ops[..|ops| - 1]), ops[|ops| - 1]))
  }

  lemma {:induction false} CleanRunLogs(cfg: Config, ops: seq<Op>)
    requires ValidConfig(cfg) && cfg.logged && CleanRun(cfg, FreshState(cfg), ops)
    ensures Kept(cfg, Run(cfg, FreshState(cfg), ops)) && Logged(Run(cfg, FreshState(cfg), ops))
  {
    if |ops| == 0 {
      FreshIsKept(cfg);
    } else {
      var init, op := ops[..|ops| - 1], ops[|ops| - 1];
      CleanRunLogs(cfg, init);
      StepKeeps(cfg, Run(cfg, FreshState(cfg), init), op);
      StepLogsExactlyWhenClean(cfg, Run(cfg, FreshState(cfg), init), op);
    }
  }

  /** After any clean run, restarts included, replaying the log into a fresh store succeeds exactly
      when every bucket's logged edges always fit into one shard, and then it gives the same vertices
      in the same order, the same edges and the same attribute index, in one generation per bucket. */
  lemma ReplayRebuildsLiveGraph(cfg: Config, ops: seq<Op>)
    requires ValidConfig(cfg) && cfg.logged && CleanRun(cfg, FreshState(cfg), ops)
    ensures var s := Run(cfg, FreshState(cfg), ops);
            var replayed := Replay(cfg, s.log);
            && (replayed.error.None? <==> AlwaysRoomy(cfg, s.log))
            && (replayed.error.None? ==>
                  && replayed.state.vertices == s.vertices
                  && replayed.state.vertexSeq == s.vertexSeq
                  && EdgeSet(replayed.state.shards) == EdgeSet(s.shards)
                  && replayed.state.index.pairs == s.index.pairs
                  && |replayed.state.shards| == cfg.buckets)
  {
    CleanRunLogs(cfg, ops);
    ReplayFollowsLog(cfg, Run(cfg, FreshState(cfg), ops).log);
  }

  /** Reopening after a clean run either restores the live graph under the same log, or fails and leaves
      the closed store as it was; which of the two is settled by the capacity of the buckets. */
  lemma ReopenRestoresLiveGraph(cfg: Config, ops: seq<Op>)
    requires ValidConfig(cfg) && cfg.logged && CleanRun(cfg, FreshState(cfg), ops)
    ensures var s := Run(cfg, FreshState(cfg), ops);
            var o := Reopen(cfg, s);
            && (o.error.None? <==> AlwaysRoomy(cfg, s.log))
            && GraphOf(o.state) == GraphOf(s) && o.state.index.pairs == s.index.pairs && o.state.log == s.log
            && o.state.closed == o.error.Some?
  {
    ReplayRebuildsLiveGraph(cfg, ops);
    CleanRunLogs(cfg, ops);
    ReplayFollowsLog(cfg, Run(cfg, FreshState(cfg), ops).log);
  }
}
