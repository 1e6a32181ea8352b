/** Which generation holds an edge, and what follows for replay and for frozen edges. */
module Placement {
  import opened Seqs
  import opened GraphModel
  import opened ShardSpec
  import opened StoreSpec
  import opened Routing
  import opened Integrity
  import opened Journal
  import opened Runs
  import opened History

  /** Every edge lies in a generation of the bucket its routing key hashes to. */
  ghost predicate Placed(cfg: Config, s: StoreState) {
    forall b, k, e ::
      (0 <= b < |s.gens| && 0 <= k < |s.gens[b]| && s.gens[b][k] < |s.shards| && e in s.shards[s.gens[b][k]].live)
      ==> Bucket(cfg, e.Key()) == b
  }

  ghost predicate Fewer(s: StoreState, t: StoreState) {
    && t.gens == s.gens && |t.shards| == |s.shards|
    && (forall i, e :: 0 <= i < |s.shards| && e in t.shards[i].live ==> e in s.shards[i].live)
  }

  lemma FewerKeepsPlaced(cfg: Config, s: StoreState, t: StoreState)
    requires Placed(cfg, s) && Fewer(s, t)
    ensures Placed(cfg, t)
  {
  }

  lemma EvictLeavesFewer(s: StoreState, id: string)
    ensures Fewer(s, Evict(s, id).state) && Fewer(s, ReplayEvict(s, id).state)
  {
    var found := Locate(Order(s), s.shards, id);
    if found.Some? {
      FilterMembers(s.shards[found.value].live, IdIsNot(id));
    }
  }

  lemma {:induction false} CleanupLeavesFewer(s: StoreState, es: seq<Edge>)
    ensures Fewer(s, Cleanup(s, es).state)
    decreases |es|
  {
    if |es| > 0 {
      EvictLeavesFewer(s, es[0].id);
      CleanupLeavesFewer(Evict(s, es[0].id).state, es[1..]);
    }
  }

  lemma {:induction false} ReplayCleanupLeavesFewer(s: StoreState, es: seq<Edge>)
    ensures Fewer(s, ReplayCleanup(s, es).state)
    decreases |es|
  {
    if |es| > 0 {
      EvictLeavesFewer(s, es[0].id);
      ReplayCleanupLeavesFewer(ReplayEvict(s, es[0].id).state, es[1..]);
    }
  }

  lemma RoutedPlaceKeepsPlaced(cfg: Config, s: StoreState, e: Edge)
    requires ValidConfig(cfg) && Routed(cfg, s) && Placed(cfg, s)
    ensures Placed(cfg, Place(s, e, Target(s, Bucket(cfg, e.Key()))).state)
  {
    var b := Bucket(cfg, e.Key());
    BucketInRange(cfg, e.Key());
    assert Fronted(s, b);
  }

  lemma RotateKeepsPlaced(cfg: Config, s: StoreState, bucket: int)
    requires Routed(cfg, s) && Placed(cfg, s)
    ensures Placed(cfg, RotateBucket(cfg, s, bucket).state)
  {
    var t := RotateBucket(cfg, s, bucket).state;
    if t != s {
      forall b, k, e | 0 <= b < |t.gens| && 0 <= k < |t.gens[b]| && t.gens[b][k] < |t.shards|
          && e in t.shards[t.gens[b][k]].live
        ensures Bucket(cfg, e.Key()) == b
      {
        assert k < |s.gens[b]| && t.gens[b][k] == s.gens[b][k];
        assert e in s.shards[s.gens[b][k]].live;
      }
    }
  }

  lemma ReplayRecordKeepsPlaced(cfg: Config, s: StoreState, r: Record)
    requires ValidConfig(cfg) && Routed(cfg, s) && Placed(cfg, s)
    ensures Placed(cfg, ReplayRecord(cfg, s, r).state)
  {
    if r.op == "edge" {
      RoutedPlaceKeepsPlaced(cfg, s, RecordedEdge(r));
    } else if r.op == "edge-delete" {
      EvictLeavesFewer(s, r.id);
    } else if r.op == "vertex-delete" {
      ReplayCleanupLeavesFewer(s, Incident(s, r.id));
    }
  }

  lemma {:induction false} ReplayIsPlaced(cfg: Config, log: seq<Record>)
    requires ValidConfig(cfg)
    ensures Placed(cfg, Replay(cfg, log).state)
  {
    if |log| > 0 {
      ReplayIsPlaced(cfg, log[..|log| - 1]);
      ReplayIsRouted(cfg, log[..|log| - 1]);
      ReplayRecordKeepsPlaced(cfg, Replay(cfg, log[..|log| - 1]).state, log[|log| - 1]);
    }
  }

  /** An explicit bucket must be the one the key hashes to, unless the write is rejected. */
  ghost predicate RightBucket(cfg: Config, s: StoreState, op: Op) {
    op.PutEdgeToBucketOp? ==> Step(cfg, s, op).error.Some? || op.bucket == Bucket(cfg, op.e.Key())
  }

  lemma WrongBucketMisplaces(cfg: Config, s: StoreState, e: Edge, b: nat)
    requires ValidConfig(cfg) && Routed(cfg, s) && b < cfg.buckets && Place(s, e, Target(s, b)).error.None?
             && b != Bucket(cfg, e.Key())
    ensures !Placed(cfg, Place(s, e, Target(s, b)).state)
  {
    var t := Place(s, e, Target(s, b)).state;
    assert Fronted(s, b);
    assert e in t.shards[t.gens[b][s.active[b]]].live;
  }

  lemma PutToBucketKeepsPlaced(cfg: Config, s: StoreState, e: Edge, b: int)
    requires ValidConfig(cfg) && Routed(cfg, s) && Placed(cfg, s)
    ensures Placed(cfg, PutEdgeToBucket(cfg, s, e, b).state) <==> RightBucket(cfg, s, PutEdgeToBucketOp(e, b))
  {
    if RightBucket(cfg, s, PutEdgeToBucketOp(e, b)) {
      RoutedPlaceKeepsPlaced(cfg, s, e);
    } else {
      WrongBucketMisplaces(cfg, s, e, b);
    }
  }

  lemma DeletesKeepPlaced(cfg: Config, s: StoreState, op: Op)
    requires ValidConfig(cfg) && Placed(cfg, s) && (op.DeleteEdgeOp? || op.DeleteVertexOp?)
    ensures Placed(cfg, Step(cfg, s, op).state)
  {
    match op
    case DeleteEdgeOp(id) => EvictLeavesFewer(s, id);
    case DeleteVertexOp(v) => CleanupLeavesFewer(s, Incident(s, v));
  }

  /** A step keeps edges in their own buckets exactly when it does not write into a wrong one. */
  lemma StepKeepsPlaced(cfg: Config, s: StoreState, op: Op)
    requires ValidConfig(cfg) && Routed(cfg, s) && Placed(cfg, s)
    ensures Placed(cfg, Step(cfg, s, op).state) <==> RightBucket(cfg, s, op)
  {
    match op
    case PutEdgeOp(e) => RoutedPlaceKeepsPlaced(cfg, s, e);
    case PutEdgeToBucketOp(e, b) => PutToBucketKeepsPlaced(cfg, s, e, b);
    case DeleteEdgeOp(_) => DeletesKeepPlaced(cfg, s, op);
    case DeleteVertexOp(_) => DeletesKeepPlaced(cfg, s, op);
    case RotateBucketOp(b) => RotateKeepsPlaced(cfg, s, b);
    case ArchiveBucketOp(b) => FewerKeepsPlaced(cfg, s, ArchiveBucket(s, b));
    case ReopenOp => ReplayIsPlaced(cfg, s.log);
    case _ =>
  }

  ghost predicate RightBucketRun(cfg: Config, s: StoreState, ops: seq<Op>) {
    |ops| == 0 || (RightBucketRun(cfg, s, ops[..|ops| - 1])
                   && RightBucket(cfg, Run(cfg, s, ops[..|ops| - 1]), ops[|ops| - 1]))
  }

  /** Edges written through routing stay in the generations of their bucket, across rotations,
      archiving and restarts. */
  lemma {:induction false} RunKeepsPlaced(cfg: Config, ops: seq<Op>)
    requires ValidConfig(cfg) && RightBucketRun(cfg, FreshState(cfg), ops)
    ensures Placed(cfg, Run(cfg, FreshState(cfg), ops))
  {
    if |ops| > 0 {
      var init := ops[..|ops| - 1];
      RunKeepsPlaced(cfg, init);
      RunKeepsRouted(cfg, init);
      StepKeepsPlaced(cfg, Run(cfg, FreshState(cfg), init), ops[|ops| - 1]);
    }
  }

  // Runs without rotation.

  lemma {:induction false} CleanRunUsesRightBuckets(cfg: Config, s: StoreState, ops: seq<Op>)
    requires CleanRun(cfg, s, ops)
    ensures RightBucketRun(cfg, s, ops)
  {
    if |ops| > 0 {
      CleanRunUsesRightBuckets(cfg, s, ops[..|ops| - 1]);
    }
  }

  ghost predicate NeverRotates(ops: seq<Op>) {
    forall op :: op in ops ==> !op.RotateBucketOp?
  }

  lemma {:induction false} ReplayKeepsGens(cfg: Config, log: seq<Record>)
    ensures Replay(cfg, log).state.gens == FreshState(cfg).gens && |Replay(cfg, log).state.shards| == cfg.buckets
  {
    if |log| > 0 {
      var before, r := Replay(cfg, log[..|log| - 1]), log[|log| - 1];
      ReplayKeepsGens(cfg, log[..|log| - 1]);
      if r.op == "edge-delete" {
        EvictLeavesFewer(before.state, r.id);
      } else if r.op == "vertex-delete" {
        ReplayCleanupLeavesFewer(before.state, Incident(before.state, r.id));
      }
    }
  }

  lemma StepKeepsGens(cfg: Config, s: StoreState, op: Op)
    requires s.gens == FreshState(cfg).gens && |s.shards| == cfg.buckets && !op.RotateBucketOp?
    ensures var t := Step(cfg, s, op).state; t.gens == FreshState(cfg).gens && |t.shards| == cfg.buckets
  {
    match op
    case DeleteEdgeOp(id) => EvictLeavesFewer(s, id);
    case DeleteVertexOp(v) => CleanupLeavesFewer(s, Incident(s, v));
    case ReopenOp => ReplayKeepsGens(cfg, s.log);
    case _ =>
  }

  lemma {:induction false} NeverRotatedKeepsGens(cfg: Config, ops: seq<Op>)
    requires NeverRotates(ops)
    ensures var s := Run(cfg, FreshState(cfg), ops); s.gens == FreshState(cfg).gens && |s.shards| == cfg.buckets
  {
    if |ops| > 0 {
      var init, op := ops[..|ops| - 1], ops[|ops| - 1];
      assert op in ops;
      NeverRotatedKeepsGens(cfg, init);
      StepKeepsGens(cfg, Run(cfg, FreshState(cfg), init), op);
    }
  }

  lemma NeverRotatedIsRoomy(cfg: Config, ops: seq<Op>)
    requires ValidConfig(cfg) && cfg.logged && CleanRun(cfg, FreshState(cfg), ops) && NeverRotates(ops)
    ensures Roomy(cfg, EdgeSet(Run(cfg, FreshState(cfg), ops).shards))
  {
    var s := Run(cfg, FreshState(cfg), ops);
    CleanRunUsesRightBuckets(cfg, FreshState(cfg), ops);
    RunKeepsPlaced(cfg, ops);
    CleanRunLogs(cfg, ops);
    NeverRotatedKeepsGens(cfg, ops);
    forall i, e | 0 <= i < |s.shards| && e in s.shards[i].live ensures Bucket(cfg, e.Key()) == i {
      assert s.gens[i][0] == i;
    }
    CollapsedIsRoomy(cfg, s);
  }

  lemma StepLogsAtMostOnce(cfg: Config, s: StoreState, op: Op)
    requires Kept(cfg, s)
    ensures var t := Step(cfg, s, op).state; t.log == s.log || (|t.log| > 0 && t.log[..|t.log| - 1] == s.log)
  {
    match op
    case DeleteEdgeOp(id) => DeleteEdgeEffect(cfg, s, id);
    case DeleteVertexOp(v) => var k := DeleteVertexEffect(cfg, s, v);
    case _ =>
  }

  /** After a clean run in which no bucket was rotated, replaying the log always succeeds. */
  lemma {:induction false} NeverRotatedReplays(cfg: Config, ops: seq<Op>)
    requires ValidConfig(cfg) && cfg.logged && CleanRun(cfg, FreshState(cfg), ops) && NeverRotates(ops)
    ensures Replay(cfg, Run(cfg, FreshState(cfg), ops).log).error.None?
  {
    var s := Run(cfg, FreshState(cfg), ops);
    NeverRotatedIsRoomy(cfg, ops);
    CleanRunLogs(cfg, ops);
    if |ops| > 0 {
      var init := ops[..|ops| - 1];
      var before := Run(cfg, FreshState(cfg), init);
      NeverRotatedReplays(cfg, init);
      CleanRunLogs(cfg, init);
      StepLogsAtMostOnce(cfg, before, ops[|ops| - 1]);
      ReplayFollowsLog(cfg, before.log);
      if s.log != before.log {
        RoomyPrefixes(cfg, s.log);
      }
      ReplayFollowsLog(cfg, s.log);
    }
  }

  // Archived edges pin their vertices.

  ghost predicate Pinned(s: StoreState, i: nat, e: Edge, v: string) {
    i < |s.shards| && s.shards[i].phase == Archived && e in s.shards[i].live && Touches(e, v) && v in s.vertices
  }

  lemma PinnedBlocksDelete(cfg: Config, s: StoreState, i: nat, e: Edge, v: string)
    requires Kept(cfg, s) && Pinned(s, i, e, v)
    ensures DeleteVertex(cfg, s, v).error.Some?
  {
    var k := DeleteVertexEffect(cfg, s, v);
    assert HasId(s.shards[i].live, e.id);
    assert e in EdgeSet(s.shards) && Frozen(s, e.id);
  }

  lemma PinnedStaysOneStep(cfg: Config, s: StoreState, op: Op, i: nat, e: Edge, v: string)
    requires Kept(cfg, s) && Pinned(s, i, e, v) && op != ReopenOp
    ensures Pinned(Step(cfg, s, op).state, i, e, v)
  {
    StepAges(cfg, s, op);
    assert Aged(s.shards[i], Step(cfg, s, op).state.shards[i]);
    match op
    case DeleteEdgeOp(id) => DeleteEdgeEffect(cfg, s, id);
    case DeleteVertexOp(u) =>
      var k := DeleteVertexEffect(cfg, s, u);
      if u == v { PinnedBlocksDelete(cfg, s, i, e, v); }
    case _ =>
  }

  ghost predicate InstanceRun(cfg: Config, s: StoreState, ops: seq<Op>) {
    FreshRun(cfg, s, ops) && ReopenOp !in ops
  }

  lemma {:induction false} RunFromKept(cfg: Config, s: StoreState, ops: seq<Op>)
    requires ValidConfig(cfg) && Kept(cfg, s) && InstanceRun(cfg, s, ops)
    ensures Kept(cfg, Run(cfg, s, ops))
  {
    if |ops| > 0 {
      RunFromKept(cfg, s, ops[..|ops| - 1]);
      StepKeeps(cfg, Run(cfg, s, ops[..|ops| - 1]), ops[|ops| - 1]);
    }
  }

  lemma {:induction false} PinnedStays(cfg: Config, s: StoreState, ops: seq<Op>, i: nat, e: Edge, v: string)
    requires ValidConfig(cfg) && Kept(cfg, s) && InstanceRun(cfg, s, ops) && Pinned(s, i, e, v)
    ensures Pinned(Run(cfg, s, ops), i, e, v)
  {
    if |ops| > 0 {
      var init := ops[..|ops| - 1];
      PinnedStays(cfg, s, init, i, e, v);
      RunFromKept(cfg, s, init);
      PinnedStaysOneStep(cfg, Run(cfg, s, init), ops[|ops| - 1], i, e, v);
    }
  }

  /** A vertex at an archived edge stays stored for the rest of the instance's life, and every later
      attempt to delete it fails. */
  lemma ArchivedEdgePinsVertex(cfg: Config, s: StoreState, ops: seq<Op>, i: nat, e: Edge, v: string)
    requires ValidConfig(cfg) && Kept(cfg, s) && InstanceRun(cfg, s, ops) && Pinned(s, i, e, v)
    ensures v in Run(cfg, s, ops).vertices
    ensures DeleteVertex(cfg, Run(cfg, s, ops), v).error.Some?
  {
    PinnedStays(cfg, s, ops, i, e, v);
    RunFromKept(cfg, s, ops);
    PinnedBlocksDelete(cfg, Run(cfg, s, ops), i, e, v);
  }
}
