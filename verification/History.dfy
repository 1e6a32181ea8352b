/** What can still happen to a generation: phases only move forward, a sealed generation only loses
    edges, an archived one never changes again. */
module History {
  import opened Seqs
  import opened GraphModel
  import opened ShardSpec
  import opened StoreSpec

  ghost predicate Aged(before: ShardState, after: ShardState) {
    && before.phase.Rank() <= after.phase.Rank()
    && before.cap == after.cap
    && (before.phase != Active ==> forall e :: e in after.live ==> e in before.live)
    && (before.phase == Archived ==> after == before)
  }

  /** Every generation of `s` is still there in `t`, under the same id, and has only aged. */
  ghost predicate Succeeds(s: StoreState, t: StoreState) {
    && |s.shards| <= |t.shards|
    && (forall i :: 0 <= i < |s.shards| ==> Aged(s.shards[i], t.shards[i]))
  }

  lemma SucceedsTransitive(s: StoreState, t: StoreState, u: StoreState)
    requires Succeeds(s, t) && Succeeds(t, u)
    ensures Succeeds(s, u)
  {
    forall i | 0 <= i < |s.shards| ensures Aged(s.shards[i], u.shards[i]) {
      assert Aged(s.shards[i], t.shards[i]) && Aged(t.shards[i], u.shards[i]);
    }
  }

  lemma PlaceAges(s: StoreState, e: Edge, target: Option<nat>)
    ensures Succeeds(s, Place(s, e, target).state)
  {
  }

  lemma EvictAges(s: StoreState, id: string)
    ensures Succeeds(s, Evict(s, id).state)
  {
    var found := Locate(Order(s), s.shards, id);
    if found.Some? {
      FilterMembers(s.shards[found.value].live, IdIsNot(id));
    }
  }

  lemma {:induction false} CleanupAges(s: StoreState, es: seq<Edge>)
    ensures Succeeds(s, Cleanup(s, es).state)
    decreases |es|
  {
    if |es| > 0 {
      EvictAges(s, es[0].id);
      CleanupAges(Evict(s, es[0].id).state, es[1..]);
      SucceedsTransitive(s, Evict(s, es[0].id).state, Cleanup(s, es).state);
    }
  }

  lemma StepAges(cfg: Config, s: StoreState, op: Op)
    requires op != ReopenOp
    ensures Succeeds(s, Step(cfg, s, op).state)
  {
    match op
    case PutEdgeOp(e) => PlaceAges(s, e, Target(s, Bucket(cfg, e.Key())));
    case PutEdgeToBucketOp(e, b) => PlaceAges(s, e, Target(s, b));
    case DeleteEdgeOp(id) => EvictAges(s, id);
    case DeleteVertexOp(v) => CleanupAges(s, Incident(s, v));
    case _ =>
  }

  /** Over any run of one store instance, from any state. */
  lemma {:induction false} RunAges(cfg: Config, s: StoreState, ops: seq<Op>)
    requires ReopenOp !in ops
    ensures Succeeds(s, Run(cfg, s, ops))
  {
    if |ops| > 0 {
      var init := ops[..|ops| - 1];
      RunAges(cfg, s, init);
      StepAges(cfg, Run(cfg, s, init), ops[|ops| - 1]);
      SucceedsTransitive(s, Run(cfg, s, init), Run(cfg, s, ops));
    }
  }
}
