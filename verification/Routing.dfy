/** Where edges may live: the routing invariant of every run, and what can still happen to a
    generation once it is sealed or archived. */
module Routing {
  import opened Seqs
  import opened GraphModel
  import opened ShardSpec
  import opened StoreSpec

  ghost predicate SoundShard(cfg: Config, sh: ShardState) {
    sh.cap == cfg.capacity && |sh.live| <= cfg.capacity && DistinctIds(sh.live)
  }

  ghost predicate InGens(gens: seq<seq<nat>>, i: nat) {
    exists b, k :: 0 <= b < |gens| && 0 <= k < |gens[b]| && gens[b][k] == i
  }

  /** Every shard id occurs at exactly one place of the generation table. */
  ghost predicate Enumerates(gens: seq<seq<nat>>, count: nat) {
    && (forall b, k :: 0 <= b < |gens| && 0 <= k < |gens[b]| ==> gens[b][k] < count)
    && (forall b, k, c, l ::
          (0 <= b < |gens| && 0 <= k < |gens[b]| && 0 <= c < |gens| && 0 <= l < |gens[c]| && gens[b][k] == gens[c][l])
          ==> b == c && k == l)
    && (forall i: nat :: i < count ==> InGens(gens, i))
  }

  /** The last generation of a bucket takes the writes, the router points at it, and it is the only
      one still active. */
  ghost predicate Fronted(s: StoreState, b: nat)
    requires b < |s.gens| && b < |s.active| && b < |s.route|
  {
    && |s.gens[b]| > 0 && s.active[b] == |s.gens[b]| - 1 && s.route[b] == s.gens[b][s.active[b]]
    && (forall k :: 0 <= k < |s.gens[b]| && s.gens[b][k] < |s.shards| ==>
          (s.shards[s.gens[b][k]].phase == Active <==> k == s.active[b]))
  }

  ghost predicate Routed(cfg: Config, s: StoreState) {
    && |s.gens| == |s.active| == |s.route| == cfg.buckets
    && Enumerates(s.gens, |s.shards|)
    && (forall b: nat :: b < cfg.buckets ==> Fronted(s, b))
    && (forall i :: 0 <= i < |s.shards| ==> SoundShard(cfg, s.shards[i]) && s.shards[i].phase != Sealing)
  }

  lemma FreshIsRouted(cfg: Config)
    requires ValidConfig(cfg)
    ensures Routed(cfg, FreshState(cfg))
  {
    var s := FreshState(cfg);
    forall i: nat | i < cfg.buckets ensures InGens(s.gens, i) {
      assert s.gens[i][0] == i;
    }
  }

  lemma OrderCovers(cfg: Config, s: StoreState, i: nat)
    requires Routed(cfg, s) && i < |s.shards|
    ensures i in Order(s)
  {
    FlattenMembers(s.gens);
    assert InGens(s.gens, i);
  }

  lemma TargetIsActive(cfg: Config, s: StoreState, b: nat)
    requires Routed(cfg, s) && b < cfg.buckets
    ensures Target(s, b).Some? && s.shards[Target(s, b).value].phase == Active
  {
    assert Fronted(s, b);
  }

  /** Same generations in the same phases; only the edges inside may differ. */
  ghost predicate SameLayout(s: StoreState, t: StoreState) {
    && t.gens == s.gens && t.active == s.active && t.route == s.route && |t.shards| == |s.shards|
    && (forall i :: 0 <= i < |s.shards| ==> t.shards[i].phase == s.shards[i].phase
                                            && t.shards[i].cap == s.shards[i].cap)
  }

  lemma LayoutKeepsRouted(cfg: Config, s: StoreState, t: StoreState)
    requires Routed(cfg, s) && SameLayout(s, t)
    requires forall i :: 0 <= i < |t.shards| ==> SoundShard(cfg, t.shards[i])
    ensures Routed(cfg, t)
  {
    forall b: nat | b < cfg.buckets ensures Fronted(t, b) {
      assert Fronted(s, b);
    }
  }

  lemma PlaceKeepsRouted(cfg: Config, s: StoreState, e: Edge, target: Option<nat>)
    requires Routed(cfg, s)
    ensures Routed(cfg, Place(s, e, target).state)
  {
    var t := Place(s, e, target).state;
    if t != s {
      assert SoundShard(cfg, s.shards[target.value]);
      LayoutKeepsRouted(cfg, s, t);
    }
  }

  lemma RemovalKeepsSound(cfg: Config, sh: ShardState, id: string)
    requires SoundShard(cfg, sh)
    ensures match RemoveEdge(sh, id) case Ok(rest) => SoundShard(cfg, rest) case Err(_) => true
  {
    FilterDistinct(sh.live, IdIsNot(id));
  }

  lemma EvictKeepsRouted(cfg: Config, s: StoreState, id: string)
    requires Routed(cfg, s)
    ensures Routed(cfg, Evict(s, id).state) && Routed(cfg, ReplayEvict(s, id).state)
  {
    var found := Locate(Order(s), s.shards, id);
    if found.Some? {
      RemovalKeepsSound(cfg, s.shards[found.value], id);
      var t := s.(shards := Evict(s, id).state.shards);
      LayoutKeepsRouted(cfg, s, Evict(s, id).state);
      LayoutKeepsRouted(cfg, s, ReplayEvict(s, id).state);
    }
  }

  lemma {:induction false} CleanupKeepsRouted(cfg: Config, s: StoreState, es: seq<Edge>)
    requires Routed(cfg, s)
    ensures Routed(cfg, Cleanup(s, es).state)
    decreases |es|
  {
    if |es| > 0 {
      EvictKeepsRouted(cfg, s, es[0].id);
      CleanupKeepsRouted(cfg, Evict(s, es[0].id).state, es[1..]);
    }
  }

  lemma {:induction false} ReplayCleanupKeepsRouted(cfg: Config, s: StoreState, es: seq<Edge>)
    requires Routed(cfg, s)
    ensures Routed(cfg, ReplayCleanup(s, es).state)
    decreases |es|
  {
    if |es| > 0 {
      EvictKeepsRouted(cfg, s, es[0].id);
      ReplayCleanupKeepsRouted(cfg, ReplayEvict(s, es[0].id).state, es[1..]);
    }
  }

  lemma RotatedEnumerates(gens: seq<seq<nat>>, bucket: nat, count: nat)
    requires Enumerates(gens, count) && bucket < |gens|
    ensures Enumerates(gens[bucket := gens[bucket] + [count]], count + 1)
  {
    var after := gens[bucket := gens[bucket] + [count]];
    forall i: nat | i < count + 1 ensures InGens(after, i) {
      if i == count {
        assert after[bucket][|gens[bucket]|] == i;
      } else {
        assert InGens(gens, i);
        var b, k :| 0 <= b < |gens| && 0 <= k < |gens[b]| && gens[b][k] == i;
        assert after[b][k] == i;
      }
    }
  }

  lemma RotateKeepsRouted(cfg: Config, s: StoreState, bucket: int)
    requires ValidConfig(cfg) && Routed(cfg, s)
    ensures Routed(cfg, RotateBucket(cfg, s, bucket).state)
  {
    var t := RotateBucket(cfg, s, bucket).state;
    if t != s {
      RotatedEnumerates(s.gens, bucket, |s.shards|);
      assert Fronted(s, bucket);
      forall b: nat | b < cfg.buckets ensures Fronted(t, b) {
        assert Fronted(s, b);
      }
      forall i | 0 <= i < |t.shards| ensures SoundShard(cfg, t.shards[i]) && t.shards[i].phase != Sealing {
        if i < |s.shards| { assert SoundShard(cfg, s.shards[i]); }
      }
    }
  }

  lemma ArchiveKeepsRouted(cfg: Config, s: StoreState, bucket: int)
    requires Routed(cfg, s)
    ensures Routed(cfg, ArchiveBucket(s, bucket))
  {
    var t := ArchiveBucket(s, bucket);
    if t != s {
      forall i | 0 <= i < |t.shards| ensures SoundShard(cfg, t.shards[i]) && t.shards[i].phase != Sealing {
        assert SoundShard(cfg, s.shards[i]);
      }
      forall b: nat | b < cfg.buckets ensures Fronted(t, b) {
        assert Fronted(s, b);
      }
    }
  }

  lemma ReplayRecordKeepsRouted(cfg: Config, s: StoreState, r: Record)
    requires Routed(cfg, s)
    ensures Routed(cfg, ReplayRecord(cfg, s, r).state)
  {
    if r.op == "vertex" {
      LayoutKeepsRouted(cfg, s, ReplayRecord(cfg, s, r).state);
    } else if r.op == "edge" {
      PlaceKeepsRouted(cfg, s, RecordedEdge(r), Target(s, Bucket(cfg, RecordedEdge(r).Key())));
    } else if r.op == "edge-delete" {
      EvictKeepsRouted(cfg, s, r.id);
    } else if r.op == "vertex-delete" {
      ReplayCleanupKeepsRouted(cfg, s, Incident(s, r.id));
      var cleaned := ReplayCleanup(s, Incident(s, r.id)).state;
      LayoutKeepsRouted(cfg, cleaned, DropVertex(cleaned, r.id));
    }
  }

  lemma {:induction false} ReplayIsRouted(cfg: Config, log: seq<Record>)
    requires ValidConfig(cfg)
    ensures Routed(cfg, Replay(cfg, log).state)
  {
    if |log| == 0 {
      FreshIsRouted(cfg);
    } else {
      ReplayIsRouted(cfg, log[..|log| - 1]);
      ReplayRecordKeepsRouted(cfg, Replay(cfg, log[..|log| - 1]).state, log[|log| - 1]);
    }
  }

  lemma PutEdgeKeepsRouted(cfg: Config, s: StoreState, e: Edge)
    requires ValidConfig(cfg) && Routed(cfg, s)
    ensures Routed(cfg, PutEdge(cfg, s, e).state)
  {
    PlaceKeepsRouted(cfg, s, e, Target(s, Bucket(cfg, e.Key())));
    if PutEdge(cfg, s, e).error.None? {
      LayoutKeepsRouted(cfg, Place(s, e, Target(s, Bucket(cfg, e.Key()))).state, PutEdge(cfg, s, e).state);
    }
  }

  lemma DeleteEdgeKeepsRouted(cfg: Config, s: StoreState, id: string)
    requires Routed(cfg, s)
    ensures Routed(cfg, DeleteEdge(cfg, s, id).state)
  {
    EvictKeepsRouted(cfg, s, id);
    if DeleteEdge(cfg, s, id).error.None? {
      LayoutKeepsRouted(cfg, Evict(s, id).state, DeleteEdge(cfg, s, id).state);
    }
  }

  lemma DeleteVertexKeepsRouted(cfg: Config, s: StoreState, v: string)
    requires Routed(cfg, s)
    ensures Routed(cfg, DeleteVertex(cfg, s, v).state)
  {
    CleanupKeepsRouted(cfg, s, Incident(s, v));
    if DeleteVertex(cfg, s, v).error.None? {
      LayoutKeepsRouted(cfg, Cleanup(s, Incident(s, v)).state, DeleteVertex(cfg, s, v).state);
    }
  }

  lemma ReopenKeepsRouted(cfg: Config, s: StoreState)
    requires ValidConfig(cfg) && Routed(cfg, s)
    ensures Routed(cfg, Reopen(cfg, s).state)
  {
    ReplayIsRouted(cfg, s.log);
    if Reopen(cfg, s).error.None? {
      LayoutKeepsRouted(cfg, Replay(cfg, s.log).state, Reopen(cfg, s).state);
    } else {
      LayoutKeepsRouted(cfg, s, Reopen(cfg, s).state);
    }
  }

  lemma StepKeepsRouted(cfg: Config, s: StoreState, op: Op)
    requires ValidConfig(cfg) && Routed(cfg, s)
    ensures Routed(cfg, Step(cfg, s, op).state)
  {
    match op
    case PutEdgeOp(e) => PutEdgeKeepsRouted(cfg, s, e);
    case PutEdgeToBucketOp(e, b) => PlaceKeepsRouted(cfg, s, e, Target(s, b));
    case DeleteEdgeOp(id) => DeleteEdgeKeepsRouted(cfg, s, id);
    case DeleteVertexOp(v) => DeleteVertexKeepsRouted(cfg, s, v);
    case RotateBucketOp(b) => RotateKeepsRouted(cfg, s, b);
    case ArchiveBucketOp(b) => ArchiveKeepsRouted(cfg, s, b);
    case ReopenOp => ReopenKeepsRouted(cfg, s);
    case _ => LayoutKeepsRouted(cfg, s, Step(cfg, s, op).state);
  }

  /** Whatever is done to the store, in any order and with any outcome, routing stays intact. */
  lemma {:induction false} RunKeepsRouted(cfg: Config, ops: seq<Op>)
    requires ValidConfig(cfg)
    ensures Routed(cfg, Run(cfg, FreshState(cfg), ops))
  {
    if |ops| == 0 {
      FreshIsRouted(cfg);
    } else {
      RunKeepsRouted(cfg, ops[..|ops| - 1]);
      StepKeepsRouted(cfg, Run(cfg, FreshState(cfg), ops[..|ops| - 1]), ops[|ops| - 1]);
    }
  }
}
