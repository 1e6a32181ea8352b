/** Attribute lookups against a scan of the graph, in every reachable state. */
module Lookup {
  import opened Seqs
  import opened GraphModel
  import opened IndexSpec
  import opened StoreSpec
  import opened FlatGraph
  import opened Queries
  import opened Integrity
  import opened Journal
  import opened Runs
  import opened Scenarios

  /** The ids of the live edges that carry the attribute. */
  ghost function Scan(es: set<Edge>, key: string, value: string): set<string> {
    set e | e in es && key in e.attrs && e.attrs[key] == value :: e.id
  }

  /** Keys that cannot be confused with the separator or with the reserved vertex namespace. */
  predicate PlainKey(key: string) {
    '=' !in key && !(VERTEX_PREFIX <= key)
  }

  ghost predicate PlainKeys(es: set<Edge>, vs: map<string, Vertex>) {
    && (forall e, k :: e in es && k in e.attrs ==> PlainKey(k))
    && (forall id, k :: id in vs && k in vs[id].attrs ==> '=' !in k)
  }

  /** With no separator in the keys, an entry determines its key and value. */
  lemma {:induction false} AttrEntryInjective(k1: string, v1: string, k2: string, v2: string)
    requires '=' !in k1 && '=' !in k2 && AttrEntry(k1, v1) == AttrEntry(k2, v2)
    ensures k1 == k2 && v1 == v2
  {
    var x := AttrEntry(k1, v1);
    assert x[|k1|] == '=' && x[|k2|] == '=';
    assert k1 == x[..|k1|] && v1 == x[|k1| + 1..];
    assert k2 == AttrEntry(k2, v2)[..|k2|] && v2 == AttrEntry(k2, v2)[|k2| + 1..];
  }

  lemma SplitAt(text: string, c: char) returns (front: string, back: string)
    requires c in text
    ensures text == front + [c] + back
  {
    var i :| 0 <= i < |text| && text[i] == c;
    front, back := text[..i], text[i + 1..];
  }

  /** With the separator in the key or in the value, another key spells the same entry. */
  lemma AttrEntryCollides(key: string, value: string) returns (k: string, a: string)
    requires '=' in key || '=' in value
    ensures AttrEntry(k, a) == AttrEntry(key, value) && k != key
  {
    if '=' in key {
      var front, back := SplitAt(key, '=');
      k, a := front, back + "=" + value;
      assert AttrEntry(k, a) == front + ['='] + back + "=" + value;
    } else {
      var front, back := SplitAt(value, '=');
      k, a := key + "=" + front, back;
      assert AttrEntry(key, value) == key + "=" + front + ['='] + back;
    }
  }

  /** Without any assumption on keys: an entry lists the live edges and the stored vertices that have
      some attribute spelling that entry. */
  lemma EntryLists(cfg: Config, s: StoreState, entry: string)
    requires Kept(cfg, s)
    ensures IdsUnder(s.index, entry)
         == (set e | e in EdgeSet(s.shards) && entry in Entries("", e.attrs) :: e.id)
            + (set id | id in s.vertices && entry in Entries(VERTEX_PREFIX, s.vertices[id].attrs))
  {
    var pairs := s.index.pairs;
    forall e | e in EdgeSet(s.shards) && entry in Entries("", e.attrs) ensures e.id in IdsUnder(s.index, entry) {
      assert (entry, e.id) in pairs;
    }
    forall id | id in s.vertices && entry in Entries(VERTEX_PREFIX, s.vertices[id].attrs)
      ensures id in IdsUnder(s.index, entry)
    {
      assert (entry, id) in pairs;
    }
  }

  /** Hence a lookup equals a scan exactly when nothing else spells the same entry. */
  lemma LookupEqualsScanExactlyWhen(cfg: Config, s: StoreState, key: string, value: string)
    requires Kept(cfg, s)
    ensures IdsUnder(s.index, AttrEntry(key, value)) == Scan(EdgeSet(s.shards), key, value)
        <==> (forall e :: e in EdgeSet(s.shards) && AttrEntry(key, value) in Entries("", e.attrs) ==>
                key in e.attrs && e.attrs[key] == value)
             && (forall id :: id in s.vertices ==>
                                AttrEntry(key, value) !in Entries(VERTEX_PREFIX, s.vertices[id].attrs))
  {
    var entry := AttrEntry(key, value);
    EntryLists(cfg, s, entry);
    SameIdSameEdges(s.shards);
    assert "" + key == key;
    forall e | e in EdgeSet(s.shards) && key in e.attrs && e.attrs[key] == value ensures entry in Entries("", e.attrs) {
      assert AttrEntry("" + key, e.attrs[key]) in Entries("", e.attrs);
    }
    if IdsUnder(s.index, entry) == Scan(EdgeSet(s.shards), key, value) {
      forall e | e in EdgeSet(s.shards) && entry in Entries("", e.attrs)
        ensures key in e.attrs && e.attrs[key] == value
      {
        assert e.id in Scan(EdgeSet(s.shards), key, value);
      }
      forall id | id in s.vertices ensures entry !in Entries(VERTEX_PREFIX, s.vertices[id].attrs) {
        assert id !in Scan(EdgeSet(s.shards), key, value);
      }
    }
  }

  lemma EdgeEntry(e: Edge, key: string, value: string)
    requires '=' !in key && forall k :: k in e.attrs ==> PlainKey(k)
    ensures AttrEntry(key, value) in Entries("", e.attrs) <==> key in e.attrs && e.attrs[key] == value
  {
    assert "" + key == key;
    if AttrEntry(key, value) in Entries("", e.attrs) {
      var k :| k in e.attrs && AttrEntry("" + k, e.attrs[k]) == AttrEntry(key, value);
      assert "" + k == k;
      AttrEntryInjective(k, e.attrs[k], key, value);
    }
    if key in e.attrs && e.attrs[key] == value {
      assert AttrEntry("" + key, e.attrs[key]) in Entries("", e.attrs);
    }
  }

  lemma VertexEntry(v: Vertex, key: string, value: string)
    requires PlainKey(key) && forall k :: k in v.attrs ==> '=' !in k
    ensures AttrEntry(key, value) !in Entries(VERTEX_PREFIX, v.attrs)
  {
    if AttrEntry(key, value) in Entries(VERTEX_PREFIX, v.attrs) {
      var k :| k in v.attrs && AttrEntry(VERTEX_PREFIX + k, v.attrs[k]) == AttrEntry(key, value);
      assert forall c :: c in VERTEX_PREFIX ==> c != '=';
      AttrEntryInjective(VERTEX_PREFIX + k, v.attrs[k], key, value);
      assert false;
    }
  }

  /** With plain keys the index entry of an attribute lists exactly what a scan finds. */
  lemma LookupEqualsScan(cfg: Config, s: StoreState, key: string, value: string)
    requires Kept(cfg, s) && PlainKeys(EdgeSet(s.shards), s.vertices) && PlainKey(key)
    ensures IdsUnder(s.index, AttrEntry(key, value)) == Scan(EdgeSet(s.shards), key, value)
  {
    EntryLists(cfg, s, AttrEntry(key, value));
    forall e | e in EdgeSet(s.shards)
      ensures AttrEntry(key, value) in Entries("", e.attrs) <==> key in e.attrs && e.attrs[key] == value
    {
      EdgeEntry(e, key, value);
    }
    forall id | id in s.vertices ensures AttrEntry(key, value) !in Entries(VERTEX_PREFIX, s.vertices[id].attrs) {
      VertexEntry(s.vertices[id], key, value);
    }
  }

  // Queries that no stored attribute can confuse.

  /** What a caller can see of the query: no separator, and no reserved namespace. */
  predicate PlainQuery(key: string, value: string) {
    '=' !in key && '=' !in value && !(VERTEX_PREFIX <= key)
  }

  ghost predicate LookupScans(s: StoreState, key: string, value: string) {
    IdsUnder(s.index, AttrEntry(key, value)) == Scan(EdgeSet(s.shards), key, value)
  }

  lemma OnlySeparator(key: string, value: string, i: nat)
    requires '=' !in key && '=' !in value && i < |AttrEntry(key, value)|
    ensures AttrEntry(key, value)[i] == '=' <==> i == |key|
  {
    var x := AttrEntry(key, value);
    if i < |key| {
      assert x[i] == key[i] && key[i] in key;
    } else if i > |key| {
      assert x[i] == value[i - |key| - 1] && value[i - |key| - 1] in value;
    }
  }

  /** An entry with a single separator is spelt by one key only, whatever is stored. */
  lemma PlainEntry(key: string, value: string, k: string, a: string)
    requires PlainQuery(key, value) && AttrEntry(k, a) == AttrEntry(key, value)
    ensures k == key && a == value && !(VERTEX_PREFIX <= k)
  {
    var x := AttrEntry(key, value);
    assert AttrEntry(k, a)[|k|] == '=';
    OnlySeparator(key, value, |k|);
    assert k == AttrEntry(k, a)[..|k|] && key == x[..|key|];
    assert a == AttrEntry(k, a)[|k| + 1..] && value == x[|key| + 1..];
  }

  lemma PlainQueryScans(cfg: Config, s: StoreState, key: string, value: string)
    requires Kept(cfg, s) && PlainQuery(key, value)
    ensures LookupScans(s, key, value)
  {
    var entry := AttrEntry(key, value);
    LookupEqualsScanExactlyWhen(cfg, s, key, value);
    forall e | e in EdgeSet(s.shards) && entry in Entries("", e.attrs) ensures key in e.attrs && e.attrs[key] == value {
      var k :| k in e.attrs && AttrEntry("" + k, e.attrs[k]) == entry;
      assert "" + k == k;
      PlainEntry(key, value, k, e.attrs[k]);
    }
    forall id | id in s.vertices ensures entry !in Entries(VERTEX_PREFIX, s.vertices[id].attrs) {
      forall k | k in s.vertices[id].attrs ensures AttrEntry(VERTEX_PREFIX + k, s.vertices[id].attrs[k]) != entry {
        if AttrEntry(VERTEX_PREFIX + k, s.vertices[id].attrs[k]) == entry {
          PlainEntry(key, value, VERTEX_PREFIX + k, s.vertices[id].attrs[k]);
        }
      }
    }
  }

  // Queries that some stored attribute confuses.

  ghost function OneVertex(attrs: map<string, string>): seq<Op> {
    [] + [PutVertexOp(Vertex("v", "", attrs))]
  }

  ghost function OneEdge(attrs: map<string, string>): Edge {
    Edge("e", "v", "v", "", attrs)
  }

  lemma OneVertexScene(cfg: Config, attrs: map<string, string>)
    requires ValidConfig(cfg)
    ensures Scene(cfg, OneVertex(attrs), Graph(map["v" := Vertex("v", "", attrs)], ["v"], {}))
    ensures Run(cfg, FreshState(cfg), OneVertex(attrs)).shards == FreshState(cfg).shards
  {
    EmptyScene(cfg);
    AddVertex(cfg, [], NOTHING, Vertex("v", "", attrs));
    assert Apply(NOTHING, VertexRecord(Vertex("v", "", attrs))) == Graph(map["v" := Vertex("v", "", attrs)], ["v"], {});
  }

  lemma OneEdgeScene(cfg: Config, attrs: map<string, string>)
    requires ValidConfig(cfg)
    ensures Scene(cfg, OneVertex(map[]) + [PutEdgeOp(OneEdge(attrs))],
                  Graph(map["v" := Vertex("v", "", map[])], ["v"], {OneEdge(attrs)}))
  {
    OneVertexScene(cfg, map[]);
    BucketInRange(cfg, OneEdge(attrs).Key());
    AddRouted(cfg, OneVertex(map[]), Graph(map["v" := Vertex("v", "", map[])], ["v"], {}), OneEdge(attrs));
  }

  lemma SpelledVertexIsListed(cfg: Config, s: StoreState, id: string, k: string)
    requires Kept(cfg, s) && id in s.vertices && k in s.vertices[id].attrs
    ensures id in IdsUnder(s.index, AttrEntry(VERTEX_PREFIX + k, s.vertices[id].attrs[k]))
  {
    var entry := AttrEntry(VERTEX_PREFIX + k, s.vertices[id].attrs[k]);
    assert entry in Entries(VERTEX_PREFIX, s.vertices[id].attrs);
    EntryLists(cfg, s, entry);
  }

  lemma SpelledEdgeIsListed(cfg: Config, s: StoreState, e: Edge, k: string)
    requires Kept(cfg, s) && e in EdgeSet(s.shards) && k in e.attrs
    ensures e.id in IdsUnder(s.index, AttrEntry(k, e.attrs[k]))
  {
    var entry := AttrEntry("" + k, e.attrs[k]);
    assert entry in Entries("", e.attrs);
    EntryLists(cfg, s, entry);
    assert "" + k == k;
  }

  lemma ForeignVertex(cfg: Config, key: string, value: string) returns (ops: seq<Op>)
    requires ValidConfig(cfg) && VERTEX_PREFIX <= key
    ensures AdmissibleRun(cfg, FreshState(cfg), ops)
    ensures var s := Run(cfg, FreshState(cfg), ops);
            "v" in IdsUnder(s.index, AttrEntry(key, value)) && Scan(EdgeSet(s.shards), key, value) == {}
  {
    var k := key[|VERTEX_PREFIX|..];
    ops := OneVertex(map[k := value]);
    OneVertexScene(cfg, map[k := value]);
    SceneIsKept(cfg, ops, Graph(map["v" := Vertex("v", "", map[k := value])], ["v"], {}));
    assert VERTEX_PREFIX + k == key;
    SpelledVertexIsListed(cfg, Run(cfg, FreshState(cfg), ops), "v", k);
  }

  lemma OneEdgeIsListed(cfg: Config, k: string, a: string) returns (ops: seq<Op>)
    requires ValidConfig(cfg)
    ensures AdmissibleRun(cfg, FreshState(cfg), ops)
    ensures var s := Run(cfg, FreshState(cfg), ops);
            EdgeSet(s.shards) == {OneEdge(map[k := a])} && "e" in IdsUnder(s.index, AttrEntry(k, a))
  {
    var e, g := OneEdge(map[k := a]), Graph(map["v" := Vertex("v", "", map[])], ["v"], {OneEdge(map[k := a])});
    ops := OneVertex(map[]) + [PutEdgeOp(e)];
    OneEdgeScene(cfg, map[k := a]);
    SceneIsKept(cfg, ops, g);
    var s := Run(cfg, FreshState(cfg), ops);
    assert GraphOf(s) == g;
    SpelledEdgeIsListed(cfg, s, e, k);
  }

  lemma ForeignEdge(cfg: Config, key: string, value: string) returns (ops: seq<Op>)
    requires ValidConfig(cfg) && ('=' in key || '=' in value)
    ensures AdmissibleRun(cfg, FreshState(cfg), ops)
    ensures var s := Run(cfg, FreshState(cfg), ops);
            "e" in IdsUnder(s.index, AttrEntry(key, value)) && Scan(EdgeSet(s.shards), key, value) == {}
  {
    var k, a := AttrEntryCollides(key, value);
    ops := OneEdgeIsListed(cfg, k, a);
  }

  /** A reachable store in which the lookup returns an id although no live edge has the attribute. */
  lemma ForeignLookup(cfg: Config, key: string, value: string) returns (ops: seq<Op>, id: string)
    requires ValidConfig(cfg) && !PlainQuery(key, value)
    ensures AdmissibleRun(cfg, FreshState(cfg), ops)
    ensures var s := Run(cfg, FreshState(cfg), ops);
            id in IdsUnder(s.index, AttrEntry(key, value)) && Scan(EdgeSet(s.shards), key, value) == {}
  {
    if VERTEX_PREFIX <= key {
      ops := ForeignVertex(cfg, key, value);
      id := "v";
    } else {
      ops := ForeignEdge(cfg, key, value);
      id := "e";
    }
  }

  /** A lookup equals a scan of the live edges in every reachable state exactly when its query is plain. */
  lemma LookupScansExactlyWhenPlain(cfg: Config, key: string, value: string)
    requires ValidConfig(cfg)
    ensures (forall ops :: AdmissibleRun(cfg, FreshState(cfg), ops) ==>
                             LookupScans(Run(cfg, FreshState(cfg), ops), key, value))
       <==> PlainQuery(key, value)
  {
    if PlainQuery(key, value) {
      forall ops | AdmissibleRun(cfg, FreshState(cfg), ops)
        ensures LookupScans(Run(cfg, FreshState(cfg), ops), key, value)
      {
        RunKeeps(cfg, ops);
        PlainQueryScans(cfg, Run(cfg, FreshState(cfg), ops), key, value);
      }
    } else {
      var ops, id := ForeignLookup(cfg, key, value);
      assert !LookupScans(Run(cfg, FreshState(cfg), ops), key, value);
    }
  }

  /** For any query with a plain key, plain stored keys are enough, in every reachable state, also after
      deletes that failed partway and after restarts. */
  lemma LookupEqualsScanAlways(cfg: Config, ops: seq<Op>, key: string, value: string)
    requires ValidConfig(cfg) && AdmissibleRun(cfg, FreshState(cfg), ops)
    requires var s := Run(cfg, FreshState(cfg), ops);
             PlainQuery(key, value) || (PlainKey(key) && PlainKeys(EdgeSet(s.shards), s.vertices))
    ensures LookupScans(Run(cfg, FreshState(cfg), ops), key, value)
  {
    RunKeeps(cfg, ops);
    if PlainQuery(key, value) {
      PlainQueryScans(cfg, Run(cfg, FreshState(cfg), ops), key, value);
    } else {
      LookupEqualsScan(cfg, Run(cfg, FreshState(cfg), ops), key, value);
    }
  }

  // The edge counter of the index.

  ghost function IdSet(es: set<Edge>): set<string> {
    set e | e in es :: e.id
  }

  /** The index counts exactly the live edges, all of which carry attributes. */
  ghost predicate Counted(s: StoreState) {
    && s.index.counted == IdSet(EdgeSet(s.shards))
    && (forall e :: e in EdgeSet(s.shards) ==> e.attrs != map[])
  }

  lemma EvictCounts(cfg: Config, s: StoreState, e: Edge)
    requires Kept(cfg, s) && Counted(s) && e in EdgeSet(s.shards)
    ensures Counted(Evict(s, e.id).state)
  {
    EvictKeeps(cfg, s, e);
    SameIdSameEdges(s.shards);
    EntriesMeanAttributes(s, e);
    if !Frozen(s, e.id) {
      assert Evict(s, e.id).state.index.counted == s.index.counted - {e.id};
      assert IdSet(WithoutId(EdgeSet(s.shards), e.id)) == IdSet(EdgeSet(s.shards)) - {e.id};
    }
  }

  lemma {:induction false} CleanupCounts(cfg: Config, s: StoreState, es: seq<Edge>)
    requires Kept(cfg, s) && Counted(s) && DistinctIds(es) && forall e :: e in es ==> e in EdgeSet(s.shards)
    ensures Counted(Cleanup(s, es).state)
    decreases |es|
  {
    if |es| > 0 {
      EvictKeeps(cfg, s, es[0]);
      EvictCounts(cfg, s, es[0]);
      if Evict(s, es[0].id).error.None? {
        RestSurvives(cfg, s, es);
        CleanupCounts(cfg, Evict(s, es[0].id).state, es[1..]);
      }
    }
  }

  ghost predicate WithAttributes(op: Op) {
    (op.PutEdgeOp? || op.PutEdgeToBucketOp?) ==> op.e.attrs != map[]
  }

  ghost predicate LogsAttributes(log: seq<Record>) {
    forall r :: r in log && r.op == "edge" ==> r.attrs != map[]
  }

  lemma PutCounts(s: StoreState, e: Edge, target: Option<nat>)
    requires Counted(s) && e.attrs != map[]
    ensures Counted(Place(s, e, target).state)
  {
    if Place(s, e, target).error.None? {
      PlaceEffect(s, e, target);
    }
  }

  lemma DeletesCount(cfg: Config, s: StoreState, op: Op)
    requires Kept(cfg, s) && Counted(s) && (op.DeleteEdgeOp? || op.DeleteVertexOp?)
    ensures Counted(Step(cfg, s, op).state)
  {
    match op
    case DeleteEdgeOp(id) =>
      FreeMeansAbsent(s.shards, id);
      if e :| e in EdgeSet(s.shards) && e.id == id { EvictCounts(cfg, s, e); } else { EvictEffect(cfg, s, id); }
    case DeleteVertexOp(v) =>
      IncidentMembers(cfg, s, v);
      CleanupCounts(cfg, s, Incident(s, v));
  }

  // Replay drops what a delete would have dropped.

  lemma {:induction false} ReplayCleanupAgrees(s: StoreState, es: seq<Edge>)
    requires Cleanup(s, es).error.None?
    ensures ReplayCleanup(s, es) == Cleanup(s, es)
    decreases |es|
  {
    if |es| > 0 {
      ReplayCleanupAgrees(Evict(s, es[0].id).state, es[1..]);
    }
  }

  lemma NothingIsStuck(cfg: Config, t: StoreState, e: Edge)
    requires Collapsed(cfg, t) && Counted(t) && e in EdgeSet(t.shards)
    ensures Removable(t, e)
  {
    CollapsedIsRoomy(cfg, t);
  }

  lemma ReplayEdgeDeleteCounts(cfg: Config, t: StoreState, id: string)
    requires Collapsed(cfg, t) && Kept(cfg, t) && Counted(t)
    ensures Counted(ReplayEvict(t, id).state)
  {
    FreeMeansAbsent(t.shards, id);
    if e :| e in EdgeSet(t.shards) && e.id == id {
      NothingIsStuck(cfg, t, e);
      EvictKeeps(cfg, t, e);
      EvictCounts(cfg, t, e);
    } else {
      EvictEffect(cfg, t, id);
    }
  }

  lemma ReplayVertexDeleteCounts(cfg: Config, t: StoreState, v: string)
    requires Collapsed(cfg, t) && Kept(cfg, t) && Counted(t)
    ensures Counted(ReplayCleanup(t, Incident(t, v)).state)
  {
    var incident := Incident(t, v);
    IncidentMembers(cfg, t, v);
    forall e | e in incident ensures Removable(t, e) {
      NothingIsStuck(cfg, t, e);
    }
    CleanupSucceedsWhen(cfg, t, incident);
    ReplayCleanupAgrees(t, incident);
    CleanupCounts(cfg, t, incident);
  }

  lemma {:induction false} ReplayCounts(cfg: Config, log: seq<Record>)
    requires ValidConfig(cfg) && WellFormed(log) && LogsAttributes(log) && Replay(cfg, log).error.None?
    ensures Counted(Replay(cfg, log).state)
  {
    if |log| == 0 {
      FreshIsKept(cfg);
    } else {
      var init, r := log[..|log| - 1], log[|log| - 1];
      var t := Replay(cfg, init).state;
      assert r in log;
      ReplayCounts(cfg, init);
      ReplayFollowsLog(cfg, init);
      if r.op == "edge" {
        PutCounts(t, RecordedEdge(r), Target(t, Bucket(cfg, RecordedEdge(r).Key())));
      } else if r.op == "edge-delete" {
        KeptWithoutLabels(cfg, t);
        ReplayEdgeDeleteCounts(cfg, t, r.id);
      } else if r.op == "vertex-delete" {
        KeptWithoutLabels(cfg, t);
        ReplayVertexDeleteCounts(cfg, t, r.id);
      }
    }
  }

  lemma StepCounts(cfg: Config, s: StoreState, op: Op)
    requires ValidConfig(cfg) && Kept(cfg, s) && Counted(s) && LogsAttributes(s.log) && WithAttributes(op)
    requires op == ReopenOp ==> WellFormed(s.log)
    ensures Counted(Step(cfg, s, op).state)
  {
    match op
    case PutEdgeOp(e) => PutCounts(s, e, Target(s, Bucket(cfg, e.Key())));
    case PutEdgeToBucketOp(e, b) => PutCounts(s, e, Target(s, b));
    case DeleteEdgeOp(_) => DeletesCount(cfg, s, op);
    case DeleteVertexOp(_) => DeletesCount(cfg, s, op);
    case RotateBucketOp(b) => GenerationsKeepEdges(cfg, s, b);
    case ArchiveBucketOp(b) => GenerationsKeepEdges(cfg, s, b);
    case ReopenOp => if Reopen(cfg, s).error.None? { ReplayCounts(cfg, s.log); }
    case _ =>
  }

  lemma StepLogsAttributes(cfg: Config, s: StoreState, op: Op)
    requires Kept(cfg, s) && LogsAttributes(s.log) && WithAttributes(op)
    ensures LogsAttributes(Step(cfg, s, op).state.log)
  {
    match op
    case DeleteEdgeOp(id) => DeleteEdgeEffect(cfg, s, id);
    case DeleteVertexOp(v) => var k := DeleteVertexEffect(cfg, s, v);
    case _ =>
  }

  ghost predicate AttributedRun(cfg: Config, s: StoreState, ops: seq<Op>) {
    AdmissibleRun(cfg, s, ops) && forall op :: op in ops ==> WithAttributes(op)
  }

  lemma {:induction false} RunCounts(cfg: Config, ops: seq<Op>)
    requires ValidConfig(cfg) && AttributedRun(cfg, FreshState(cfg), ops)
    ensures Counted(Run(cfg, FreshState(cfg), ops)) && LogsAttributes(Run(cfg, FreshState(cfg), ops).log)
  {
    if |ops| == 0 {
      FreshIsKept(cfg);
    } else {
      var init, op := ops[..|ops| - 1], ops[|ops| - 1];
      RunCounts(cfg, init);
      RunKeeps(cfg, init);
      StepCounts(cfg, Run(cfg, FreshState(cfg), init), op);
      StepLogsAttributes(cfg, Run(cfg, FreshState(cfg), init), op);
    }
  }

  /** When every edge carries an attribute, the index and the shards count the same edges. */
  lemma IndexCountsStoredEdges(cfg: Config, ops: seq<Op>)
    requires ValidConfig(cfg) && AttributedRun(cfg, FreshState(cfg), ops)
    ensures var s := Run(cfg, FreshState(cfg), ops); |s.index.counted| == EdgeCount(s)
  {
    var s := Run(cfg, FreshState(cfg), ops);
    RunCounts(cfg, ops);
    RunKeeps(cfg, ops);
    LiveIsGraph(cfg, s);
    DistinctNoDup(Live(s));
    NoDupCount(Ids(Live(s)));
    assert IdSet(EdgeSet(s.shards)) == set id | id in Ids(Live(s)) by {
      forall e | e in EdgeSet(s.shards) ensures e.id in Ids(Live(s)) {
        var k :| 0 <= k < |Live(s)| && Live(s)[k] == e;
        assert Ids(Live(s))[k] == e.id;
      }
    }
  }

  /** Deleting an edge without attributes drops it from its shard but leaves it counted. */
  lemma BareEdgeStaysCounted(cfg: Config, s: StoreState, e: Edge)
    requires Kept(cfg, s) && !s.closed && e in EdgeSet(s.shards) && e.attrs == map[] && !Frozen(s, e.id)
    ensures var o := DeleteEdge(cfg, s, e.id);
            o.error == Some(EntryMissing) && IdFree(o.state.shards, e.id) && e.id in o.state.index.counted
  {
    EvictKeeps(cfg, s, e);
    EntriesMeanAttributes(s, e);
    var i :| 0 <= i < |s.shards| && e in s.shards[i].live;
    assert HasId(s.shards[i].live, e.id);
    EvictEffect(cfg, s, e.id);
  }
}
