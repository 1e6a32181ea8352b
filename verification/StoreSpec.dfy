/** The attribute index as a relation: (entry, id) pairs, plus the edge ids it counts
    (internal/index/index.go). */
module IndexSpec {
  import opened GraphModel

  const VERTEX_PREFIX := "vertex:"

  function AttrEntry(key: string, value: string): string {
    key + "=" + value
  }

  datatype IndexState = IndexState(pairs: set<(string, string)>, counted: set<string>)

  const EMPTY_INDEX := IndexState({}, {})

  function Entries(prefix: string, attrs: map<string, string>): set<string> {
    set k | k in attrs :: AttrEntry(prefix + k, attrs[k])
  }

  function Tagged(entries: set<string>, id: string): set<(string, string)> {
    set x | x in entries :: (x, id)
  }

  function EdgePairs(e: Edge): set<(string, string)> {
    Tagged(Entries("", e.attrs), e.id)
  }

  function VertexPairs(v: Vertex): set<(string, string)> {
    Tagged(Entries(VERTEX_PREFIX, v.attrs), v.id)
  }

  function PairsOf(pairs: set<(string, string)>, id: string): set<(string, string)> {
    set p | p in pairs && p.1 == id
  }

  function IndexEdge(ix: IndexState, e: Edge): IndexState {
    IndexState(ix.pairs + EdgePairs(e), ix.counted + {e.id})
  }

  function IndexVertex(ix: IndexState, v: Vertex): IndexState {
    ix.(pairs := ix.pairs + VertexPairs(v))
  }

  /** An edge that has no entry is reported, not skipped. */
  function UnindexEdge(ix: IndexState, id: string): Result<IndexState> {
    if PairsOf(ix.pairs, id) == {} then Err(EntryMissing)
    else Ok(IndexState(ix.pairs - PairsOf(ix.pairs, id), ix.counted - {id}))
  }

  function UnindexVertex(ix: IndexState, id: string): IndexState {
    ix.(pairs := ix.pairs - PairsOf(ix.pairs, id))
  }

  function IdsUnder(ix: IndexState, entry: string): set<string> {
    set p | p in ix.pairs && p.0 == entry :: p.1
  }
}

/** The label index: per label, the entry vertices in insertion order (internal/label/index.go). */
module LabelSpec {
  import opened GraphModel
  import opened Text

  type Labels = map<string, seq<string>>

  const DEFAULT_LABEL_CAP := 4096
  const MAX_LABEL_BYTES := 64

  function Entered(entries: Labels, tag: string): seq<string> {
    if tag in entries then entries[tag] else []
  }

  predicate ValidLabel(tag: string) {
    !Blank(tag) && Utf8Length(tag) <= MAX_LABEL_BYTES
  }

  function AddLabel(entries: Labels, cap: nat, tag: string, id: string): Result<Labels> {
    if !ValidLabel(tag) || Blank(id) then Err(InvalidLabel)
    else if id in Entered(entries, tag) then Ok(entries)
    else if |Entered(entries, tag)| >= cap then Err(IndexFull)
    else Ok(entries[tag := Entered(entries, tag) + [id]])
  }

  function IndexOf(ids: seq<string>, id: string): (k: nat)
    requires id in ids
    ensures k < |ids| && ids[k] == id && id !in ids[..k]
  {
    if ids[0] == id then 0 else 1 + IndexOf(ids[1..], id)
  }

  /** Drops the first registration of the vertex; a label left without entries disappears. */
  function RemoveLabel(entries: Labels, tag: string, id: string): Labels {
    var ids := Entered(entries, tag);
    if id !in ids then entries
    else
      var k := IndexOf(ids, id);
      var rest := ids[..k] + ids[k + 1..];
      if rest == [] then entries - {tag} else entries[tag := rest]
  }

  /** One rebuild pass over the vertices into an empty index. */
  function BuildLabels(vertices: seq<Vertex>, cap: nat): Result<Labels> {
    if |vertices| == 0 then Ok(map[])
    else
      var v := vertices[|vertices| - 1];
      match BuildLabels(vertices[..|vertices| - 1], cap)
      case Err(error) => Err(error)
      case Ok(entries) => if v.tag == "" then Ok(entries) else AddLabel(entries, cap, v.tag, v.id)
  }
}

/** The whole store as a value, and every public operation as a function on it (internal/store,
    internal/shard/manager.go, internal/shard/route.go). A shard's id is its position in `shards`,
    because ids are handed out in creation order. */
module StoreSpec {
  import opened Seqs
  import opened GraphModel
  import opened ShardSpec
  import opened IndexSpec
  import opened LabelSpec

  datatype Options = Options(edgeBuckets: int, shardCapacity: int, labelCap: int, enableWal: bool)

  datatype Config = Config(buckets: nat, capacity: nat, labelCap: nat, logged: bool, hash: string -> nat)

  /** Options below one fall back to the defaults. `hash` stands for xxhash. */
  function Normalize(o: Options, hash: string -> nat): Config {
    Config(if o.edgeBuckets <= 0 then 4 else o.edgeBuckets,
           if o.shardCapacity <= 0 then DEFAULT_CAPACITY else o.shardCapacity,
           if o.labelCap <= 0 then DEFAULT_LABEL_CAP else o.labelCap,
           o.enableWal, hash)
  }

  ghost predicate ValidConfig(cfg: Config) {
    cfg.buckets > 0 && cfg.capacity > 0 && cfg.labelCap > 0
  }

  datatype StoreState = StoreState(
    shards: seq<ShardState>,      // every generation ever created, by id
    gens: seq<seq<nat>>,          // per bucket, its generations, oldest first
    active: seq<nat>,             // per bucket, the position in gens that takes writes
    route: seq<nat>,              // per bucket, the shard id the router points at
    vertices: map<string, Vertex>,
    vertexSeq: seq<string>,
    index: IndexState,
    labels: Labels,
    log: seq<Record>,
    closed: bool)

  datatype Outcome = Outcome(state: StoreState, error: Option<Error>)

  function Bucket(cfg: Config, key: string): nat {
    if cfg.buckets <= 1 then 0 else cfg.hash(key) % cfg.buckets
  }

  function FreshState(cfg: Config): StoreState {
    StoreState(
      seq(cfg.buckets, b => Empty(cfg.capacity)),
      seq(cfg.buckets, b => [b]),
      seq(cfg.buckets, b => 0),
      seq(cfg.buckets, b => b),
      map[], [], EMPTY_INDEX, map[], [], false)
  }

  // Routing.

  function Target(s: StoreState, bucket: int): Option<nat> {
    if 0 <= bucket < |s.route| && s.route[bucket] < |s.shards| then Some(s.route[bucket]) else None
  }

  function Order(s: StoreState): seq<nat> {
    Flatten(s.gens)
  }

  /** The first generation, in bucket order, that holds the edge. */
  function Locate(order: seq<nat>, shards: seq<ShardState>, id: string): (r: Option<nat>)
    ensures r.Some? ==> r.value < |shards| && r.value in order && HasId(shards[r.value].live, id)
    ensures r.None? ==> forall i :: i in order && i < |shards| ==> !HasId(shards[i].live, id)
  {
    if order == [] then None
    else if order[0] < |shards| && HasId(shards[order[0]].live, id) then Some(order[0])
    else Locate(order[1..], shards, id)
  }

  /** The edges of the listed generations, one after the other. */
  function LiveIn(order: seq<nat>, shards: seq<ShardState>): seq<Edge> {
    if |order| == 0 then []
    else
      var i := order[|order| - 1];
      LiveIn(order[..|order| - 1], shards) + (if i < |shards| then shards[i].live else [])
  }

  ghost function EdgeSet(shards: seq<ShardState>): set<Edge> {
    set i, e | 0 <= i < |shards| && e in shards[i].live :: e
  }

  // Writes.

  function Logging(cfg: Config, s: StoreState, r: Record): seq<Record> {
    if cfg.logged then s.log + [r] else s.log
  }

  function PutVertex(cfg: Config, s: StoreState, v: Vertex): Outcome {
    if s.closed then Outcome(s, Some(StoreClosed))
    else if v.id == "" then Outcome(s, Some(MissingId))
    else if v.id in s.vertices then Outcome(s, Some(VertexExists))
    else Outcome(s.(vertices := s.vertices[v.id := v], vertexSeq := s.vertexSeq + [v.id],
                    index := IndexVertex(s.index, v), log := Logging(cfg, s, VertexRecord(v))), None)
  }

  /** Adds the edge to the routed shard and to the index; does not log. */
  function Place(s: StoreState, e: Edge, target: Option<nat>): Outcome {
    if target.None? || target.value >= |s.shards| then Outcome(s, Some(NoTarget))
    else
      match AddEdge(s.shards[target.value], e)
      case Err(error) => Outcome(s, Some(error))
      case Ok(shard) => Outcome(s.(shards := s.shards[target.value := shard], index := IndexEdge(s.index, e)), None)
  }

  function PutEdge(cfg: Config, s: StoreState, e: Edge): Outcome {
    if s.closed then Outcome(s, Some(StoreClosed))
    else if e.id == "" then Outcome(s, Some(MissingId))
    else if e.from !in s.vertices || e.to !in s.vertices then Outcome(s, Some(VertexNotFound))
    else
      var placed := Place(s, e, Target(s, Bucket(cfg, e.Key())));
      if placed.error.Some? then placed
      else Outcome(placed.state.(log := Logging(cfg, s, EdgeRecord(e))), None)
  }

  function PutEdgeToBucket(cfg: Config, s: StoreState, e: Edge, bucket: int): Outcome {
    if s.closed then Outcome(s, Some(StoreClosed))
    else if bucket < 0 || bucket >= cfg.buckets then Outcome(s, Some(BucketOutOfRange))
    else Place(s, e, Target(s, bucket))
  }

  // Deletes.

  /** Takes one edge out of its shard and then out of the index. When the index has no entry for
      it, the error comes after the shard has already dropped the edge. */
  function Evict(s: StoreState, id: string): Outcome {
    match Locate(Order(s), s.shards, id)
    case None => Outcome(s, Some(EdgeNotFound))
    case Some(i) =>
      match RemoveEdge(s.shards[i], id)
      case Err(error) => Outcome(s, Some(error))
      case Ok(shard) =>
        var dropped := s.(shards := s.shards[i := shard]);
        match UnindexEdge(s.index, id)
        case Err(error) => Outcome(dropped, Some(error))
        case Ok(index) => Outcome(dropped.(index := index), None)
  }

  function DeleteEdge(cfg: Config, s: StoreState, id: string): Outcome {
    if s.closed then Outcome(s, Some(StoreClosed))
    else
      var evicted := Evict(s, id);
      if evicted.error.Some? then evicted
      else Outcome(evicted.state.(log := Logging(cfg, s, EdgeDeleteRecord(id))), None)
  }

  /** Outgoing then incoming edges of the vertex, generation by generation. */
  function TouchingIn(order: seq<nat>, shards: seq<ShardState>, v: string): seq<Edge> {
    if |order| == 0 then []
    else
      var i := order[|order| - 1];
      TouchingIn(order[..|order| - 1], shards, v)
      + (if i < |shards| then Filter(shards[i].live, FromIs(v)) + Filter(shards[i].live, ToIs(v)) else [])
  }

  /** Keeps the first edge of each id. */
  function FirstById(es: seq<Edge>): seq<Edge> {
    if |es| == 0 then []
    else
      var init, e := es[..|es| - 1], es[|es| - 1];
      FirstById(init) + (if HasId(init, e.id) then [] else [e])
  }

  function Incident(s: StoreState, v: string): seq<Edge> {
    FirstById(TouchingIn(Order(s), s.shards, v))
  }

  /** Evicts the edges one by one and stops at the first failure, keeping what was done so far. */
  function Cleanup(s: StoreState, es: seq<Edge>): Outcome
    decreases |es|
  {
    if |es| == 0 then Outcome(s, None)
    else
      var evicted := Evict(s, es[0].id);
      if evicted.error.Some? then evicted else Cleanup(evicted.state, es[1..])
  }

  function DropVertex(s: StoreState, v: string): StoreState {
    s.(vertices := s.vertices - {v}, vertexSeq := Filter(s.vertexSeq, IsNot(v)), index := UnindexVertex(s.index, v))
  }

  function DeleteVertex(cfg: Config, s: StoreState, v: string): Outcome {
    if s.closed then Outcome(s, Some(StoreClosed))
    else if v !in s.vertices then Outcome(s, Some(VertexNotFound))
    else
      var tag := s.vertices[v].tag;
      var cleaned := Cleanup(s, Incident(s, v));
      if cleaned.error.Some? then cleaned
      else Outcome(FinishDelete(cfg, cleaned.state, tag, v), None)
  }

  /** What is left to do once the incident edges are gone. */
  function FinishDelete(cfg: Config, s: StoreState, tag: string, v: string): StoreState {
    var d := DropVertex(s, v);
    d.(labels := if tag != "" then RemoveLabel(d.labels, tag, v) else d.labels,
       log := Logging(cfg, d, VertexDeleteRecord(v)))
  }

  // Generations.

  function RotateBucket(cfg: Config, s: StoreState, bucket: int): Outcome {
    if bucket < 0 || bucket >= cfg.buckets then Outcome(s, Some(BucketOutOfRange))
    else if s.closed then Outcome(s, Some(StoreClosed))
    else if Target(s, bucket).None? || bucket >= |s.gens| || bucket >= |s.active| then Outcome(s, Some(NoTarget))
    else
      var id := |s.shards|;
      Outcome(s.(shards := SealActive(s, bucket) + [Empty(cfg.capacity)],
                 gens := s.gens[bucket := s.gens[bucket] + [id]],
                 active := s.active[bucket := |s.gens[bucket]|],
                 route := s.route[bucket := id]), None)
  }

  function SealActive(s: StoreState, bucket: nat): (r: seq<ShardState>)
    requires bucket < |s.gens| && bucket < |s.active|
    ensures |r| == |s.shards|
  {
    if s.active[bucket] < |s.gens[bucket]| && s.gens[bucket][s.active[bucket]] < |s.shards|
    then
      var i := s.gens[bucket][s.active[bucket]];
      s.shards[i := Seal(s.shards[i])]
    else s.shards
  }

  function ArchiveBucket(s: StoreState, bucket: int): StoreState {
    if 0 <= bucket < |s.gens| && bucket < |s.active| then
      s.(shards := seq(|s.shards|, i requires 0 <= i < |s.shards| =>
        if Retired(s, bucket, i) then Archive(s.shards[i]) else s.shards[i]))
    else s
  }

  predicate Retired(s: StoreState, bucket: nat, i: nat)
    requires bucket < |s.gens| && bucket < |s.active|
  {
    exists k :: 0 <= k < |s.gens[bucket]| && k != s.active[bucket] && s.gens[bucket][k] == i
  }

  // Label rebuild.

  /** The stored vertices in insertion order. */
  function AllVertices(vertices: map<string, Vertex>, vertexSeq: seq<string>): seq<Vertex> {
    if |vertexSeq| == 0 then []
    else
      var id := vertexSeq[|vertexSeq| - 1];
      AllVertices(vertices, vertexSeq[..|vertexSeq| - 1]) + (if id in vertices then [vertices[id]] else [])
  }

  /** A rebuild publishes a complete pass or nothing. */
  function Rebuild(cfg: Config, s: StoreState, cancelled: bool): Outcome {
    if cancelled then Outcome(s, Some(Error.Cancelled))
    else
      match BuildLabels(AllVertices(s.vertices, s.vertexSeq), cfg.labelCap)
      case Err(error) => Outcome(s, Some(error))
      case Ok(entries) => Outcome(s.(labels := entries), None)
  }

  // Recovery.

  /** Missing edges and missing index entries are tolerated while replaying. */
  function ReplayEvict(s: StoreState, id: string): Outcome {
    match Locate(Order(s), s.shards, id)
    case None => Outcome(s, None)
    case Some(i) =>
      match RemoveEdge(s.shards[i], id)
      case Err(error) => Outcome(s, Some(error))
      case Ok(shard) =>
        var dropped := s.(shards := s.shards[i := shard]);
        match UnindexEdge(s.index, id)
        case Err(_) => Outcome(dropped, None)
        case Ok(index) => Outcome(dropped.(index := index), None)
  }

  function ReplayCleanup(s: StoreState, es: seq<Edge>): Outcome
    decreases |es|
  {
    if |es| == 0 then Outcome(s, None)
    else
      var evicted := ReplayEvict(s, es[0].id);
      if evicted.error.Some? then evicted else ReplayCleanup(evicted.state, es[1..])
  }

  function ReplayRecord(cfg: Config, s: StoreState, r: Record): Outcome {
    if r.op == "vertex" then
      Outcome(s.(vertices := s.vertices[r.id := RecordedVertex(r)], vertexSeq := s.vertexSeq + [r.id],
                 index := IndexVertex(s.index, RecordedVertex(r))), None)
    else if r.op == "edge" then Place(s, RecordedEdge(r), Target(s, Bucket(cfg, RecordedEdge(r).Key())))
    else if r.op == "edge-delete" then ReplayEvict(s, r.id)
    else if r.op == "vertex-delete" then
      var cleaned := ReplayCleanup(s, Incident(s, r.id));
      if cleaned.error.Some? then cleaned else Outcome(DropVertex(cleaned.state, r.id), None)
    else Outcome(s, Some(UnknownRecord))
  }

  /** Replays the whole log into a fresh store and stops at the first failing record. */
  function Replay(cfg: Config, log: seq<Record>): Outcome {
    if |log| == 0 then Outcome(FreshState(cfg), None)
    else
      var before := Replay(cfg, log[..|log| - 1]);
      if before.error.Some? then before else ReplayRecord(cfg, before.state, log[|log| - 1])
  }

  lemma ReplaySnoc(cfg: Config, log: seq<Record>, r: Record)
    requires Replay(cfg, log).error.None?
    ensures Replay(cfg, log + [r]) == ReplayRecord(cfg, Replay(cfg, log).state, r)
  {
    assert (log + [r])[..|log|] == log;
  }

  /** Closes the store and opens a new one with the same options over the same log directory. */
  function Reopen(cfg: Config, s: StoreState): Outcome {
    var replayed := Replay(cfg, s.log);
    if replayed.error.Some? then Outcome(s.(closed := true), replayed.error)
    else Outcome(replayed.state.(log := s.log), None)
  }

  // Runs.

  datatype Op =
    | PutVertexOp(v: Vertex) | PutEdgeOp(e: Edge) | PutEdgeToBucketOp(e: Edge, bucket: int)
    | DeleteEdgeOp(id: string) | DeleteVertexOp(id: string)
    | RotateBucketOp(bucket: int) | ArchiveBucketOp(bucket: int)
    | RebuildOp(cancelled: bool) | CloseOp | ReopenOp

  function Step(cfg: Config, s: StoreState, op: Op): Outcome {
    match op
    case PutVertexOp(v) => PutVertex(cfg, s, v)
    case PutEdgeOp(e) => PutEdge(cfg, s, e)
    case PutEdgeToBucketOp(e, b) => PutEdgeToBucket(cfg, s, e, b)
    case DeleteEdgeOp(id) => DeleteEdge(cfg, s, id)
    case DeleteVertexOp(id) => DeleteVertex(cfg, s, id)
    case RotateBucketOp(b) => RotateBucket(cfg, s, b)
    case ArchiveBucketOp(b) => Outcome(ArchiveBucket(s, b), None)
    case RebuildOp(cancelled) => Rebuild(cfg, s, cancelled)
    case CloseOp => Outcome(s.(closed := true), None)
    case ReopenOp => Reopen(cfg, s)
  }

  function Run(cfg: Config, s: StoreState, ops: seq<Op>): StoreState {
    if |ops| == 0 then s
    else Step(cfg, Run(cfg, s, ops[..|ops| - 1]), ops[|ops| - 1]).state
  }
}
