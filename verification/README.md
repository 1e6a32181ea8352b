# Sharded graph store and two-phase traversal

This project models a labelled graph store whose edges live in generations of shards, and the
traversal that walks over it, and proves what both promise.

**The store.** Vertices sit in one map with an insertion order. Edges are routed by the hash of
`from>type>to` to a bucket; each bucket has a list of shard generations, of which the last takes the
writes. Rotating a bucket seals its active generation and adds an empty one; archiving freezes the
older ones. An attribute index and a label index are derived from the graph, and a log of segments
records the writes so that a new instance can be opened over it, in one generation per bucket.

**The walk.** Phase 1 is a breadth-first search over the edges of the shard the start vertex hashes
to, marking vertices when they are queued and setting every other edge aside as a continuation. Phase
2 drains the continuations across all shards, marking vertices when they are taken off the queue, over
the same marks.

Each mutable object of the system is a class whose methods follow the code step by step; every method
is proved against a function on values (`ShardSpec`, `IndexSpec`, `LabelSpec`, `WalSpec`, `StoreSpec`)
or, for the walk, against relations that fix no map order (`WalkSpec`, `WaveSpec`). The theorems are
lemmas about those specifications.

| files | content |
|---|---|
| `Seqs`, `Text`, `GraphModel` | sequences, strings in sorted order, vertices, edges, log records |
| `Shard`, `Generations` | one generation; the generation table and the router |
| `AttrIndex`, `LabelIndex`, `LabelTheory`, `Rebuild` | the two derived indexes and the rebuild job |
| `Wal` | the log: segments, sequence numbers, replay order |
| `StoreSpec`, `Store` | the whole store as a value and as an object |
| `Routing`, `History`, `FlatGraph`, `Queries`, `Integrity` | invariants of a state and what each step keeps |
| `Contracts`, `Cascade` | each operation spelled out on plain fields and literals; the order of a cascade |
| `Journal`, `Runs`, `Lookup`, `Placement`, `Outcomes` | theorems over whole runs; what undoes what |
| `Scenarios`, `Restarts` | reachable stores built put by put; what a restart brings back |
| `WalkSpec`, `Waves`, `Walk`, `Walker`, `Server` | the traversal, its loops, its session and its caller |
| `WalkTheory`, `Layers`, `Completeness` | what a finished walk guarantees and what it can miss |

## Results

*A run* is any sequence of puts, deletes, rotations, archivings, label rebuilds, closes and
reopenings, with any outcome, failed deletes included. The callers' duty in a run is
`Runs.AdmissibleRun`, and it concerns puts alone. Each put that goes through uses an id that no live edge
and, for an edge, no stored vertex holds; as long as the store is not restarted that is all
(`Runs.InstanceRunIsAdmissible`). That no two vertices share an id is not asked of callers
(`Contracts.RunListsVertices`). A logged put that a restart comes after also uses an id that no edge of the
log holds. This matters only after a delete that dropped an edge, failed and was not logged, and it is
exactly what a restart needs (`Restarts.RestartKeepsExactlyWhenUnheld`).

1. **Routing** (`Routing.RunKeepsRouted`) needs no assumption at all: in every state of every run the
   shard ids are the positions in the creation order, each bucket's last generation is the only active
   one, the router points at it, and no generation exceeds its capacity.
2. **Refinement** (`Queries.QueriesAgreeWithFlatMap`, `Queries.GenerationsDoNotShow`): all queries
   agree with one flat map from id to edge; rotation and archiving change no answer.
3. **Integrity** (`Runs.RunKeeps`, `Runs.RunKeepsAnchored`): the attribute index equals a scan, label
   entries name stored vertices that carry the label, and every edge has both endpoints, in every
   reachable state, after deletes that failed partway and after restarts. A step breaks anchoring if
   and only if it is a `PutEdgeToBucket` that brings an edge without endpoints.
4. **Recovery** (`Runs.StepLogsExactlyWhenClean`, `Runs.ReplayRebuildsLiveGraph`): a step keeps the log a
   description of the graph if and only if it is clean; after a clean run replay succeeds if and only
   if each bucket's logged edges fit into one shard at every prefix of the log, and it then rebuilds the
   live graph although all generations collapse into one per bucket. After any run, clean or not, a
   restart gives the live graph, less the edges put into explicit buckets and so never logged, plus the
   edges that deletes dropped without logging it (`Restarts.RestartSettlesDrift`). Using the id of such a
   dropped edge again leaves a log that opens with two edges of one id or not at all
   (`Restarts.ReusedIdBreaksRestart`).
5. **History** (`History.RunAges`, `Placement.ArchivedEdgePinsVertex`): generations only age, and a
   vertex at an archived edge can never be deleted again.
6. **Walks** (`WalkTheory`): a finished walk is a rooted tree of real, simple paths, exact breadth-first
   search in the start shard, closed below the depth limit, complete for a large enough limit, and it
   queues at most one continuation per stored edge.
7. **Order independence** (`WalkLayers.WalkFindsExactly`, `WalkLayers.WalksAgree`): although groups are
   visited in map order, which vertices a walk returns and at what depth is a function of the graph,
   the placement, the start and the limit. The paths themselves may differ.

8. **Contracts** (`Contracts`): the operations told on the fields of the state, the hash and literals, without
   the functions that make them up: when each is refused and with which error, where an edge goes, what is
   logged, what an attribute query reads. A rotation freezes nothing (`Contracts.RotationKeepsDeletes`), and
   without archiving nothing is ever frozen (`Contracts.RunFreezesNothing`).

Three expectations are false of the code. The model keeps the code as it is, shows an input and proves
the exact condition:

- A walk with a depth limit can miss a vertex within the limit: a vertex first marked deep inside the
  start shard suppresses a shallower continuation. For each start shard with a vertex two of its own hops
  from the start and each limit from two on, a run of puts and rotations leads to a store with that start
  shard in which no walk returns some vertex in range (`Completeness.DepthLimitCanMissNearVertices`). The
  condition can be read off the start shard before the walk: over all stores a run can reach with that
  start shard, nothing in range is missed if and only if the limit is below two or no vertex is exactly two
  of the shard's own hops from the start (`Completeness.CompleteForEveryContentExactlyWhen`; what complete
  says of the returned paths is `WalkLayers.WalkIsCompleteWhen`).
- An attribute lookup can report foreign ids, because keys and values may contain the separator and
  vertex attributes are listed under a prefix that a query may begin with (`Lookup.ForeignLookup` gives a
  reachable store for each such query). It equals a scan in every reachable state if and only if its key
  and value hold no separator and the key does not begin with that prefix
  (`Lookup.LookupScansExactlyWhenPlain`).
- A shard's insertion-order listing is not always exact, because removal does not compact it
  (`ShardSpec.ReAddedListsTwice`): it is exact throughout a shard's life if and only if no id is accepted
  twice (`ShardSpec.ListingExactUnlessReAdded`).

## Model

| member | source | states |
|---|---|---|
| Shards.RemoveStringInPlace | internal/shard/shard.go:180-188 | filtering over the front of the same storage keeps exactly the other strings, in order |
| Shards.RemoveString | internal/store/delete.go:114-122 | the list without the target, through the in-place loop; removal from a shard and from the vertex list use it |
| Shards.Shard.Add | internal/shard/shard.go:74-92 | accepts exactly when active, below capacity and free of the id; both adjacency lists and the order list follow |
| Shards.Shard.Remove | internal/shard/shard.go:103-115 | fails on an archived shard or a missing id, otherwise the edge leaves the map and both lists, never the order list |
| Shards.Shard.Get | internal/shard/shard.go:95-98 | finds an edge exactly when one with the id is live |
| Shards.Shard.EdgesFrom | internal/shard/shard.go:118-126 | the id list of the source resolves to the order-preserving filter of the live edges |
| Shards.Shard.EdgesTo | internal/shard/shard.go:130-138 | the id list of the target resolves to the order-preserving filter of the live edges |
| Shards.Shard.All | internal/shard/shard.go:160-168 | the live edges in insertion order whenever the order list is exact |
| Shards.Shard.EdgeCount | internal/shard/shard.go:171-173 | the number of live edges, although it counts map entries |
| Shards.Shard.SealShard | internal/shard/shard.go:143-150 | an active shard passes through sealing to sealed, later phases stay, and the edges can still be removed |
| ShardSpec.AddMeans | internal/shard/shard.go:74-92 | exactly when an add is accepted, which refusal comes first, and that the edge goes to the end |
| ShardSpec.RemoveMeans | internal/shard/shard.go:103-115 | every shard but an archived one gives up the edge and keeps the others in order |
| ShardSpec.PhasesMean | internal/shard/shard.go:143-157 | sealing leads to sealed and no further, archiving spares an active shard, and neither touches the edges |
| Shards.Shard.ArchiveShard | internal/shard/shard.go:153-157 | only a sealed shard becomes archived, and keeps its edges |
| ShardSpec.RepresentsAfterAdd | internal/shard/shard.go:87-90 | adding keeps the map and both hand-kept families of lists describing the same edges |
| ShardSpec.RepresentsAfterRemove | internal/shard/shard.go:111-113 | removing keeps the map and both hand-kept families of lists describing the same edges |
| ShardSpec.ListingAfterAdd | internal/shard/shard.go:87-88 | the listing stays exact after an add if and only if the id was never listed before |
| ShardSpec.ListingExactUnlessReAdded | internal/shard/shard.go:87-115 | over any life of a shard the listing is exact at every moment if and only if no id was accepted twice |
| ShardSpec.ReAddedListsTwice | internal/shard/shard.go:160-168 | put, remove and put of one edge: the shard holds it once and lists it twice |
| Generations.Manager.constructor | internal/shard/manager.go:15-31 | one empty generation per bucket, ids in bucket order, at least one bucket |
| Generations.Manager.Active | internal/shard/manager.go:34-39 | the generation that takes writes, none for a bucket out of range |
| Generations.Manager.Rotate | internal/shard/manager.go:44-55 | seals the active generation, appends an empty one under the next id and makes it active |
| Generations.Manager.ShardByID | internal/shard/manager.go:57-67 | the table search finds every shard ever created, by its id |
| Generations.Manager.AllShards | internal/shard/manager.go:77-84 | every generation once, bucket by bucket, oldest first |
| Generations.Manager.Archive | internal/shard/manager.go:86-93 | archives each listed generation but the active one |
| Generations.RetireIsArchiveBucket | internal/shard/manager.go:86-93 | archiving generation after generation amounts to freezing the retired ones at once |
| Generations.Router.constructor | internal/shard/route.go:14-24 | every bucket points at its active generation |
| Generations.Router.ShardForBucket | internal/shard/route.go:34-41 | resolves the route entry through the table; out of range or unknown gives none |
| Generations.Router.Switch | internal/shard/route.go:48-57 | redirects a bucket only to a shard that exists |
| AttrIndexes.AttrIndex.InsertAll | internal/index/index.go:36-45 | in any order of the attributes, adds exactly their entries to both maps |
| AttrIndexes.AttrIndex.Update | internal/index/index.go:30-46 | adds the edge's entries to both maps, counts the edge and keeps its source |
| AttrIndexes.AttrIndex.UpdateVertex | internal/index/index.go:50-64 | adds the vertex's entries under the reserved namespace, counting nothing |
| AttrIndexes.AttrIndex.EraseEntries | internal/index/index.go:77-85 | walking the id's entry list clears it from both maps and leaves no empty set behind |
| AttrIndexes.AttrIndex.RemoveEdge | internal/index/index.go:69-89 | reports an id without entries and changes nothing, otherwise clears the id everywhere |
| AttrIndexes.AttrIndex.RemoveVertex | internal/index/index.go:92-104 | clears the id everywhere and never fails |
| AttrIndexes.AttrIndex.LookupByAttr | internal/index/query.go:5-14 | the ids under the entry, each before its neighbour in the order of strings, whatever the map order |
| Text.AtMostMeans | internal/index/query.go:12 | the comparison is equality, being a prefix, or a smaller first different character |
| Text.SortedMeans | internal/index/query.go:12 | strictly sorted is the same as each string standing before its neighbour |
| Text.SortedIsUnique | internal/index/query.go:12-13 | a strictly sorted list is determined by its members, so any sort gives the same answer |
| LabelIndexes.LabelIndex.Add | internal/label/index.go:33-51 | rejects blank or overlong labels and blank ids, is idempotent, and fails at the cap |
| LabelIndexes.LabelIndex.Remove | internal/label/index.go:60-71 | splices out the first registration and drops a label left empty |
| LabelIndexes.LabelIndex.Snapshot | internal/label/index.go:81-87 | a copy equal to the entries, whatever the map order |
| LabelIndexes.LabelIndex.Replace | internal/label/index.go:91-96 | the entries become the given content |
| LabelIndexes.BuildPlan | internal/rebuild/planner.go:20-35 | counts each non-empty label's vertices, lists the labels in increasing order, and the total is the number of labelled vertices |
| LabelIndexes.IsFeasible | internal/rebuild/planner.go:38-45 | true exactly when no label has more vertices than the limit |
| LabelTheory.BuildLabelsMeans | internal/rebuild/rebuild.go:46-59 | a pass goes through if and only if every labelled vertex is registrable and no label exceeds the cap, and then lists per label its vertices in insertion order |
| LabelTheory.RemoveLabelMeans | internal/label/index.go:60-71 | takes out that registration and nothing else; the label disappears with its last entry |
| LabelTheory.RebuildMeans | internal/rebuild/rebuild.go:28-41 | an uncancelled rebuild succeeds if and only if registrable and feasible; on any failure or cancellation the labels are as before |
| Rebuilders.Rebuilder.Rebuild | internal/rebuild/rebuild.go:28-41 | publishes a complete pass or leaves the entries unchanged; the plan describes the stored vertices; a context cancelled beforehand stops it |
| Rebuilders.Rebuilder.Pass | internal/rebuild/rebuild.go:46-59 | fills an empty index with the whole pass or stops at the first failing vertex |
| Rebuilders.Rebuilder.RebuildStore | internal/rebuild/rebuild.go:28-41 | on the store's own label index it is the rebuild step of a run |
| Rebuilders.Rebuilder.CountLabelled | internal/rebuild/rebuild.go:68-76 | the number of labelled vertices |
| Wals.WAL.constructor | internal/wal/wal.go:37-65 | discovers every segment in any listing order; the next id is above all of them |
| Wals.WAL.Append | internal/wal/wal.go:84-100 | fails only when closed; one more record at the end, stamped by this instance's counter |
| Wals.WAL.Rotate | internal/wal/wal.go:104-129 | the next segment is opened before the previous handle is closed |
| Wals.WAL.OpenHandles | internal/wal/wal.go:131-142 | at most one handle is open between calls |
| Wals.WAL.Close | internal/wal/wal.go:165-182 | no current segment and no handle remains; the files stay |
| Wals.WAL.Replay | internal/wal/replay.go:13-42 | delivers the content of all segments in ascending id order |
| WalSpec.AppendMeans | internal/wal/wal.go:69-100 | appending extends what replay delivers by exactly one record |
| WalSpec.AppendWrites | internal/wal/wal.go:69-100 | the next number at the end of the current segment, or in a new one under the next id; a closed log ignores it |
| WalSpec.RotateOpens | internal/wal/wal.go:104-129 | one new empty segment, two when none was being written, and the last is written next; a closed log ignores it |
| WalSpec.OpenMeans | internal/wal/wal.go:49-65 | reopening a directory delivers what was written before |
| WalSpec.SegmentsHoldAppends | internal/wal/wal.go:84-182 | over any interleaving of appends, rotations, closes and reopenings replay delivers exactly the accepted records in order, and the counter counts this instance's appends |
| WalSpec.SegmentsAreNeverReused | internal/wal/wal.go:69-129 | no operation, also after reopening, changes a segment but the one being written; a new one is above all earlier ones, and a rotation and the first append after opening write to a new one |
| Stores.Store.PutVertex | internal/store/write.go:11-37 | checks, log, map, order and index together make the put of the specification, with exactly one append to the log on success |
| Stores.Store.PutEdge | internal/store/write.go:41-77 | checks, shard, log and index together make the put of the specification, with exactly one append to the log on success |
| Stores.Store.PutEdgeToBucket | internal/store/write.go:81-98 | writes to the routed generation of the bucket, without endpoint check and without log record |
| Stores.Store.DeleteEdge | internal/store/delete.go:12-39 | shard, index and log in this order, stopping at the first failure |
| Stores.Store.DeleteVertex | internal/store/delete.go:44-74 | the cascade, the vertex, its label entry and the log, stopping at the first failure |
| Stores.Store.RemoveEdgeCleanup | internal/store/delete.go:78-91 | the first generation that holds the edge drops it, then the index does |
| Stores.Store.IncidentEdges | internal/store/delete.go:94-112 | outgoing then incoming edges of each generation, each id once |
| Stores.Store.RotateBucket | internal/store/store.go:110-138 | table and route move together and, with logging, the log rotates; a refused rotation leaves the log alone; returns the two shard ids |
| Stores.Store.ArchiveBucket | internal/store/store.go:141-143 | freezes the retired generations, whatever the bucket number and even when closed |
| Stores.Store.ShardOfEdge | internal/store/store.go:146-153 | the first generation, in enumeration order, that holds the edge |
| Stores.Store.Close | internal/store/store.go:81-90 | marks the store closed once and closes the log with it |
| Stores.Store.New | internal/store/store.go:41-78 | normalises the options and replays the directory's log; when replay fails there is no store, the log is closed and the directory is as before |
| Stores.Store.ReplayWal | internal/store/recovery.go:13-53 | the interpreter of the log, stopping at the first failing record |
| Stores.Store.ReplayRemoveEdge | internal/store/recovery.go:58-73 | a missing edge or a missing index entry is no failure during replay |
| Stores.Store.GetEdge | internal/store/query.go:41-48 | the edge in the first generation that holds the id |
| Stores.Store.EdgesFrom | internal/store/query.go:51-57 | the outgoing edges of all generations, in enumeration order |
| Stores.Store.EdgesFromByShard | internal/store/query.go:60-69 | exactly the non-empty groups, keyed by shard id |
| Stores.Store.EdgesTo | internal/store/query.go:72-78 | the incoming edges of all generations, in enumeration order |
| Stores.Store.EdgeCount | internal/store/query.go:21-27 | the number of live edges of all generations |
| Stores.Store.ListVertices | internal/store/query.go:30-38 | the stored vertices in insertion order |
| Stores.Store.ShardOfVertex | internal/store/query.go:91-97 | the routed generation of the bucket the vertex id hashes to |
| Routing.RunKeepsRouted | internal/shard/manager.go:44-55 | after any run at all: unique shard ids, the last generation alone is active, the route points at it, no generation is over capacity |
| Routing.StepKeepsRouted | internal/store/store.go:110-143 | every operation, whatever its outcome, keeps the routing invariant |
| Queries.EnumerationIsExact | internal/shard/manager.go:77-84 | the enumeration visits every shard exactly once |
| Queries.QueriesAgreeWithFlatMap | internal/store/query.go:21-78 | the sharded store refines one flat map from id to edge, without duplicates |
| Queries.GroupsPartitionEdges | internal/store/query.go:60-69 | the groups are disjoint and together hold exactly the outgoing edges |
| Queries.GenerationsDoNotShow | internal/store/store.go:110-143 | rotating and archiving change no answer and not even the order of the edges |
| Queries.GroupsAreGenerations | internal/store/query.go:60-69 | a group for each generation that holds an outgoing edge, with that generation's ones |
| Contracts.PutVertexContract | internal/store/write.go:11-37 | refused if and only if closed, without id or stored, with that error and no change; otherwise exactly the new map, order, entries and record |
| Contracts.RunListsVertices | internal/store/write.go:18-30 | in every run, with no duty on ids, the order lists each stored vertex once under its own id |
| Contracts.PutEdgeContract | internal/store/write.go:41-77 | when it is refused, and that the edge goes to the newest generation of the bucket the hash of from>type>to gives |
| Contracts.PutEdgeErrors | internal/store/write.go:41-60 | the error of each refusal, in the order of the checks |
| Contracts.PutEdgeToBucketContract | internal/store/write.go:81-98 | when it is refused, and that the edge goes to the bucket's newest generation |
| Contracts.ShardOfVertexContract | internal/store/query.go:91-97 | the newest generation of the bucket the hash of the id gives |
| Contracts.LocateContract | internal/store/store.go:146-153 | the first enumerated generation that holds the id, also when several do |
| Contracts.EnumerationOrder | internal/shard/manager.go:77-84 | bucket by bucket and, within a bucket, oldest first |
| Contracts.RotateBucketContract | internal/store/store.go:110-138 | refusals in order; otherwise the newest generation is sealed with its edges and an empty active one follows it under the next id |
| Contracts.ArchiveBucketContract | internal/store/store.go:141-143 | exactly the generations of the bucket but the newest become archived and keep their edges, also on a closed store |
| Contracts.RotationKeepsDeletes | internal/shard/shard.go:103-106 | after a rotation every delete of an edge reports what it would have reported before, and a delete of a vertex succeeds as before |
| Contracts.OnlyArchivingFreezes | internal/shard/manager.go:86-93 | no operation but archiving freezes an edge, whatever its outcome |
| Contracts.RunFreezesNothing | internal/shard/manager.go:86-93 | in a run that archives nothing no edge is ever frozen |
| Contracts.DeleteEdgeContract | internal/store/delete.go:12-39 | the error for a closed store, a missing, a frozen and a bare edge, and the record of a success |
| Cascades.CascadeOrder | internal/store/delete.go:94-112 | generation after generation, in each first the edges out of the vertex and then the other ones, oldest first |
| Contracts.ReplayRecordContract | internal/store/recovery.go:17-52 | a vertex record is taken as it is; an unknown operation stops the replay |
| Contracts.LookupContract | internal/index/index.go:30-64 | a query lists the edges with an attribute that reads key=value and the vertices with one that reads so behind vertex: |
| Contracts.NormalizeContract | internal/store/store.go:42-50 | each option that is positive counts and any other falls back to its own default, 4, 1024 and 4096 |
| Contracts.AddLabelContract | internal/label/index.go:33-51 | which refusal comes first, that a repeated registration is accepted before the cap is looked at, and what is appended |
| Contracts.RemoveLabelContract | internal/label/index.go:60-71 | takes out the first registration, whatever else the list holds |
| Contracts.RebuildErrors | internal/rebuild/rebuild.go:46-59 | reports the cancellation or the refusal of the first vertex the index did not take |
| FlatGraph.PlaceEffect | internal/store/write.go:54-60 | a put adds exactly its edge, and ids stay unique if and only if no generation held the id |
| FlatGraph.EvictEffect | internal/store/delete.go:78-91 | an eviction takes out exactly the edge of that id unless it is frozen or absent |
| Integrity.EvictKeeps | internal/store/delete.go:16-30 | an eviction succeeds if and only if the edge has attributes and is not archived; without attributes it fails after the shard dropped the edge |
| Integrity.IncidentMembers | internal/store/delete.go:94-112 | the cascade list is exactly the live edges at the vertex, self-loops once |
| Integrity.CleanupSucceedsWhen | internal/store/delete.go:53-57 | the cascade goes through if and only if every incident edge is removable |
| Integrity.CleanupEvictsPrefix | internal/store/delete.go:53-57 | a failing cascade stops at the first edge that cannot be taken out, with the edges before it gone and that one too when it has no attributes, and reports that edge's error |
| Integrity.DeleteVertexEffect | internal/store/delete.go:44-74 | succeeds if and only if open, stored and all incident edges removable; then exactly those edges and the vertex go, otherwise the vertex stays |
| History.RunAges | internal/shard/shard.go:74-157 | over any run of one instance phases only move forward, a sealed generation only loses edges, an archived one never changes |
| Runs.StepKeeps | internal/store/write.go:11-98 | every admissible step, failed or not, keeps unique ids, the index, the vertex list and the labels sound |
| Runs.InstanceRunIsAdmissible | internal/store/write.go:11-77 | without a restart, fresh ids in the graph are all the callers owe |
| Runs.RunKeeps | internal/store/delete.go:12-112 | in every reachable state the attribute index equals a scan and label entries name vertices with that label |
| Runs.StepKeepsAnchored | internal/store/write.go:48-60 | a step keeps both endpoints of all edges stored if and only if it does not bring an edge without them |
| Runs.RunKeepsAnchored | internal/store/delete.go:44-61 | referential integrity in every reachable state, also after partial deletes and restarts |
| Runs.DeleteEdgeEffect | internal/store/delete.go:12-39 | succeeds if and only if open and the edge is live, has attributes and is not archived; what changes in each case |
| Runs.StepLogsExactlyWhenClean | internal/store/delete.go:24-36 | a step keeps the log a description of the live graph if and only if it is clean |
| Runs.CleanRunLogs | internal/store/write.go:61-73 | after every clean run the log describes the live graph |
| Runs.ReplayRebuildsLiveGraph | internal/store/recovery.go:13-53 | after a clean run replay succeeds if and only if the buckets always fit, and then restores vertices, their order, edges and attribute index in one generation per bucket |
| Runs.ReopenRestoresLiveGraph | internal/store/store.go:66-76 | reopening after a clean run restores the live graph under the same log, or fails for lack of capacity |
| Restarts.RestartSettlesDrift | internal/store/recovery.go:13-53 | after any run a restart gives the live graph, less the live edges put into explicit buckets, plus the edges that deletes dropped without logging; it goes through if and only if each prefix of the log fits, and restores the live graph if and only if the two sets agree |
| Restarts.RestartKeepsExactlyWhenUnheld | internal/store/write.go:61-73 | a restart right after a put with a fresh id, if it goes through, keeps the invariant if and only if the log did not hold the id |
| Restarts.ReusedIdBreaksRestart | internal/store/delete.go:24-36 | putting the id of such an edge again leaves a log that opens with two edges of one id, or does not open when their keys share a bucket |
| Journal.ReplayRecordFollowsLog | internal/store/recovery.go:17-52 | replaying one record does to the collapsed store what the record says about the graph, and fails only for capacity |
| Journal.ReplayFollowsLog | internal/store/recovery.go:13-53 | for any log the store could have written, replay succeeds if and only if every prefix fits one shard per bucket |
| Placement.RunKeepsPlaced | internal/shard/route.go:43-46 | routed edges stay in generations of the bucket their key hashes to |
| Placement.StepKeepsPlaced | internal/store/write.go:81-98 | a step keeps edges in their own buckets if and only if it does not write into a wrong one |
| Placement.NeverRotatedReplays | internal/store/recovery.go:24-33 | after a clean run without rotations replay always succeeds |
| Placement.ArchivedEdgePinsVertex | internal/shard/shard.go:103-106 | a vertex at an archived edge stays stored and every later delete of it fails |
| Lookup.AttrEntryInjective | internal/index/index.go:111-113 | without the separator in keys an entry determines key and value |
| Lookup.PlainQueryScans | internal/index/query.go:5-14 | whatever is stored, a query without separators and outside the vertex namespace returns exactly the live edges with the attribute |
| Lookup.ForeignLookup | internal/index/index.go:30-64 | for every other query a reachable store in which the lookup returns an id although no live edge has the attribute |
| Lookup.LookupScansExactlyWhenPlain | internal/index/query.go:5-14 | a lookup equals a scan in every reachable state if and only if its query is plain |
| Lookup.LookupEqualsScanAlways | internal/index/query.go:5-14 | in every reachable state a plain query, or a plain key over plain stored keys, is answered like a scan |
| Lookup.IndexCountsStoredEdges | internal/index/index.go:107-109 | if every edge carries an attribute the index and the shards count the same edges, restarts included |
| Lookup.BareEdgeStaysCounted | internal/store/delete.go:24-30 | deleting an edge without attributes drops it, reports an error and leaves it counted |
| Outcomes.PutEdgeOutcome | internal/store/write.go:41-77 | a routed store never misses its target nor writes to a sealed shard; the remaining reasons to fail, as an equivalence |
| Outcomes.PutEdgeToBucketOutcome | internal/store/write.go:81-98 | the reasons to fail, as an equivalence; neither log nor vertices change |
| Outcomes.RotateOutcome | internal/store/store.go:110-138 | succeeds on every bucket of an open store, hands out the next id and moves no edge |
| Outcomes.RotateMakesRoom | internal/store/store.go:110-138 | after rotating its bucket any edge with stored endpoints can be put |
| Outcomes.ArchiveFreezes | internal/shard/manager.go:86-93 | exactly the edges in the bucket's retired generations become frozen |
| Outcomes.PutThenDeleteEdge | internal/store/delete.go:12-39 | deleting a newly put edge restores every generation, and reports success if and only if it had attributes |
| Outcomes.PutThenDeleteVertex | internal/store/delete.go:44-74 | deleting a newly put vertex restores the store up to the log |
| Outcomes.DeleteVertexUnregisters | internal/store/delete.go:63-65 | a deleted vertex leaves its label entry, in place, and no other entry changes |
| Outcomes.ClosedGraphIsFixed | internal/store/store.go:81-90 | until it is reopened a closed store keeps its graph, index and log through any operations |
| Walks.VisitHome | internal/walk/walk.go:82-97 | marks and queues exactly the unmarked targets of the start shard's edges, once each |
| Walks.HandOff | internal/walk/walk.go:98-108 | hands over every edge stored elsewhere, in any order of the groups, each charged to its own place |
| Walks.SearchHome | internal/walk/walk.go:61-109 | phase 1 terminates on every graph and is a complete breadth-first search of the start shard |
| Walks.CarryAll | internal/merge/merge.go:64-75 | queues the unmarked targets of every group, in any order of the groups |
| Walks.Merge | internal/merge/merge.go:40-86 | for any input it terminates, every new path is justified, every target below the limit is marked, and queued work is charged to distinct places |
| Walkers.PruneDeletes | internal/snapshot/capture.go:26-38 | exactly the marks of vertices that are no longer stored go, and their number is returned |
| Walkers.Walker.EnsureSession | internal/walk/walk.go:177-183 | the session starts with new, empty marks |
| Walkers.Walker.Walk | internal/walk/walk.go:47-126 | fails only for a missing start or a cancellation, and always in a context cancelled beforehand; otherwise a full report, and the marks are the path ends that are stored vertices |
| Walkers.Walker.WalkFromLabel | internal/walk/walk.go:142-156 | concatenates one full answer per entry; with sound labels it never meets a missing vertex |
| Walkers.Walker.Close | internal/walk/walk.go:165-170 | the next walk starts with clean marks |
| WalkSpec.SearchContinues | internal/walk/walk.go:69-109 | one expansion keeps the search invariant: queue order, coverage, hand-over, depth order, charges |
| WalkSpec.MergeAccepts | internal/merge/merge.go:54-75 | accepting the head of the queue keeps the invariant of the merger |
| WaveSpec.WavesAccept | internal/merge/merge.go:48-76 | the queue stays sorted by wave and depth, and every offer is settled no later than its turn |
| WalkTheory.WalkGrows | internal/merge/merge.go:90-97 | every path but the first extends a path returned earlier by a live edge |
| WalkTheory.WalkEnds | internal/walk/walk.go:87-96 | paths end at distinct vertices, exactly the marked ones |
| WalkTheory.WalkIsRootedTree | internal/walk/walk.go:73-108 | rooted tree of real simple paths within the limit, closed under prefixes |
| WalkTheory.WalkIsDepthClosed | internal/walk/walk.go:78-108 | every live target of a path end below the limit ends a returned path itself |
| WalkTheory.HomePhaseIsBreadthFirst | internal/walk/walk.go:56-97 | the first paths are shortest paths of the start shard in order of distance, one for each vertex in range and no other |
| WalkTheory.WithinMeansRoute | internal/walk/walk.go:78-97 | the distance used above is the length of a shortest route |
| WalkTheory.DeepWalkReturnsReachable | internal/merge/merge.go:46-76 | with a limit of at least the number of reachable vertices less one, one path per reachable vertex and none else, for every placement |
| WalkTheory.WorkIsLinear | internal/merge/merge.go:64-75 | both phases together queue at most one continuation per stored edge |
| WalkTheory.PlacesAreEdges | internal/merge/merge.go:64-75 | with unique ids that bound is the number of live edges |
| WalkLayers.LayersAreWaves | internal/merge/merge.go:48-76 | each wave of the merger drains exactly the layer the graph and the placement define |
| WalkLayers.WalkFindsExactly | internal/walk/walk.go:47-126 | a walk returns a path of depth d to v if and only if v is found at depth d, a property of the question alone |
| WalkLayers.WalksAgree | internal/walk/walk.go:98-108 | two walks with the same arguments return the same vertices at the same depths, whatever the map order |
| WalkLayers.WalkIsCompleteWhen | internal/walk/walk.go:78-108 | a finished walk returns a path to each vertex in range if and only if each is found, so all walks for a question do or none does |
| Completeness.CompleteForEveryContentExactlyWhen | internal/walk/walk.go:78-108 | over all stores a run can reach with a given start shard, whatever the other shards hold, each vertex in range is found if and only if the limit is below two or the start shard has no vertex exactly two of its own hops away |
| Completeness.ShallowContentIsComplete | internal/walk/walk.go:78-108 | the condition on the start shard is enough in any state, reachable or not |
| Completeness.NearIsFound | internal/walk/walk.go:78-108 | over such a start shard every vertex n hops away, through any shards, is found no deeper than n |
| Completeness.DepthLimitCanMissNearVertices | internal/walk/walk.go:87-89 | for every other start shard and each limit from two on, a run after which no finished walk returns some vertex within the limit |
| Server.HandleWalk | cmd/graphstore/http.go:161-178 | over a store that any run produced, an uncancelled walk fails only for a start that is not stored and otherwise gives full answers |

## Left out

- `cmd/graphstore` and `web` but for the call of the walker: HTTP, JSON, flags, paging, time-outs and demo data hold no hard property.
- Nil edges, nil vertices, a nil merge input and a nil context: values here are never nil. A context is never cancelled, or may be found cancelled at any poll, or was cancelled beforehand.
- All failures of files, JSON encoding and scanning, and segment file names: a segment is an append-only list of records under its id, and an append on an open log succeeds.
- Mutexes, concurrent requests and two open store instances over one directory: one thread and one instance are modelled, and the store does not change during a walk.
- The body of the hash: an arbitrary total function of the key is a parameter.
- Metrics, timestamps, `WalkState` capture, snapshot counts and session accessors: bookkeeping that no result reads.
- `edgeTo` of the attribute index, `SortedEdgeIDs`, `DistinctVertices`, `MaxDepthReached`, `BatchPaths`, `NormalizePaths`, `AttrSet` and `WithAttr`: small helpers that would only add easy members.
- Slices of ids and segments are sequences that methods reassign; only the string removal runs on an array, filled for the call. What sharing one backing array could do is not captured beyond that.
- Vertices and edges are immutable values: a caller that keeps and changes a stored pointer or attribute map is not modelled.
- Stores.Store.EdgesFromByShard: requires that the table lists every shard once, which `Queries.EnumerationIsExact` proves of every routed state.
- Rebuilders.Rebuilder.Rebuild: does not refuse an infeasible plan up front, because the code computes the plan and never consults `Feasible`.
- Walks.Merge: says nothing about batches of paths, because batching only slices the result.
- Runs.RunKeeps: assumes that puts which succeed use ids that no live edge and, for edges, no stored vertex holds, and before a restart none that an edge of the log holds, because the shards and the index check neither across the store.
- Placement.ArchivedEdgePinsVertex: ends at a restart, because replay puts every edge into an active generation again.
- WalkLayers.WalksAgree: does not claim equal paths, because the map order decides which of several parents a path goes through.
- The order of the drained continuations within one depth, and of groups within one expansion: left arbitrary, so every result holds for all orders.
