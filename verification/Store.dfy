/** The store object (internal/store): its fields, its operations step by step, and the proof that
    each operation does to the fields what StoreSpec says. */
module Stores {
  import opened Seqs
  import opened GraphModel
  import opened ShardSpec
  import opened Shards
  import opened IndexSpec
  import opened AttrIndexes
  import opened LabelSpec
  import opened LabelIndexes
  import opened Text
  import opened WalSpec
  import opened Wals
  import opened StoreSpec
  import opened Generations
  import opened Routing
  import opened Queries

  class Store {
    const cfg: Config
    const manager: Manager
    const router: Router
    const labelIndex: LabelIndex
    const attrIndex: AttrIndex
    const wal: WAL?
    var vertices: map<string, Vertex>
    var vertexSeq: seq<string>
    var closed: bool

    ghost function Repr(): set<object>
      reads this, manager, if wal == null then {} else {wal}
    {
      {this, manager, router, labelIndex, attrIndex} + (set s | s in manager.pool)
          + (if wal == null then {} else wal.Repr())
    }

    ghost predicate Valid()
      reads this, Repr()
    {
      && ValidConfig(cfg)
      && manager.Valid() && manager.buckets == cfg.buckets && manager.capacity == cfg.capacity
      && router.manager == manager && router.buckets == cfg.buckets && router.hash == cfg.hash
      && |router.route| == cfg.buckets
      && labelIndex.cap == cfg.labelCap && attrIndex.Valid()
      && (wal != null <==> cfg.logged)
      && (wal != null ==> wal.Valid() && wal.closed == closed)
    }

    ghost function Log(): seq<Record>
      reads if wal == null then {} else {wal, wal.dir}
    {
      if wal == null then [] else Plain(Written(wal.View()))
    }

    /** The log itself: its segments, what is written next and its counters. */
    ghost function Wal(): Option<WalState>
      reads if wal == null then {} else {wal, wal.dir}
    {
      if wal == null then None else Some(wal.View())
    }

    ghost function View(): StoreState
      reads this, Repr()
    {
      StoreState(manager.States(), GenIds(manager.gens), manager.active, router.route,
                 vertices, vertexSeq, attrIndex.View(), labelIndex.entries, Log(), closed)
    }

    /** What reading needs: a table that lists every shard once, and a route table over it. */
    ghost predicate Readable()
      reads manager, manager.pool, router
    {
      && manager.Valid() && manager.Exact()
      && router.manager == manager && router.buckets == cfg.buckets && router.hash == cfg.hash
      && |router.route| == cfg.buckets
    }

    /** Every state a run can reach can be read. */
    lemma RoutedIsReadable()
      requires Valid() && Routed(cfg, View())
      ensures Readable()
    {
      EnumerationIsExact(cfg, View());
    }

    constructor (cfg: Config, manager: Manager, router: Router, labelIndex: LabelIndex, attrIndex: AttrIndex, wal: WAL?)
      ensures this.cfg == cfg && this.manager == manager && this.router == router
      ensures this.labelIndex == labelIndex && this.attrIndex == attrIndex && this.wal == wal
      ensures vertices == map[] && vertexSeq == [] && !closed
    {
      this.cfg, this.manager, this.router := cfg, manager, router;
      this.labelIndex, this.attrIndex, this.wal := labelIndex, attrIndex, wal;
      vertices, vertexSeq, closed := map[], [], false;
    }

    /** An empty store; with logging on, over whatever the directory already holds. */
    static method Blank(cfg: Config, dir: Directory) returns (s: Store)
      requires ValidConfig(cfg)
      ensures s.Valid() && fresh(s) && fresh(s.Repr() - {dir}) && s.cfg == cfg
      ensures s.View() == FreshState(cfg).(log := Found(cfg, dir))
      ensures s.wal != null ==> s.wal.View() == WalOpen(dir.files)
    {
      var manager, router := FreshTable(cfg);
      var wal := OpenLog(cfg, dir);
      s := Assemble(cfg, manager, router, wal);
    }

    /** A store without vertices over a table and a log, with indexes of its own. */
    static method Assemble(cfg: Config, manager: Manager, router: Router, wal: WAL?) returns (s: Store)
      requires ValidConfig(cfg)
      ensures fresh(s) && fresh(s.labelIndex) && fresh(s.attrIndex) && s.cfg == cfg
      ensures s.manager == manager && s.router == router && s.wal == wal
      ensures s.labelIndex.cap == cfg.labelCap && s.labelIndex.entries == map[]
      ensures s.attrIndex.Valid() && s.attrIndex.View() == EMPTY_INDEX
      ensures s.vertices == map[] && s.vertexSeq == [] && !s.closed
    {
      var labelIndex := new LabelIndex(cfg.labelCap);
      var attrIndex := new AttrIndex();
      s := new Store(cfg, manager, router, labelIndex, attrIndex, wal);
    }

    static method OpenLog(cfg: Config, dir: Directory) returns (wal: WAL?)
      ensures wal != null <==> cfg.logged
      ensures wal != null ==> wal.Valid() && fresh(wal) && fresh(wal.Repr() - {dir}) && wal.dir == dir
                              && wal.View() == WalOpen(dir.files)
    {
      if cfg.logged {
        wal := new WAL(dir);
      } else {
        wal := null;
      }
    }

    static method FreshTable(cfg: Config) returns (manager: Manager, router: Router)
      requires ValidConfig(cfg)
      ensures fresh(manager) && fresh(router) && fresh(manager.pool) && manager.Valid()
      ensures manager.buckets == cfg.buckets && manager.capacity == cfg.capacity
      ensures router.manager == manager && router.buckets == cfg.buckets && router.hash == cfg.hash
      ensures manager.States() == FreshState(cfg).shards && GenIds(manager.gens) == FreshState(cfg).gens
      ensures manager.active == FreshState(cfg).active && router.route == FreshState(cfg).route
    {
      manager := new Manager(cfg.buckets, cfg.capacity);
      router := new Router(manager, cfg.buckets, cfg.hash);
      forall b | 0 <= b < cfg.buckets ensures router.route[b] == b {
        assert GenIds(manager.gens)[b][0] == b && manager.active[b] == 0;
      }
    }

    // Queries.

    method GetVertex(id: string) returns (r: Option<Vertex>)
      ensures r == if id in vertices then Some(vertices[id]) else None
    {
      r := if id in vertices then Some(vertices[id]) else None;
    }

    method ListVertices() returns (out: seq<Vertex>)
      ensures out == AllVertices(vertices, vertexSeq)
    {
      out := [];
      for i := 0 to |vertexSeq|
        invariant out == AllVertices(vertices, vertexSeq[..i])
      {
        assert vertexSeq[..i + 1][..i] == vertexSeq[..i];
        if vertexSeq[i] in vertices {
          out := out + [vertices[vertexSeq[i]]];
        }
      }
      assert vertexSeq[..|vertexSeq|] == vertexSeq;
    }

    method GetEdge(id: string) returns (r: Option<Edge>)
      requires Valid()
      ensures r == Queries.GetEdge(View(), id)
    {
      var _, edge := manager.Holder(id);
      r := edge;
    }

    /** The generation that currently holds the edge. */
    method ShardOfEdge(id: string) returns (r: Option<nat>)
      requires Valid()
      ensures r == Locate(Order(View()), View().shards, id)
    {
      var shard, _ := manager.Holder(id);
      r := if shard == null then None else Some(shard.ID);
    }

    method EdgesFrom(v: string) returns (out: seq<Edge>)
      requires Valid()
      ensures out == Queries.EdgesFrom(View(), v)
    {
      out := manager.EdgesFrom(v);
    }

    method EdgesFromByShard(v: string) returns (out: map<nat, seq<Edge>>)
      requires manager.Valid() && manager.Exact()
      ensures out == Queries.EdgesFromByShard(manager.States(), v)
    {
      out := manager.GroupOutgoing(v);
    }

    method EdgesTo(v: string) returns (out: seq<Edge>)
      requires Valid()
      ensures out == Queries.EdgesTo(View(), v)
    {
      out := manager.EdgesTo(v);
    }

    method EdgeCount() returns (total: nat)
      requires Valid()
      ensures total == Queries.EdgeCount(View())
    {
      total := manager.EdgeCount();
    }

    method LookupByAttr(key: string, value: string) returns (ids: seq<string>)
      requires Valid()
      ensures Increasing(ids) && forall id :: id in ids <==> id in IdsUnder(View().index, AttrEntry(key, value))
    {
      ids := attrIndex.LookupByAttr(key, value);
    }

    method LookupLabel(tag: string) returns (ids: seq<string>)
      ensures ids == Entered(labelIndex.entries, tag)
    {
      ids := labelIndex.Lookup(tag);
    }

    method ShardOfVertex(id: string) returns (shard: nat)
      requires Readable()
      ensures shard == HomeShard(cfg, router.route, manager.States(), id)
    {
      var target := router.ShardForBucket(router.BucketOf(id));
      if target != null {
        return target.ID;
      }
      shard := 0;
    }

    // Writes.

    /** When only the log objects and the closed flag may have changed, everything else is as it was. */
    twostate lemma OnlyLogChanged()
      requires old(Valid()) && unchanged(`vertices, `vertexSeq)
      requires unchanged(manager) && unchanged(manager.pool) && unchanged(router) && unchanged(labelIndex)
               && unchanged(attrIndex)
      requires wal != null ==> wal.Valid() && wal.closed == closed
      ensures Valid() && View() == old(View()).(log := Log(), closed := closed)
    {
    }

    /** Appends one record to the log, when there is one. */
    method LogRecord(r: Record)
      requires Valid() && !closed
      modifies Repr()
      ensures Valid() && fresh(Repr() - old(Repr()))
      ensures View() == old(View()).(log := Logging(cfg, old(View()), r)) && Wal() == LogAppended(old(Wal()), r)
    {
      if wal != null {
        AppendToLog(r);
        OnlyLogChanged();
      }
    }

    method AppendToLog(r: Record)
      requires wal != null && wal.Valid() && !wal.closed
      modifies wal, wal.dir
      ensures wal.Valid() && !wal.closed && fresh(wal.Repr() - old(wal.Repr())) && Log() == old(Log()) + [r]
      ensures wal.View() == WalAppend(old(wal.View()), r)
    {
      AppendExtendsLog(wal.View(), r);
      var _ := wal.Append(r);
    }

    method PutVertex(v: Vertex) returns (error: Option<Error>)
      requires Valid()
      modifies Repr()
      ensures Valid() && fresh(Repr() - old(Repr()))
      ensures Outcome(View(), error) == StoreSpec.PutVertex(cfg, old(View()), v)
      ensures Wal() == if error.Some? then old(Wal()) else LogAppended(old(Wal()), VertexRecord(v))
    {
      if closed {
        return Some(StoreClosed);
      }
      if v.id == "" {
        return Some(MissingId);
      }
      if v.id in vertices {
        return Some(VertexExists);
      }
      LogRecord(VertexRecord(v));
      StoreVertex(v);
      error := None;
    }

    method StoreVertex(v: Vertex)
      requires Valid()
      modifies this`vertices, this`vertexSeq, attrIndex
      ensures Valid() && Repr() == old(Repr())
      ensures View() == old(View()).(vertices := old(vertices)[v.id := v], vertexSeq := old(vertexSeq) + [v.id],
                                     index := IndexVertex(old(View()).index, v))
    {
      vertices := vertices[v.id := v];
      vertexSeq := vertexSeq + [v.id];
      attrIndex.UpdateVertex(v);
    }

    method AddToShard(e: Edge, target: Shard?) returns (error: Option<Error>)
      requires Valid() && (target != null ==> target.ID < |manager.pool| && manager.pool[target.ID] == target)
      modifies manager.pool
      ensures Valid() && Repr() == old(Repr())
      ensures match if target == null then Err(NoTarget) else AddEdge(old(View()).shards[target.ID], e)
              case Err(reason) => error == Some(reason) && View() == old(View())
              case Ok(shard) => error == None
                                && View() == old(View()).(shards := old(View()).shards[target.ID := shard])
    {
      if target == null {
        return Some(NoTarget);
      }
      var added := manager.AddTo(target, e);
      error := if added.Err? then Some(added.error) else None;
    }

    method IndexPlaced(e: Edge)
      requires Valid()
      modifies attrIndex
      ensures Valid() && Repr() == old(Repr()) && View() == old(View()).(index := IndexEdge(old(View()).index, e))
    {
      attrIndex.Update(e);
    }

    method PutEdge(e: Edge) returns (error: Option<Error>)
      requires Valid()
      modifies Repr()
      ensures Valid() && fresh(Repr() - old(Repr()))
      ensures Outcome(View(), error) == StoreSpec.PutEdge(cfg, old(View()), e)
      ensures Wal() == if error.Some? then old(Wal()) else LogAppended(old(Wal()), EdgeRecord(e))
    {
      if closed {
        return Some(StoreClosed);
      }
      if e.id == "" {
        return Some(MissingId);
      }
      if e.from !in vertices {
        return Some(VertexNotFound);
      }
      if e.to !in vertices {
        return Some(VertexNotFound);
      }
      error := WriteEdge(e);
    }

    method RouteTo(bucket: int) returns (target: Shard?)
      requires Valid()
      ensures match Target(View(), bucket)
              case None => target == null
              case Some(i) => i < |manager.pool| && target == manager.pool[i] && target.ID == i
    {
      target := router.ShardForBucket(bucket);
    }

    /** Adds the edge to the routed shard; the index is not told yet. */
    method PlaceEdge(e: Edge, bucket: int) returns (error: Option<Error>)
      requires Valid()
      modifies manager.pool
      ensures Valid() && Repr() == old(Repr())
      ensures var placed := Place(old(View()), e, Target(old(View()), bucket));
              && error == placed.error && View() == old(View()).(shards := placed.state.shards)
              && (error.None? ==> placed.state == View().(index := IndexEdge(View().index, e)))
    {
      var target := RouteTo(bucket);
      error := AddToShard(e, target);
    }

    /** Shard first, then the log, then the index. */
    method WriteEdge(e: Edge) returns (error: Option<Error>)
      requires Valid() && !closed
      modifies Repr()
      ensures Valid() && fresh(Repr() - old(Repr()))
      ensures var placed := Place(old(View()), e, Target(old(View()), Bucket(cfg, e.Key())));
              Outcome(View(), error) == if placed.error.Some? then placed
                                        else Outcome(placed.state.(log := Logging(cfg, old(View()), EdgeRecord(e))),
                                                     None)
      ensures Wal() == if error.Some? then old(Wal()) else LogAppended(old(Wal()), EdgeRecord(e))
    {
      ghost var placed := Place(View(), e, Target(View(), Bucket(cfg, e.Key())));
      error := PlaceEdge(e, router.BucketOf(e.Key()));
      if error.None? {
        CommitEdge(e);
        assert View().(log := placed.state.log) == placed.state;
      }
    }

    method CommitEdge(e: Edge)
      requires Valid() && !closed
      modifies Repr()
      ensures Valid() && fresh(Repr() - old(Repr()))
      ensures View() == old(View()).(log := Logging(cfg, old(View()), EdgeRecord(e)),
                                     index := IndexEdge(old(View()).index, e))
      ensures Wal() == LogAppended(old(Wal()), EdgeRecord(e))
    {
      LogRecord(EdgeRecord(e));
      IndexPlaced(e);
    }

    method PutEdgeToBucket(e: Edge, bucket: int) returns (error: Option<Error>)
      requires Valid()
      modifies manager.pool, attrIndex
      ensures Valid() && Repr() == old(Repr())
      ensures Outcome(View(), error) == StoreSpec.PutEdgeToBucket(cfg, old(View()), e, bucket)
    {
      if closed {
        return Some(StoreClosed);
      }
      if bucket < 0 || bucket >= cfg.buckets {
        return Some(BucketOutOfRange);
      }
      error := PlaceEdge(e, bucket);
      if error.None? {
        IndexPlaced(e);
      }
    }

    // Deletes.

    /** Takes the edge out of the first generation that holds it. */
    method DropFromShard(id: string) returns (error: Option<Error>)
      requires Valid()
      modifies manager.pool
      ensures Valid() && Repr() == old(Repr())
      ensures View() == old(View()).(shards := Taken(Order(old(View())), old(View()).shards, id).0)
      ensures error == Taken(Order(old(View())), old(View()).shards, id).1
    {
      error := manager.Take(id);
    }

    method Unindex(id: string) returns (error: Option<Error>)
      requires Valid()
      modifies attrIndex
      ensures Valid() && Repr() == old(Repr())
      ensures match UnindexEdge(old(View()).index, id)
              case Err(reason) => error == Some(reason) && View() == old(View())
              case Ok(ix) => error == None && View() == old(View()).(index := ix)
    {
      var r := attrIndex.RemoveEdge(id);
      error := if r.Err? then Some(r.error) else None;
    }

    method RemoveEdgeCleanup(id: string) returns (error: Option<Error>)
      requires Valid()
      modifies manager.pool, attrIndex
      ensures Valid() && Repr() == old(Repr())
      ensures Outcome(View(), error) == Evict(old(View()), id)
    {
      TakenIsEvict(View(), id);
      error := DropFromShard(id);
      if error.None? {
        error := Unindex(id);
      }
    }

    method DeleteEdge(id: string) returns (error: Option<Error>)
      requires Valid()
      modifies Repr()
      ensures Valid() && fresh(Repr() - old(Repr()))
      ensures Outcome(View(), error) == StoreSpec.DeleteEdge(cfg, old(View()), id)
      ensures Wal() == if error.Some? then old(Wal()) else LogAppended(old(Wal()), EdgeDeleteRecord(id))
    {
      if closed {
        return Some(StoreClosed);
      }
      error := EvictAndLog(id, Evict(View(), id));
    }

    method EvictAndLog(id: string, ghost evicted: Outcome) returns (error: Option<Error>)
      requires Valid() && !closed && evicted == Evict(View(), id)
      modifies Repr()
      ensures Valid() && fresh(Repr() - old(Repr())) && error == evicted.error
      ensures error.Some? ==> View() == evicted.state
      ensures error.None? ==> View() == evicted.state.(log := Logging(cfg, evicted.state, EdgeDeleteRecord(id)))
      ensures Wal() == if error.Some? then old(Wal()) else LogAppended(old(Wal()), EdgeDeleteRecord(id))
    {
      error := RemoveEdgeCleanup(id);
      if error.Some? {
        return;
      }
      LogRecord(EdgeDeleteRecord(id));
    }

    method IncidentEdges(v: string) returns (out: seq<Edge>)
      requires Valid()
      ensures out == Incident(View(), v)
    {
      out := manager.IncidentEdges(v);
    }

    method CleanupAll(edges: seq<Edge>) returns (error: Option<Error>)
      requires Valid()
      modifies manager.pool, attrIndex
      ensures Valid() && Repr() == old(Repr()) && closed == old(closed)
      ensures Outcome(View(), error) == Cleanup(old(View()), edges)
    {
      error := None;
      for i := 0 to |edges|
        invariant Valid() && Repr() == old(Repr()) && error == None
        invariant Cleanup(View(), edges[i..]) == Cleanup(old(View()), edges)
      {
        CleanupStep(View(), edges, i);
        error := RemoveEdgeCleanup(edges[i].id);
        if error.Some? {
          return;
        }
      }
    }

    method CleanupIncident(v: string) returns (error: Option<Error>)
      requires Valid()
      modifies manager.pool, attrIndex
      ensures Valid() && Repr() == old(Repr()) && closed == old(closed)
      ensures Outcome(View(), error) == Cleanup(old(View()), Incident(old(View()), v))
    {
      var incident := IncidentEdges(v);
      error := CleanupAll(incident);
    }

    method DropFromTables(v: string)
      modifies this`vertices, this`vertexSeq
      ensures vertices == old(vertices) - {v} && vertexSeq == Filter(old(vertexSeq), IsNot(v))
    {
      var rest := RemoveString(vertexSeq, v);
      vertices, vertexSeq := vertices - {v}, rest;
    }

    method DropStoredVertex(v: string)
      requires Valid()
      modifies this`vertices, this`vertexSeq, attrIndex
      ensures Valid() && Repr() == old(Repr()) && View() == DropVertex(old(View()), v)
    {
      DropFromTables(v);
      attrIndex.RemoveVertex(v);
    }

    method DropLabel(tag: string, v: string)
      requires Valid()
      modifies labelIndex
      ensures Valid() && Repr() == old(Repr())
      ensures View() == old(View()).(labels := if tag != "" then RemoveLabel(old(View()).labels, tag, v)
                                               else old(View()).labels)
    {
      if tag != "" {
        labelIndex.Remove(tag, v);
      }
    }

    method DeleteVertex(v: string) returns (error: Option<Error>)
      requires Valid()
      modifies Repr()
      ensures Valid() && fresh(Repr() - old(Repr()))
      ensures Outcome(View(), error) == StoreSpec.DeleteVertex(cfg, old(View()), v)
      ensures Wal() == if error.Some? then old(Wal()) else LogAppended(old(Wal()), VertexDeleteRecord(v))
    {
      if closed {
        return Some(StoreClosed);
      }
      if v !in vertices {
        return Some(VertexNotFound);
      }
      error := RemoveVertex(vertices[v].tag, v, Cleanup(View(), Incident(View(), v)));
    }

    method RemoveVertex(tag: string, v: string, ghost cleaned: Outcome) returns (error: Option<Error>)
      requires Valid() && !closed && cleaned == Cleanup(View(), Incident(View(), v))
      modifies Repr()
      ensures Valid() && fresh(Repr() - old(Repr())) && error == cleaned.error
      ensures error.Some? ==> View() == cleaned.state
      ensures error.None? ==> View() == StoreSpec.FinishDelete(cfg, cleaned.state, tag, v)
      ensures Wal() == if error.Some? then old(Wal()) else LogAppended(old(Wal()), VertexDeleteRecord(v))
    {
      error := CleanupIncident(v);
      assert Outcome(View(), error) == cleaned;
      if error.Some? {
        return;
      }
      FinishDelete(tag, v);
    }

    /** The steps after the incident edges are gone: the vertex, its label entry, the log. */
    method FinishDelete(tag: string, v: string)
      requires Valid() && !closed
      modifies Repr()
      ensures Valid() && fresh(Repr() - old(Repr()))
      ensures View() == StoreSpec.FinishDelete(cfg, old(View()), tag, v)
      ensures Wal() == LogAppended(old(Wal()), VertexDeleteRecord(v))
    {
      DropUnlogged(tag, v);
      LogRecord(VertexDeleteRecord(v));
    }

    method DropUnlogged(tag: string, v: string)
      requires Valid()
      modifies this`vertices, this`vertexSeq, attrIndex, labelIndex
      ensures Valid() && Repr() == old(Repr()) && closed == old(closed)
      ensures View() == StoreSpec.FinishDelete(cfg, old(View()), tag, v).(log := old(Log()))
    {
      DropStoredVertex(v);
      DropLabel(tag, v);
    }

    // Generations.

    method RotateBucket(bucket: int) returns (ids: (nat, nat), error: Option<Error>)
      requires Valid()
      modifies Repr()
      ensures Valid() && fresh(Repr() - old(Repr()))
      ensures Outcome(View(), error) == StoreSpec.RotateBucket(cfg, old(View()), bucket)
      ensures error.None? ==> ids == (Target(old(View()), bucket).value, |old(View()).shards|)
      ensures Wal() == if error.Some? then old(Wal()) else LogRotated(old(Wal()))
    {
      ids := (0, 0);
      if bucket < 0 || bucket >= cfg.buckets {
        return ids, Some(BucketOutOfRange);
      }
      if closed {
        return ids, Some(StoreClosed);
      }
      var previous := RouteTo(bucket);
      if previous == null {
        return ids, Some(NoTarget);
      }
      var next := Advance(bucket);
      return (previous.ID, next), None;
    }

    method Advance(bucket: nat) returns (id: nat)
      requires Valid() && !closed && bucket < cfg.buckets
      modifies Repr()
      ensures Valid() && fresh(Repr() - old(Repr())) && id == |old(View()).shards|
      ensures View() == old(View()).(shards := SealActive(old(View()), bucket) + [Empty(cfg.capacity)],
                                     gens := old(View()).gens[bucket := old(View()).gens[bucket] + [id]],
                                     active := old(View()).active[bucket := |old(View()).gens[bucket]|],
                                     route := old(View()).route[bucket := id])
      ensures Wal() == LogRotated(old(Wal()))
    {
      id := SwitchGeneration(bucket);
      RotateLog();
    }

    method SwitchGeneration(bucket: nat) returns (id: nat)
      requires Valid() && bucket < cfg.buckets
      modifies manager, manager.pool, router
      ensures Valid() && fresh(Repr() - old(Repr())) && id == |old(View()).shards|
      ensures View() == old(View()).(shards := SealActive(old(View()), bucket) + [Empty(cfg.capacity)],
                                     gens := old(View()).gens[bucket := old(View()).gens[bucket] + [id]],
                                     active := old(View()).active[bucket := |old(View()).gens[bucket]|],
                                     route := old(View()).route[bucket := id])
    {
      ghost var s := View();
      var next := manager.Rotate(bucket);
      id := next.ID;
      assert manager.pool[|old(manager.pool)|] == next;
      assert manager.States() == SealActive(s, bucket) + [Empty(cfg.capacity)];
      router.Switch(bucket, id);
    }

    method RotateLog()
      requires Valid() && !closed
      modifies Repr()
      ensures Valid() && fresh(Repr() - old(Repr())) && View() == old(View()) && Wal() == LogRotated(old(Wal()))
    {
      if wal != null {
        RotateWal();
        OnlyLogChanged();
      }
    }

    method RotateWal()
      requires wal != null && wal.Valid() && !wal.closed
      modifies wal, wal.dir, wal.open
      ensures wal.Valid() && !wal.closed && fresh(wal.Repr() - old(wal.Repr())) && Log() == old(Log())
      ensures wal.View() == WalRotate(old(wal.View()))
    {
      RotateMeans(wal.View());
      var _ := wal.Rotate();
    }

    method ArchiveBucket(bucket: int)
      requires Valid()
      modifies manager.pool
      ensures Valid() && Repr() == old(Repr()) && View() == StoreSpec.ArchiveBucket(old(View()), bucket)
    {
      if 0 <= bucket < cfg.buckets {
        RetireIsArchiveBucket(View(), bucket);
      }
      manager.Archive(bucket);
    }

    method Close()
      requires Valid()
      modifies Repr()
      ensures Valid() && Repr() == old(Repr()) && View() == old(View()).(closed := true)
      ensures Wal() == if old(closed) then old(Wal()) else LogClosed(old(Wal()))
    {
      if closed {
        return;
      }
      closed := true;
      if wal != null {
        wal.Close();
      }
      OnlyLogChanged();
    }

    // Recovery.

    /** Drops an edge while replaying; a missing edge or missing index entries are fine. */
    method ReplayRemoveEdge(id: string) returns (error: Option<Error>)
      requires Valid()
      modifies manager.pool, attrIndex
      ensures Valid() && Repr() == old(Repr())
      ensures Outcome(View(), error) == ReplayEvict(old(View()), id)
    {
      error := DropFromShard(id);
      if error == Some(EdgeNotFound) {
        return None;
      }
      if error.None? {
        var _ := Unindex(id);
      }
    }

    method ReplayRemoveAll(edges: seq<Edge>) returns (error: Option<Error>)
      requires Valid()
      modifies manager.pool, attrIndex
      ensures Valid() && Repr() == old(Repr())
      ensures Outcome(View(), error) == ReplayCleanup(old(View()), edges)
    {
      error := None;
      for i := 0 to |edges|
        invariant Valid() && Repr() == old(Repr()) && error == None
        invariant ReplayCleanup(View(), edges[i..]) == ReplayCleanup(old(View()), edges)
      {
        assert edges[i..][1..] == edges[i + 1..];
        error := ReplayRemoveEdge(edges[i].id);
        if error.Some? {
          return;
        }
      }
    }

    /** The replay callback: dispatches on the operation name. */
    method ReplayOne(r: Record) returns (error: Option<Error>)
      requires Valid()
      modifies this`vertices, this`vertexSeq, manager.pool, attrIndex
      ensures Valid() && Repr() == old(Repr())
      ensures Outcome(View(), error) == ReplayRecord(cfg, old(View()), r)
    {
      if r.op == "vertex" {
        StoreVertex(RecordedVertex(r));
        error := None;
      } else if r.op == "edge" {
        error := ReplayPut(RecordedEdge(r));
      } else if r.op == "edge-delete" {
        error := ReplayRemoveEdge(r.id);
      } else if r.op == "vertex-delete" {
        error := ReplayRemoveVertex(r.id, ReplayCleanup(View(), Incident(View(), r.id)));
      } else {
        error := Some(UnknownRecord);
      }
    }

    method ReplayRemoveVertex(v: string, ghost cleaned: Outcome) returns (error: Option<Error>)
      requires Valid() && cleaned == ReplayCleanup(View(), Incident(View(), v))
      modifies this`vertices, this`vertexSeq, manager.pool, attrIndex
      ensures Valid() && Repr() == old(Repr()) && error == cleaned.error
      ensures error.Some? ==> View() == cleaned.state
      ensures error.None? ==> View() == DropVertex(cleaned.state, v)
    {
      var incident := IncidentEdges(v);
      error := ReplayRemoveAll(incident);
      assert View() == cleaned.state;
      if error.None? {
        DropStoredVertex(v);
      }
    }

    method ReplayPut(e: Edge) returns (error: Option<Error>)
      requires Valid()
      modifies manager.pool, attrIndex
      ensures Valid() && Repr() == old(Repr())
      ensures Outcome(View(), error) == Place(old(View()), e, Target(old(View()), Bucket(cfg, e.Key())))
    {
      error := PlaceEdge(e, router.BucketOf(e.Key()));
      if error.None? {
        IndexPlaced(e);
      }
    }

    method ReplayNext(r: Record, ghost done: seq<Record>)
      returns (error: Option<Error>)
      requires Valid() && Replay(cfg, done).error == None && View() == Replay(cfg, done).state.(log := Log())
      modifies this`vertices, this`vertexSeq, manager.pool, attrIndex
      ensures Valid() && Repr() == old(Repr()) && Log() == old(Log())
      ensures error == Replay(cfg, done + [r]).error && View() == Replay(cfg, done + [r]).state.(log := Log())
    {
      ghost var log := Log();
      ReplaySnoc(cfg, done, r);
      ReplayIgnoresLog(cfg, Replay(cfg, done).state, log, r);
      error := ReplayOne(r);
    }

    method ReplayRecords(records: seq<Stamped>) returns (error: Option<Error>)
      requires Valid() && View() == Replay(cfg, []).state.(log := Log())
      modifies this`vertices, this`vertexSeq, manager.pool, attrIndex
      ensures Valid() && Repr() == old(Repr()) && Log() == old(Log())
      ensures error == Replay(cfg, Plain(records)).error && View() == Replay(cfg, Plain(records)).state.(log := Log())
    {
      error := None;
      ghost var all := Plain(records);
      PlainEnds(records);
      for i := 0 to |records|
        invariant Valid() && Repr() == old(Repr()) && Log() == old(Log()) && error == None
        invariant Replay(cfg, all[..i]).error == None && View() == Replay(cfg, all[..i]).state.(log := Log())
      {
        PlainStep(records, i);
        error := ReplayNext(records[i].record, all[..i]);
        if error.Some? {
          ReplayStops(cfg, all, i + 1);
          return;
        }
      }
    }

    /** Replays the log into this empty store. */
    method ReplayWal() returns (error: Option<Error>)
      requires Valid() && View() == FreshState(cfg).(log := Log())
      modifies this`vertices, this`vertexSeq, manager.pool, attrIndex
      ensures Valid() && Repr() == old(Repr()) && Log() == old(Log()) && (wal != null ==> wal.View() == old(wal.View()))
      ensures error == Replay(cfg, Log()).error && View() == Replay(cfg, Log()).state.(log := Log())
    {
      error := None;
      if wal != null {
        var records := wal.Replay();
        error := ReplayRecords(records);
      }
    }

    /** What opening a store finds in its log directory. */
    static ghost function Found(cfg: Config, dir: Directory): seq<Record>
      reads dir
    {
      if cfg.logged then Plain(Written(WalOpen(dir.files))) else []
    }

    static method Recover(cfg: Config, dir: Directory) returns (s: Store, error: Option<Error>)
      requires ValidConfig(cfg)
      ensures s.Valid() && fresh(s) && fresh(s.Repr() - {dir}) && s.cfg == cfg
      ensures var replayed := Replay(cfg, Found(cfg, dir));
              error == replayed.error && s.View() == replayed.state.(log := Found(cfg, dir))
      ensures s.wal != null ==> s.wal.View() == WalOpen(dir.files)
    {
      s := Blank(cfg, dir);
      assert s.Log() == Found(cfg, dir);
      error := s.ReplayWal();
    }

    /** Opens a store over a log directory. A failed replay gives no store, closes the log and leaves
        the directory as it was. */
    static method New(options: Options, hash: string -> nat, dir: Directory)
      returns (s: Store?, error: Option<Error>, ghost log: WAL?)
      ensures dir.files == old(dir.files)
      ensures var cfg := Normalize(options, hash);
              var replayed := Replay(cfg, Found(cfg, dir));
              && error == replayed.error && (s == null <==> error.Some?)
              && (s != null ==> s.Valid() && s.cfg == cfg && s.wal == log
                                && s.View() == replayed.state.(log := Found(cfg, dir)))
      ensures s != null ==> fresh(s) && fresh(s.Repr() - {dir})
      ensures s == null ==> log != null && log.Valid() && log.View() == WalClose(WalOpen(dir.files))
    {
      var store: Store;
      store, error := Recover(Normalize(options, hash), dir);
      log := store.wal;
      if error.Some? {
        store.wal.Close();
        s := null;
      } else {
        s := store;
      }
    }
  }

  // What an operation does to the log, where there is one.

  ghost function LogAppended(w: Option<WalState>, r: Record): Option<WalState> {
    if w.Some? then Some(WalAppend(w.value, r)) else None
  }

  ghost function LogRotated(w: Option<WalState>): Option<WalState> {
    if w.Some? then Some(WalRotate(w.value)) else None
  }

  ghost function LogClosed(w: Option<WalState>): Option<WalState> {
    if w.Some? then Some(WalClose(w.value)) else None
  }

  /** The shard a vertex hashes to, or 0 when its bucket has none. */
  function HomeShard(cfg: Config, route: seq<nat>, shards: seq<ShardState>, v: string): nat {
    var b := Bucket(cfg, v);
    if b < |route| && route[b] < |shards| then route[b] else 0
  }

  lemma ReplayEvictIgnoresLog(s: StoreState, log: seq<Record>, id: string)
    ensures ReplayEvict(s.(log := log), id) == Outcome(ReplayEvict(s, id).state.(log := log), ReplayEvict(s, id).error)
  {
  }

  lemma {:induction false} ReplayCleanupIgnoresLog(s: StoreState, log: seq<Record>, es: seq<Edge>)
    ensures ReplayCleanup(s.(log := log), es)
            == Outcome(ReplayCleanup(s, es).state.(log := log), ReplayCleanup(s, es).error)
    decreases |es|
  {
    if |es| > 0 {
      ReplayEvictIgnoresLog(s, log, es[0].id);
      ReplayCleanupIgnoresLog(ReplayEvict(s, es[0].id).state, log, es[1..]);
    }
  }

  lemma PlaceIgnoresLog(s: StoreState, log: seq<Record>, e: Edge, target: Option<nat>)
    ensures Place(s.(log := log), e, target)
            == Outcome(Place(s, e, target).state.(log := log), Place(s, e, target).error)
  {
  }

  /** Replaying a record neither reads nor writes the log. */
  lemma ReplayIgnoresLog(cfg: Config, s: StoreState, log: seq<Record>, r: Record)
    ensures ReplayRecord(cfg, s.(log := log), r)
            == Outcome(ReplayRecord(cfg, s, r).state.(log := log), ReplayRecord(cfg, s, r).error)
  {
    if r.op == "vertex" {
    } else if r.op == "edge" {
      PlaceIgnoresLog(s, log, RecordedEdge(r), Target(s, Bucket(cfg, RecordedEdge(r).Key())));
    } else if r.op == "edge-delete" {
      ReplayEvictIgnoresLog(s, log, r.id);
    } else if r.op == "vertex-delete" {
      ReplayCleanupIgnoresLog(s, log, Incident(s, r.id));
    }
  }

  /** Taking an edge out of its shard is the first half of an eviction. */
  lemma TakenIsEvict(s: StoreState, id: string)
    ensures var (shards, error) := Taken(Order(s), s.shards, id);
            if error.Some? then shards == s.shards && Evict(s, id) == Outcome(s, error)
            else Evict(s, id) == match UnindexEdge(s.index, id)
                                 case Err(reason) => Outcome(s.(shards := shards), Some(reason))
                                 case Ok(index) => Outcome(s.(shards := shards, index := index), None)
  {
  }

  lemma CleanupStep(s: StoreState, es: seq<Edge>, i: nat)
    requires i < |es|
    ensures var evicted := Evict(s, es[i].id);
            Cleanup(s, es[i..]) == if evicted.error.Some? then evicted else Cleanup(evicted.state, es[i + 1..])
  {
    assert es[i..][1..] == es[i + 1..];
  }

  lemma PlainStep(records: seq<Stamped>, i: nat)
    requires i < |records|
    ensures Plain(records)[..i + 1] == Plain(records)[..i] + [records[i].record]
  {
  }

  lemma PlainEnds(records: seq<Stamped>)
    ensures Plain(records)[..|records|] == Plain(records) && Plain(records)[..0] == []
  {
  }

  lemma {:induction false} ReplayStops(cfg: Config, log: seq<Record>, n: nat)
    requires n <= |log| && Replay(cfg, log[..n]).error.Some?
    ensures Replay(cfg, log) == Replay(cfg, log[..n])
    decreases |log| - n
  {
    if n == |log| {
      assert log[..n] == log;
    } else {
      assert log[..n + 1][..n] == log[..n];
      ReplayStops(cfg, log, n + 1);
    }
  }
}
