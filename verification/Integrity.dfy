/** What the store keeps true while edge ids stay unique: listed vertices, an index equal to a scan,
    label entries that name live vertices, and anchored edges. */
module Integrity {
  import opened Seqs
  import opened GraphModel
  import opened ShardSpec
  import opened IndexSpec
  import opened LabelSpec
  import opened StoreSpec
  import opened Routing
  import opened FlatGraph

  ghost predicate VerticesListed(s: StoreState) {
    && NoDup(s.vertexSeq)
    && (forall id :: id in s.vertexSeq <==> id in s.vertices)
    && (forall id :: id in s.vertices ==> s.vertices[id].id == id)
  }

  ghost predicate DisjointIds(es: set<Edge>, vs: map<string, Vertex>) {
    forall e :: e in es ==> e.id !in vs
  }

  /** The relation a scan of the graph would produce. */
  ghost function ScanPairs(es: set<Edge>, vs: map<string, Vertex>): set<(string, string)> {
    (set e, x | e in es && x in Entries("", e.attrs) :: (x, e.id))
    + (set id, x | id in vs && x in Entries(VERTEX_PREFIX, vs[id].attrs) :: (x, id))
  }

  ghost predicate Indexed(s: StoreState) {
    && s.index.pairs == ScanPairs(EdgeSet(s.shards), s.vertices)
    && (forall e :: e in EdgeSet(s.shards) ==> e.id in s.index.counted)
  }

  /** Every label entry names a stored vertex that carries the label, once. */
  ghost predicate Labelled(labels: Labels, vs: map<string, Vertex>) {
    forall tag :: tag in labels ==>
      && tag != "" && labels[tag] != [] && NoDup(labels[tag])
      && (forall id :: id in labels[tag] ==> id in vs && vs[id].tag == tag)
  }

  /** Referential integrity. */
  ghost predicate Anchored(es: set<Edge>, vs: map<string, Vertex>) {
    forall e :: e in es ==> e.from in vs && e.to in vs
  }

  ghost predicate Sound(cfg: Config, s: StoreState) {
    && Routed(cfg, s)
    && UniqueIds(s.shards)
    && VerticesListed(s)
    && DisjointIds(EdgeSet(s.shards), s.vertices)
    && Indexed(s)
  }

  ghost predicate Kept(cfg: Config, s: StoreState) {
    Sound(cfg, s) && Labelled(s.labels, s.vertices)
  }

  // The index follows the graph.

  lemma ScanPutEdge(es: set<Edge>, vs: map<string, Vertex>, e: Edge)
    ensures ScanPairs(es + {e}, vs) == ScanPairs(es, vs) + EdgePairs(e)
  {
  }

  lemma ScanPutVertex(es: set<Edge>, vs: map<string, Vertex>, v: Vertex)
    requires v.id !in vs
    ensures ScanPairs(es, vs[v.id := v]) == ScanPairs(es, vs) + VertexPairs(v)
  {
  }

  lemma ScanDropId(es: set<Edge>, vs: map<string, Vertex>, id: string)
    requires id !in vs
    ensures ScanPairs(es, vs) - PairsOf(ScanPairs(es, vs), id) == ScanPairs(WithoutId(es, id), vs)
  {
  }

  lemma ScanDropVertex(es: set<Edge>, vs: map<string, Vertex>, v: string)
    requires forall e :: e in es ==> e.id != v
    ensures ScanPairs(es, vs) - PairsOf(ScanPairs(es, vs), v) == ScanPairs(es, vs - {v})
  {
  }

  /** An edge has index entries exactly when it has attributes. */
  lemma EntriesMeanAttributes(s: StoreState, e: Edge)
    requires UniqueIds(s.shards) && DisjointIds(EdgeSet(s.shards), s.vertices) && Indexed(s) && e in EdgeSet(s.shards)
    ensures PairsOf(s.index.pairs, e.id) == {} <==> e.attrs == map[]
  {
    if e.attrs != map[] {
      var k :| k in e.attrs;
      assert AttrEntry("" + k, e.attrs[k]) in Entries("", e.attrs);
      assert (AttrEntry("" + k, e.attrs[k]), e.id) in PairsOf(s.index.pairs, e.id);
    } else {
      forall p | p in s.index.pairs ensures p.1 != e.id {
        if p.1 == e.id {
          var f :| f in EdgeSet(s.shards) && p.0 in Entries("", f.attrs) && f.id == e.id;
          SameIdSameEdge(s.shards, e, f);
        }
      }
    }
  }

  // Eviction.

  ghost predicate Frozen(s: StoreState, id: string) {
    exists i :: 0 <= i < |s.shards| && HasId(s.shards[i].live, id) && s.shards[i].phase == Archived
  }

  /** An edge can be taken out cleanly: its generation still accepts removals and the index knows it. */
  ghost predicate Removable(s: StoreState, e: Edge) {
    e.attrs != map[] && !Frozen(s, e.id)
  }

  /** Two states that differ at most in the shards' edges and in the index. */
  ghost predicate SameBut(s: StoreState, t: StoreState) {
    t == s.(shards := t.shards, index := t.index)
  }

  lemma DropKeeps(cfg: Config, s: StoreState, t: StoreState, id: string)
    requires Kept(cfg, s) && SameBut(s, t) && id !in s.vertices
    requires Routed(cfg, t) && UniqueIds(t.shards) && EdgeSet(t.shards) == WithoutId(EdgeSet(s.shards), id)
    requires t.index.pairs == s.index.pairs - PairsOf(s.index.pairs, id) && s.index.counted - {id} <= t.index.counted
    ensures Kept(cfg, t)
  {
    ScanDropId(EdgeSet(s.shards), s.vertices, id);
  }

  lemma EvictSameBut(s: StoreState, id: string)
    ensures SameBut(s, Evict(s, id).state) && SameLayout(s, Evict(s, id).state)
  {
  }

  lemma EvictUnindexes(s: StoreState, id: string)
    requires Evict(s, id).state.shards != s.shards
    ensures var index := Evict(s, id).state.index;
            index.pairs == s.index.pairs - PairsOf(s.index.pairs, id) && s.index.counted - {id} <= index.counted
  {
  }

  lemma EvictStaysKept(cfg: Config, s: StoreState, e: Edge)
    requires Kept(cfg, s) && e in EdgeSet(s.shards) && !Frozen(s, e.id)
    ensures Kept(cfg, Evict(s, e.id).state)
  {
    var i :| 0 <= i < |s.shards| && e in s.shards[i].live;
    assert HasId(s.shards[i].live, e.id);
    EvictEffect(cfg, s, e.id);
    EvictKeepsRouted(cfg, s, e.id);
    EvictSameBut(s, e.id);
    assert e !in WithoutId(EdgeSet(s.shards), e.id);
    EvictUnindexes(s, e.id);
    DropKeeps(cfg, s, Evict(s, e.id).state, e.id);
  }

  lemma EvictOutcome(cfg: Config, s: StoreState, e: Edge)
    requires Kept(cfg, s) && e in EdgeSet(s.shards)
    ensures Frozen(s, e.id) ==> Evict(s, e.id) == Outcome(s, Some(ShardArchived))
    ensures !Frozen(s, e.id) ==> EdgeSet(Evict(s, e.id).state.shards) == WithoutId(EdgeSet(s.shards), e.id)
    ensures Evict(s, e.id).error.None? <==> Removable(s, e)
  {
    var i :| 0 <= i < |s.shards| && e in s.shards[i].live;
    assert HasId(s.shards[i].live, e.id);
    EvictEffect(cfg, s, e.id);
    EntriesMeanAttributes(s, e);
  }

  lemma EvictError(cfg: Config, s: StoreState, e: Edge)
    requires Kept(cfg, s) && e in EdgeSet(s.shards) && !Removable(s, e)
    ensures Evict(s, e.id).error == Some(if Frozen(s, e.id) then ShardArchived else EntryMissing)
  {
    var i :| 0 <= i < |s.shards| && e in s.shards[i].live;
    assert HasId(s.shards[i].live, e.id);
    EvictEffect(cfg, s, e.id);
    EntriesMeanAttributes(s, e);
  }

  lemma EvictKeeps(cfg: Config, s: StoreState, e: Edge)
    requires Kept(cfg, s) && e in EdgeSet(s.shards)
    ensures SameBut(s, Evict(s, e.id).state) && SameLayout(s, Evict(s, e.id).state)
    ensures Kept(cfg, Evict(s, e.id).state)
    ensures Frozen(s, e.id) ==> Evict(s, e.id) == Outcome(s, Some(ShardArchived))
    ensures !Frozen(s, e.id) ==> EdgeSet(Evict(s, e.id).state.shards) == WithoutId(EdgeSet(s.shards), e.id)
    ensures Evict(s, e.id).error.None? <==> Removable(s, e)
  {
    EvictSameBut(s, e.id);
    EvictOutcome(cfg, s, e);
    if !Frozen(s, e.id) {
      EvictStaysKept(cfg, s, e);
    }
  }

  lemma EvictKeepsFrozen(s: StoreState, gone: string, id: string)
    requires id != gone
    ensures Frozen(Evict(s, gone).state, id) <==> Frozen(s, id)
  {
    var found := Locate(Order(s), s.shards, gone);
    if found.Some? {
      FilterMembers(s.shards[found.value].live, IdIsNot(gone));
      var t := Evict(s, gone).state;
      forall i | 0 <= i < |s.shards| ensures HasId(t.shards[i].live, id) <==> HasId(s.shards[i].live, id) {
      }
    }
  }

  ghost function WithoutAll(es: set<Edge>, gone: seq<Edge>): set<Edge> {
    set e | e in es && e !in gone
  }

  lemma DropFirst(shards: seq<ShardState>, es: seq<Edge>, k: nat)
    requires UniqueIds(shards) && 0 < k <= |es| && es[0] in EdgeSet(shards)
    ensures WithoutAll(WithoutId(EdgeSet(shards), es[0].id), es[1..][..k - 1]) == WithoutAll(EdgeSet(shards), es[..k])
  {
    SameIdSameEdges(shards);
    assert es[..k] == [es[0]] + es[1..][..k - 1];
  }

  lemma RestSurvives(cfg: Config, s: StoreState, es: seq<Edge>)
    requires Kept(cfg, s) && DistinctIds(es) && |es| > 0 && forall e :: e in es ==> e in EdgeSet(s.shards)
    requires !Frozen(s, es[0].id)
    ensures var t := Evict(s, es[0].id).state;
            forall f :: f in es[1..] ==> f in EdgeSet(t.shards) && (Removable(t, f) <==> Removable(s, f))
  {
    var t := Evict(s, es[0].id).state;
    EvictKeeps(cfg, s, es[0]);
    forall f | f in es[1..] ensures f in EdgeSet(t.shards) && (Removable(t, f) <==> Removable(s, f)) {
      EvictKeepsFrozen(s, es[0].id, f.id);
    }
  }

  lemma {:induction false} CleanupKeeps(cfg: Config, s: StoreState, es: seq<Edge>)
    requires Kept(cfg, s) && DistinctIds(es) && forall e :: e in es ==> e in EdgeSet(s.shards)
    ensures SameBut(s, Cleanup(s, es).state)
    ensures Kept(cfg, Cleanup(s, es).state)
    decreases |es|
  {
    if |es| > 0 {
      EvictKeeps(cfg, s, es[0]);
      if Evict(s, es[0].id).error.None? {
        RestSurvives(cfg, s, es);
        CleanupKeeps(cfg, Evict(s, es[0].id).state, es[1..]);
      }
    }
  }

  lemma HeadAndTailRemovable(s: StoreState, es: seq<Edge>)
    requires |es| > 0
    ensures (forall e :: e in es ==> Removable(s, e))
            <==> Removable(s, es[0]) && forall e :: e in es[1..] ==> Removable(s, e)
  {
    assert es == [es[0]] + es[1..];
  }

  /** Cleaning up a list of live edges goes through exactly when every edge is removable. */
  lemma {:induction false} CleanupSucceedsWhen(cfg: Config, s: StoreState, es: seq<Edge>)
    requires Kept(cfg, s) && DistinctIds(es) && forall e :: e in es ==> e in EdgeSet(s.shards)
    ensures Cleanup(s, es).error.None? <==> forall e :: e in es ==> Removable(s, e)
    decreases |es|
  {
    if |es| > 0 {
      EvictKeeps(cfg, s, es[0]);
      if Removable(s, es[0]) {
        RestSurvives(cfg, s, es);
        CleanupSucceedsWhen(cfg, Evict(s, es[0].id).state, es[1..]);
        HeadAndTailRemovable(s, es);
      }
    }
  }

  /** Edge j is the first of the list that cannot be taken out cleanly. */
  ghost predicate FirstStuck(s: StoreState, es: seq<Edge>, j: nat) {
    j < |es| && !Removable(s, es[j]) && forall i :: 0 <= i < j ==> Removable(s, es[i])
  }

  /** A cleanup that meets edge j last has dropped the edges before it and, unless it is frozen, that one too. */
  ghost predicate StoppedAt(s: StoreState, es: seq<Edge>, j: nat, k: nat, error: Option<Error>) {
    && FirstStuck(s, es, j)
    && k == (if Frozen(s, es[j].id) then j else j + 1)
    && error == Some(if Frozen(s, es[j].id) then ShardArchived else EntryMissing)
  }

  lemma StuckLater(cfg: Config, s: StoreState, es: seq<Edge>, j: nat)
    requires Kept(cfg, s) && DistinctIds(es) && forall e :: e in es ==> e in EdgeSet(s.shards)
    requires FirstStuck(s, es, j) && j > 0
    ensures var t := Evict(s, es[0].id).state;
            FirstStuck(t, es[1..], j - 1) && (Frozen(t, es[j].id) <==> Frozen(s, es[j].id))
  {
    var t := Evict(s, es[0].id).state;
    RestSurvives(cfg, s, es);
    forall i | 0 <= i < |es| - 1 ensures Removable(t, es[1..][i]) <==> Removable(s, es[i + 1]) {
      assert es[1..][i] in es[1..];
    }
    EvictKeepsFrozen(s, es[0].id, es[j].id);
  }

  /** Cleaning up the rest of a list after its first edge amounts to cleaning up the list. */
  lemma EvictFirst(cfg: Config, s: StoreState, es: seq<Edge>, k: nat)
    requires Kept(cfg, s) && DistinctIds(es) && 0 < k <= |es| && forall e :: e in es ==> e in EdgeSet(s.shards)
    requires !Frozen(s, es[0].id)
    ensures var t := Evict(s, es[0].id).state;
            && Kept(cfg, t) && DistinctIds(es[1..]) && (forall e :: e in es[1..] ==> e in EdgeSet(t.shards))
            && WithoutAll(EdgeSet(t.shards), es[1..][..k - 1]) == WithoutAll(EdgeSet(s.shards), es[..k])
  {
    EvictKeeps(cfg, s, es[0]);
    RestSurvives(cfg, s, es);
    DropFirst(s.shards, es, k);
  }

  /** A cleanup that meets a stuck edge stops there, with the edges before it gone. */
  lemma {:induction false} CleanupStops(cfg: Config, s: StoreState, es: seq<Edge>, j: nat, k: nat)
    requires Kept(cfg, s) && DistinctIds(es) && forall e :: e in es ==> e in EdgeSet(s.shards)
    requires FirstStuck(s, es, j) && k == if Frozen(s, es[j].id) then j else j + 1
    ensures StoppedAt(s, es, j, k, Cleanup(s, es).error)
    ensures EdgeSet(Cleanup(s, es).state.shards) == WithoutAll(EdgeSet(s.shards), es[..k])
    ensures k == 0 ==> Cleanup(s, es).state == s
    decreases |es|
  {
    if j == 0 {
      EvictError(cfg, s, es[0]);
      EvictOutcome(cfg, s, es[0]);
      if k > 0 {
        EvictFirst(cfg, s, es, k);
        assert es[1..][..0] == [];
      }
    } else {
      EvictOutcome(cfg, s, es[0]);
      EvictFirst(cfg, s, es, k);
      StuckLater(cfg, s, es, j);
      assert es[1..][j - 1] == es[j];
      CleanupStops(cfg, Evict(s, es[0].id).state, es[1..], j - 1, k - 1);
    }
  }

  lemma {:induction false} CleanupClears(cfg: Config, s: StoreState, es: seq<Edge>)
    requires Kept(cfg, s) && DistinctIds(es) && forall e :: e in es ==> e in EdgeSet(s.shards) && Removable(s, e)
    ensures Cleanup(s, es).error.None? && EdgeSet(Cleanup(s, es).state.shards) == WithoutAll(EdgeSet(s.shards), es)
    decreases |es|
  {
    if |es| > 0 {
      EvictOutcome(cfg, s, es[0]);
      EvictFirst(cfg, s, es, |es|);
      RestSurvives(cfg, s, es);
      CleanupClears(cfg, Evict(s, es[0].id).state, es[1..]);
      assert es[..|es|] == es && es[1..][..|es| - 1] == es[1..];
    }
  }

  lemma {:induction false} StuckOrClear(s: StoreState, es: seq<Edge>, n: nat) returns (j: nat)
    requires n <= |es|
    ensures j <= n && (j < n ==> FirstStuck(s, es, j)) && forall i :: 0 <= i < j ==> Removable(s, es[i])
  {
    j := 0;
    if n > 0 {
      j := StuckOrClear(s, es, n - 1);
      if j == n - 1 && Removable(s, es[j]) {
        j := n;
      }
    }
  }

  /** It evicts a prefix of the list: all of it on success, otherwise up to the first edge that is stuck. */
  lemma CleanupEvictsPrefix(cfg: Config, s: StoreState, es: seq<Edge>) returns (k: nat)
    requires Kept(cfg, s) && DistinctIds(es) && forall e :: e in es ==> e in EdgeSet(s.shards)
    ensures k <= |es|
    ensures EdgeSet(Cleanup(s, es).state.shards) == WithoutAll(EdgeSet(s.shards), es[..k])
    ensures Cleanup(s, es).error.None? ==> k == |es|
    ensures k == 0 ==> Cleanup(s, es).state == s
    ensures k == 0 <==> es == [] || Frozen(s, es[0].id)
    ensures Cleanup(s, es).error.Some? ==> exists j :: StoppedAt(s, es, j, k, Cleanup(s, es).error)
  {
    var j := StuckOrClear(s, es, |es|);
    if j < |es| {
      k := if Frozen(s, es[j].id) then j else j + 1;
      CleanupStops(cfg, s, es, j, k);
      assert j > 0 ==> Removable(s, es[0]);
    } else {
      k := |es|;
      CleanupClears(cfg, s, es);
      assert es[..|es|] == es;
      assert |es| > 0 ==> Removable(s, es[0]);
    }
  }

  // Incident edges.

  lemma {:induction false} TouchingMembers(order: seq<nat>, shards: seq<ShardState>, v: string)
    ensures forall e :: e in TouchingIn(order, shards, v)
              <==> exists i :: i in order && i < |shards| && e in shards[i].live && Touches(e, v)
  {
    if |order| > 0 {
      var init, i := order[..|order| - 1], order[|order| - 1];
      TouchingMembers(init, shards, v);
      assert order == init + [i];
      if i < |shards| {
        FilterMembers(shards[i].live, FromIs(v));
        FilterMembers(shards[i].live, ToIs(v));
      }
    }
  }

  lemma {:induction false} FirstByIdMembers(es: seq<Edge>)
    ensures DistinctIds(FirstById(es))
    ensures forall e :: e in FirstById(es) ==> e in es
    ensures forall e :: e in es ==> HasId(FirstById(es), e.id)
  {
    if |es| > 0 {
      var init, e := es[..|es| - 1], es[|es| - 1];
      FirstByIdMembers(init);
      assert es == init + [e];
      if !HasId(init, e.id) {
        assert e in FirstById(es);
      } else {
        var f :| f in init && f.id == e.id;
        assert HasId(FirstById(init), f.id);
      }
    }
  }

  /** The incident edges are exactly the live edges at the vertex, a self-loop once. */
  lemma IncidentMembers(cfg: Config, s: StoreState, v: string)
    requires Routed(cfg, s) && UniqueIds(s.shards)
    ensures DistinctIds(Incident(s, v))
    ensures forall e :: e in Incident(s, v) <==> e in EdgeSet(s.shards) && Touches(e, v)
  {
    var touching := TouchingIn(Order(s), s.shards, v);
    TouchingMembers(Order(s), s.shards, v);
    FirstByIdMembers(touching);
    assert Incident(s, v) == FirstById(touching);
    forall e | e in EdgeSet(s.shards) && Touches(e, v) ensures e in Incident(s, v) {
      var i :| 0 <= i < |s.shards| && e in s.shards[i].live;
      OrderCovers(cfg, s, i);
      assert e in touching;
      var f :| f in Incident(s, v) && f.id == e.id;
      assert f in touching;
      SameIdSameEdge(s.shards, e, f);
    }
  }

  ghost predicate AllRemovable(s: StoreState, v: string) {
    forall e :: e in EdgeSet(s.shards) && Touches(e, v) ==> Removable(s, e)
  }

  /** Taking out the incident edges leaves exactly the edges that do not touch the vertex. */
  lemma WithoutIncident(cfg: Config, s: StoreState, v: string)
    requires Kept(cfg, s)
    ensures WithoutAll(EdgeSet(s.shards), Incident(s, v)) == WithoutTouching(EdgeSet(s.shards), v)
  {
    IncidentMembers(cfg, s, v);
  }

  /** Deleting a vertex succeeds exactly on an open store that holds it and can take out every edge
      at it; then exactly those edges and the vertex go. A failed delete keeps the vertex. */
  lemma DeleteVertexEffect(cfg: Config, s: StoreState, v: string) returns (k: nat)
    requires Kept(cfg, s)
    ensures k <= |Incident(s, v)|
    ensures DeleteVertex(cfg, s, v).error.None? <==> !s.closed && v in s.vertices && AllRemovable(s, v)
    ensures DeleteVertex(cfg, s, v).error.None? ==>
              var t := DeleteVertex(cfg, s, v).state;
              && EdgeSet(t.shards) == WithoutTouching(EdgeSet(s.shards), v)
              && t.vertices == s.vertices - {v} && t.vertexSeq == Filter(s.vertexSeq, IsNot(v))
              && t.log == Logging(cfg, s, VertexDeleteRecord(v))
    ensures DeleteVertex(cfg, s, v).error.Some? ==>
              var t := DeleteVertex(cfg, s, v).state;
              && SameBut(s, t) && Kept(cfg, t)
              && EdgeSet(t.shards) == WithoutAll(EdgeSet(s.shards), Incident(s, v)[..k])
              && (k == 0 ==> t == s)
    ensures DeleteVertex(cfg, s, v).error.Some? ==>
              (k == 0 <==> s.closed || v !in s.vertices || Frozen(s, Incident(s, v)[0].id))
    ensures DeleteVertex(cfg, s, v).error.Some? && !s.closed && v in s.vertices ==>
              exists j :: StoppedAt(s, Incident(s, v), j, k, DeleteVertex(cfg, s, v).error)
  {
    k := 0;
    if !s.closed && v in s.vertices {
      IncidentMembers(cfg, s, v);
      WithoutIncident(cfg, s, v);
      var incident := Incident(s, v);
      CleanupKeeps(cfg, s, incident);
      CleanupSucceedsWhen(cfg, s, incident);
      k := CleanupEvictsPrefix(cfg, s, incident);
      assert incident[..|incident|] == incident;
    }
  }

  // What each write keeps.

  lemma FreshIsKept(cfg: Config)
    requires ValidConfig(cfg)
    ensures Kept(cfg, FreshState(cfg)) && EdgeSet(FreshState(cfg).shards) == {}
  {
    FreshIsRouted(cfg);
  }

  lemma PutVertexKeeps(cfg: Config, s: StoreState, t: StoreState, v: Vertex)
    requires Sound(cfg, s) && v.id !in s.vertices && IdFree(s.shards, v.id)
    requires t.shards == s.shards && SameLayout(s, t)
    requires t.vertices == s.vertices[v.id := v] && t.vertexSeq == s.vertexSeq + [v.id]
             && t.index == IndexVertex(s.index, v)
    ensures Sound(cfg, t) && (Labelled(s.labels, s.vertices) ==> Labelled(s.labels, t.vertices))
  {
    LayoutKeepsRouted(cfg, s, t);
    ScanPutVertex(EdgeSet(s.shards), s.vertices, v);
    NoDupConcat(s.vertexSeq, [v.id]);
    FreeMeansAbsent(s.shards, v.id);
  }

  lemma PlaceKeeps(cfg: Config, s: StoreState, e: Edge, target: Option<nat>)
    requires Sound(cfg, s) && Place(s, e, target).error.None? && IdFree(s.shards, e.id) && e.id !in s.vertices
    ensures Sound(cfg, Place(s, e, target).state)
    ensures EdgeSet(Place(s, e, target).state.shards) == EdgeSet(s.shards) + {e}
  {
    PlaceKeepsRouted(cfg, s, e, target);
    PlaceEffect(s, e, target);
    ScanPutEdge(EdgeSet(s.shards), s.vertices, e);
  }

  lemma DropVertexKeeps(cfg: Config, s: StoreState, v: string)
    requires Sound(cfg, s) && v in s.vertices
    ensures Sound(cfg, DropVertex(s, v))
  {
    var t := DropVertex(s, v);
    LayoutKeepsRouted(cfg, s, t);
    ScanDropVertex(EdgeSet(s.shards), s.vertices, v);
    FilterNoDup(s.vertexSeq, IsNot(v));
    FilterMembers(s.vertexSeq, IsNot(v));
  }

  lemma RemoveLabelKeeps(labels: Labels, vs: map<string, Vertex>, v: string)
    requires Labelled(labels, vs) && v in vs && vs[v].id == v
    ensures Labelled(if vs[v].tag != "" then RemoveLabel(labels, vs[v].tag, v) else labels, vs - {v})
  {
    var tag := vs[v].tag;
    var ids := Entered(labels, tag);
    if v in ids {
      var k := IndexOf(ids, v);
      var rest := ids[..k] + ids[k + 1..];
      assert NoDup(rest) && v !in rest;
      assert forall x :: x in rest ==> x in ids;
    }
  }

  /** Anything that only changes the log, the closed flag or published labels. */
  lemma OutsideKeeps(cfg: Config, s: StoreState, t: StoreState)
    requires Sound(cfg, s) && t == s.(labels := t.labels, log := t.log, closed := t.closed)
    ensures Sound(cfg, t)
  {
    LayoutKeepsRouted(cfg, s, t);
  }
}
