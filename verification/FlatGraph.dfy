/** The flat graph behind the shards: one map from id to edge, and what each operation does to it. */
module FlatGraph {
  import opened Seqs
  import opened GraphModel
  import opened ShardSpec
  import opened StoreSpec
  import opened Routing

  ghost predicate IdFree(shards: seq<ShardState>, id: string) {
    forall i :: 0 <= i < |shards| ==> !HasId(shards[i].live, id)
  }

  /** No two stored edges share an id, neither in one generation nor across generations. */
  ghost predicate UniqueIds(shards: seq<ShardState>) {
    && (forall i :: 0 <= i < |shards| ==> DistinctIds(shards[i].live))
    && (forall i, j, id {:trigger HasId(shards[i].live, id), HasId(shards[j].live, id)} ::
          (0 <= i < |shards| && 0 <= j < |shards| && HasId(shards[i].live, id) && HasId(shards[j].live, id)) ==> i == j)
  }

  lemma SameIdSameEdge(shards: seq<ShardState>, a: Edge, b: Edge)
    requires UniqueIds(shards) && a in EdgeSet(shards) && b in EdgeSet(shards) && a.id == b.id
    ensures a == b
  {
    var i, j :| 0 <= i < |shards| && a in shards[i].live && 0 <= j < |shards| && b in shards[j].live;
    assert HasId(shards[i].live, a.id) && HasId(shards[j].live, a.id);
    DistinctById(shards[i].live, a, b);
  }

  lemma SameIdSameEdges(shards: seq<ShardState>)
    requires UniqueIds(shards)
    ensures forall a, b :: a in EdgeSet(shards) && b in EdgeSet(shards) && a.id == b.id ==> a == b
  {
    forall a, b | a in EdgeSet(shards) && b in EdgeSet(shards) && a.id == b.id ensures a == b {
      SameIdSameEdge(shards, a, b);
    }
  }

  ghost function Flat(shards: seq<ShardState>): (m: map<string, Edge>)
    requires UniqueIds(shards)
    ensures forall id :: id in m ==> m[id] in EdgeSet(shards) && m[id].id == id
    ensures forall e :: e in EdgeSet(shards) ==> e.id in m && m[e.id] == e
  {
    SameIdSameEdges(shards);
    map e | e in EdgeSet(shards) :: e.id := e
  }

  ghost function WithoutId(es: set<Edge>, id: string): set<Edge> {
    set e | e in es && e.id != id
  }

  ghost function WithoutTouching(es: set<Edge>, v: string): set<Edge> {
    set e | e in es && !Touches(e, v)
  }

  lemma FreeMeansAbsent(shards: seq<ShardState>, id: string)
    ensures IdFree(shards, id) <==> forall e :: e in EdgeSet(shards) ==> e.id != id
    ensures IdFree(shards, id) ==> WithoutId(EdgeSet(shards), id) == EdgeSet(shards)
  {
    assert forall i, e :: 0 <= i < |shards| && e in shards[i].live ==> e in EdgeSet(shards);
    forall e | e in EdgeSet(shards) && IdFree(shards, id) ensures e.id != id {
      var i :| 0 <= i < |shards| && e in shards[i].live;
      assert !HasId(shards[i].live, id);
    }
  }

  lemma EdgeSetUpdate(shards: seq<ShardState>, i: nat, sh: ShardState)
    requires i < |shards|
    ensures EdgeSet(shards[i := sh]) == (set j, e | 0 <= j < |shards| && j != i && e in shards[j].live :: e)
            + (set e | e in sh.live)
  {
    var t := shards[i := sh];
    forall e | e in sh.live ensures e in EdgeSet(t) {
      assert t[i] == sh;
    }
    forall j, e | 0 <= j < |shards| && j != i && e in shards[j].live ensures e in EdgeSet(t) {
      assert t[j] == shards[j];
    }
  }

  lemma UniqueAfterAdd(shards: seq<ShardState>, i: nat, e: Edge)
    requires UniqueIds(shards) && i < |shards| && !HasId(shards[i].live, e.id)
    ensures UniqueIds(shards[i := shards[i].(live := shards[i].live + [e])]) <==> IdFree(shards, e.id)
  {
    var t := shards[i := shards[i].(live := shards[i].live + [e])];
    assert e in t[i].live;
    assert HasId(t[i].live, e.id);
    forall j, id | 0 <= j < |t| ensures HasId(t[j].live, id) <==> HasId(shards[j].live, id) || (j == i && id == e.id) {
      if j == i {
        assert forall f :: f in t[i].live <==> f in shards[i].live || f == e;
      }
    }
    if !IdFree(shards, e.id) {
      var j :| 0 <= j < |shards| && HasId(shards[j].live, e.id);
      assert HasId(t[j].live, e.id) && j != i;
    }
  }

  /** A put adds exactly its edge; ids stay unique exactly when no generation held the new id. */
  lemma PlaceEffect(s: StoreState, e: Edge, target: Option<nat>)
    requires Place(s, e, target).error.None?
    ensures EdgeSet(Place(s, e, target).state.shards) == EdgeSet(s.shards) + {e}
    ensures UniqueIds(s.shards) ==> (UniqueIds(Place(s, e, target).state.shards) <==> IdFree(s.shards, e.id))
  {
    var t := Place(s, e, target).state;
    var i := target.value;
    EdgeSetUpdate(s.shards, i, t.shards[i]);
    EdgeSetUpdate(s.shards, i, s.shards[i]);
    assert s.shards[i := s.shards[i]] == s.shards;
    if UniqueIds(s.shards) {
      UniqueAfterAdd(s.shards, i, e);
    }
  }

  /** Taking an edge out by id from the generation that holds it takes it out of the graph. */
  lemma RemovalEffect(shards: seq<ShardState>, i: nat, id: string)
    requires UniqueIds(shards) && i < |shards| && HasId(shards[i].live, id)
    ensures var t := shards[i := shards[i].(live := Filter(shards[i].live, IdIsNot(id)))];
            EdgeSet(t) == WithoutId(EdgeSet(shards), id) && UniqueIds(t) && IdFree(t, id)
  {
    var rest := Filter(shards[i].live, IdIsNot(id));
    var t := shards[i := shards[i].(live := rest)];
    FilterMembers(shards[i].live, IdIsNot(id));
    FilterDistinct(shards[i].live, IdIsNot(id));
    EdgeSetUpdate(shards, i, t[i]);
    EdgeSetUpdate(shards, i, shards[i]);
    assert shards[i := shards[i]] == shards;
    forall j | 0 <= j < |shards| && j != i ensures !HasId(shards[j].live, id) {
    }
    assert forall j, e :: 0 <= j < |shards| && j != i && e in shards[j].live ==> e.id != id;
    forall j, x | 0 <= j < |t| && HasId(t[j].live, x) ensures HasId(shards[j].live, x) && x != id {
    }
  }

  /** Evicting an id: nothing when absent, a refusal when its generation is archived, and otherwise
      exactly that edge leaves the graph, whether or not the index then complains. */
  lemma EvictEffect(cfg: Config, s: StoreState, id: string)
    requires Routed(cfg, s) && UniqueIds(s.shards)
    ensures UniqueIds(Evict(s, id).state.shards)
    ensures IdFree(s.shards, id) ==> Evict(s, id) == Outcome(s, Some(EdgeNotFound))
                                     && ReplayEvict(s, id) == Outcome(s, None)
    ensures forall i :: 0 <= i < |s.shards| && HasId(s.shards[i].live, id) ==>
              if s.shards[i].phase == Archived
              then Evict(s, id) == Outcome(s, Some(ShardArchived))
                   && ReplayEvict(s, id) == Outcome(s, Some(ShardArchived))
              else
                && Evict(s, id).state.shards
                    == s.shards[i := s.shards[i].(live := Filter(s.shards[i].live, IdIsNot(id)))]
                && EdgeSet(Evict(s, id).state.shards) == WithoutId(EdgeSet(s.shards), id)
                && IdFree(Evict(s, id).state.shards, id)
                && ReplayEvict(s, id) == Outcome(Evict(s, id).state, None)
  {
    var found := Locate(Order(s), s.shards, id);
    forall i: nat | i < |s.shards| ensures i in Order(s) {
      OrderCovers(cfg, s, i);
    }
    if found.Some? {
      RemovalEffect(s.shards, found.value, id);
    }
  }
}
