/** The generation table and the router (internal/shard/manager.go, internal/shard/route.go). */
module Generations {
  import opened Seqs
  import opened GraphModel
  import opened ShardSpec
  import opened Shards
  import opened StoreSpec
  import opened Routing
  import Queries

  function GenIds(gens: seq<seq<Shard>>): seq<seq<nat>> {
    seq(|gens|, b requires 0 <= b < |gens| => seq(|gens[b]|, k requires 0 <= k < |gens[b]| => gens[b][k].ID))
  }

  ghost predicate Covers(ids: seq<seq<nat>>, count: nat) {
    forall i: nat :: i < count ==> InGens(ids, i)
  }

  lemma AppendedCovers(ids: seq<seq<nat>>, bucket: nat, count: nat)
    requires Covers(ids, count) && bucket < |ids|
    ensures Covers(ids[bucket := ids[bucket] + [count]], count + 1)
  {
    var after := ids[bucket := ids[bucket] + [count]];
    forall i: nat | i < count + 1 ensures InGens(after, i) {
      if i == count {
        assert after[bucket][|ids[bucket]|] == i;
      } else {
        assert InGens(ids, i);
        var b, k :| 0 <= b < |ids| && 0 <= k < |ids[b]| && ids[b][k] == i;
        assert after[b][k] == i;
      }
    }
  }

  /** The live edges of some shards, one shard after the other. */
  ghost function LiveOf(all: seq<Shard>): seq<Edge>
    reads all
  {
    if |all| == 0 then [] else LiveOf(all[..|all| - 1]) + all[|all| - 1].live
  }

  lemma LiveOfSnoc(all: seq<Shard>, i: nat)
    requires i < |all|
    ensures LiveOf(all[..i + 1]) == LiveOf(all[..i]) + all[i].live
  {
    assert all[..i + 1][..i] == all[..i];
  }

  /** Walking the shard objects and walking the enumeration of their states is the same. */
  lemma {:induction false} LiveOfIsLiveIn(all: seq<Shard>, order: seq<nat>, states: seq<ShardState>)
    requires |all| == |order|
    requires forall j :: 0 <= j < |all| ==> order[j] < |states| && states[order[j]].live == all[j].live
    ensures LiveOf(all) == LiveIn(order, states)
  {
    if |all| > 0 {
      LiveOfIsLiveIn(all[..|all| - 1], order[..|all| - 1], states);
    }
  }

  lemma FilterLiveStep(all: seq<Shard>, i: nat, p: Edge -> bool)
    requires i < |all|
    ensures Filter(LiveOf(all[..i + 1]), p) == Filter(LiveOf(all[..i]), p) + Filter(all[i].live, p)
  {
    LiveOfSnoc(all, i);
    FilterConcat(LiveOf(all[..i]), all[i].live, p);
  }

  method CollectFrom(all: seq<Shard>, v: string) returns (out: seq<Edge>)
    requires forall s :: s in all ==> s.Valid()
    ensures out == Filter(LiveOf(all), FromIs(v))
  {
    out := [];
    for i := 0 to |all|
      invariant out == Filter(LiveOf(all[..i]), FromIs(v))
    {
      FilterLiveStep(all, i, FromIs(v));
      var some := all[i].EdgesFrom(v);
      out := out + some;
    }
    assert all[..|all|] == all;
  }

  method CollectTo(all: seq<Shard>, v: string) returns (out: seq<Edge>)
    requires forall s :: s in all ==> s.Valid()
    ensures out == Filter(LiveOf(all), ToIs(v))
  {
    out := [];
    for i := 0 to |all|
      invariant out == Filter(LiveOf(all[..i]), ToIs(v))
    {
      FilterLiveStep(all, i, ToIs(v));
      var some := all[i].EdgesTo(v);
      out := out + some;
    }
    assert all[..|all|] == all;
  }

  lemma TouchingSnoc(order: seq<nat>, i: nat, states: seq<ShardState>, v: string)
    requires i < |order| && order[i] < |states|
    ensures TouchingIn(order[..i + 1], states, v)
         == TouchingIn(order[..i], states, v)
             + (Filter(states[order[i]].live, FromIs(v)) + Filter(states[order[i]].live, ToIs(v)))
  {
    assert order[..i + 1][..i] == order[..i];
  }

  lemma FirstByIdSnoc(done: seq<Edge>, e: Edge)
    ensures FirstById(done + [e]) == FirstById(done) + (if HasId(done, e.id) then [] else [e])
    ensures forall id :: HasId(done + [e], id) <==> HasId(done, id) || id == e.id
  {
    assert (done + [e])[..|done|] == done;
    assert e in done + [e];
    assert forall f :: f in done ==> f in done + [e];
  }

  ghost function IdSet(es: seq<Edge>): set<string> {
    set e | e in es :: e.id
  }

  lemma IdSetSnoc(done: seq<Edge>, e: Edge)
    ensures IdSet(done + [e]) == IdSet(done) + {e.id}
  {
    assert e in done + [e];
    assert forall f :: f in done ==> f in done + [e];
  }

  lemma FirstByIdGrows(done: seq<Edge>, e: Edge)
    ensures IdSet(done + [e]) == IdSet(done) + {e.id}
    ensures FirstById(done + [e]) == FirstById(done) + (if e.id in IdSet(done) then [] else [e])
  {
    IdSetSnoc(done, e);
    FirstByIdSnoc(done, e);
    assert e.id in IdSet(done) <==> HasId(done, e.id);
  }

  lemma IdSetConcat(a: seq<Edge>, b: seq<Edge>)
    ensures IdSet(a + b) == IdSet(a) + IdSet(b)
  {
    assert forall e :: e in a || e in b ==> e in a + b;
  }

  /** The edges of the list whose ids were not seen before, first occurrences only. */
  ghost function Unseen(seen: set<string>, more: seq<Edge>): seq<Edge> {
    if |more| == 0 then []
    else
      var init, e := more[..|more| - 1], more[|more| - 1];
      Unseen(seen, init) + (if e.id in seen + IdSet(init) then [] else [e])
  }

  lemma UnseenSnoc(seen: set<string>, init: seq<Edge>, e: Edge)
    ensures Unseen(seen, init + [e]) == Unseen(seen, init) + (if e.id in seen + IdSet(init) then [] else [e])
  {
    assert (init + [e])[..|init|] == init;
  }

  lemma WholeGrows(done: seq<Edge>, init: seq<Edge>, e: Edge)
    ensures FirstById(done + (init + [e])) == FirstById(done + init)
            + (if e.id in IdSet(done) + IdSet(init) then [] else [e])
  {
    assert done + (init + [e]) == (done + init) + [e];
    FirstByIdGrows(done + init, e);
    IdSetConcat(done, init);
  }

  lemma Reassociate(whole: seq<Edge>, both: seq<Edge>, a: seq<Edge>, u: seq<Edge>, tail: seq<Edge>, more: seq<Edge>)
    requires whole == both + tail && both == a + u && more == u + tail
    ensures whole == a + more
  {
  }

  lemma OneMoreUnseen(done: seq<Edge>, init: seq<Edge>, e: Edge)
    requires FirstById(done + init) == FirstById(done) + Unseen(IdSet(done), init)
    ensures FirstById(done + (init + [e])) == FirstById(done) + Unseen(IdSet(done), init + [e])
  {
    var tail := if e.id in IdSet(done) + IdSet(init) then [] else [e];
    WholeGrows(done, init, e);
    UnseenSnoc(IdSet(done), init, e);
    Reassociate(FirstById(done + (init + [e])), FirstById(done + init), FirstById(done), Unseen(IdSet(done), init),
                tail, Unseen(IdSet(done), init + [e]));
  }

  lemma {:induction false} FirstByIdConcat(done: seq<Edge>, more: seq<Edge>)
    ensures FirstById(done + more) == FirstById(done) + Unseen(IdSet(done), more)
  {
    if |more| == 0 {
      assert done + more == done;
    } else {
      var init, e := more[..|more| - 1], more[|more| - 1];
      FirstByIdConcat(done, init);
      OneMoreUnseen(done, init, e);
      assert more == init + [e];
    }
  }

  /** Outgoing then incoming edges of each shard, skipping ids already seen. */
  method CollectIncident(all: seq<Shard>, ghost order: seq<nat>, ghost states: seq<ShardState>, v: string)
    returns (out: seq<Edge>)
    requires |all| == |order| && forall s :: s in all ==> s.Valid()
    requires forall j :: 0 <= j < |all| ==> order[j] < |states| && states[order[j]].live == all[j].live
    ensures out == FirstById(TouchingIn(order, states, v))
  {
    out := [];
    var seen: set<string> := {};
    assert seen == IdSet([]);
    for i := 0 to |all|
      invariant out == FirstById(TouchingIn(order[..i], states, v)) && seen == IdSet(TouchingIn(order[..i], states, v))
    {
      ghost var done := TouchingIn(order[..i], states, v);
      TouchingSnoc(order, i, states, v);
      var outgoing := all[i].EdgesFrom(v);
      var incoming := all[i].EdgesTo(v);
      FirstByIdConcat(done, outgoing + incoming);
      IdSetConcat(done, outgoing + incoming);
      out, seen := AppendUnseen(out, seen, outgoing + incoming);
    }
    assert order[..|all|] == order;
  }

  lemma UnseenStep(out: seq<Edge>, seen: set<string>, more: seq<Edge>, i: nat)
    requires i < |more|
    ensures var before := out + Unseen(seen, more[..i]);
            out + Unseen(seen, more[..i + 1]) == if more[i].id in seen + IdSet(more[..i]) then before
                                                 else before + [more[i]]
    ensures IdSet(more[..i + 1]) == IdSet(more[..i]) + {more[i].id}
  {
    assert more[..i + 1] == more[..i] + [more[i]];
    UnseenSnoc(seen, more[..i], more[i]);
    IdSetSnoc(more[..i], more[i]);
  }

  method AppendUnseen(out: seq<Edge>, seen: set<string>, more: seq<Edge>) returns (out': seq<Edge>, seen': set<string>)
    ensures out' == out + Unseen(seen, more) && seen' == seen + IdSet(more)
  {
    out', seen' := out, seen;
    assert IdSet(more[..0]) == {} && Unseen(seen, more[..0]) == [];
    for i := 0 to |more|
      invariant out' == out + Unseen(seen, more[..i]) && seen' == seen + IdSet(more[..i])
    {
      UnseenStep(out, seen, more, i);
      if more[i].id !in seen' {
        seen' := seen' + {more[i].id};
        out' := out' + [more[i]];
      }
    }
    assert more[..|more|] == more;
  }

  method CountAll(all: seq<Shard>) returns (total: nat)
    requires forall s :: s in all ==> s.Valid()
    ensures total == |LiveOf(all)|
  {
    total := 0;
    for i := 0 to |all|
      invariant total == |LiveOf(all[..i])|
    {
      LiveOfSnoc(all, i);
      var n := all[i].EdgeCount();
      total := total + n;
    }
    assert all[..|all|] == all;
  }

  function GroupAt(groups: map<nat, seq<Edge>>, id: nat): seq<Edge> {
    if id in groups then groups[id] else []
  }

  /** The non-empty groups of outgoing edges, keyed by shard id. */
  method GroupFrom(all: seq<Shard>, ghost order: seq<nat>, ghost states: seq<ShardState>, v: string)
    returns (out: map<nat, seq<Edge>>)
    requires |all| == |order| && NoDup(order) && forall s :: s in all ==> s.Valid()
    requires forall j :: 0 <= j < |all| ==> all[j].ID == order[j] < |states| && states[order[j]].live == all[j].live
    ensures forall i :: i in out <==> i in order && Filter(states[i].live, FromIs(v)) != []
    ensures forall i :: i in out ==> out[i] == Filter(states[i].live, FromIs(v))
  {
    out := map[];
    for i := 0 to |all|
      invariant forall k :: k in out <==> k in order[..i] && Filter(states[k].live, FromIs(v)) != []
      invariant forall k :: k in out ==> out[k] == Filter(states[k].live, FromIs(v))
    {
      assert order[..i + 1] == order[..i] + [order[i]] && order[i] !in order[..i];
      var edges := all[i].EdgesFrom(v);
      if |edges| > 0 {
        out := out[all[i].ID := GroupAt(out, all[i].ID) + edges];
      }
    }
    assert order[..|all|] == order;
  }

  lemma GroupsAreTheMap(order: seq<nat>, states: seq<ShardState>, v: string, groups: map<nat, seq<Edge>>)
    requires forall i: nat :: i in order <==> i < |states|
    requires forall i :: i in groups <==> i in order && Filter(states[i].live, FromIs(v)) != []
    requires forall i :: i in groups ==> groups[i] == Filter(states[i].live, FromIs(v))
    ensures groups == Queries.EdgesFromByShard(states, v)
  {
  }

  /** The first shard in the list that holds the edge. */
  method FirstHolder(all: seq<Shard>, id: string) returns (shard: Shard?, edge: Option<Edge>)
    requires forall s :: s in all ==> s.Valid()
    ensures shard == null ==> edge == None && forall s :: s in all ==> !HasId(s.live, id)
    ensures shard != null ==> edge.Some? && edge.value in shard.live && edge.value.id == id
    ensures shard != null ==> exists i :: 0 <= i < |all| && all[i] == shard
                                          && forall j :: 0 <= j < i ==> !HasId(all[j].live, id)
  {
    for i := 0 to |all|
      invariant forall j :: 0 <= j < i ==> !HasId(all[j].live, id)
    {
      var found := all[i].Get(id);
      if found.Some? {
        return all[i], found;
      }
    }
    shard, edge := null, None;
  }

  lemma {:induction false} LocateNone(order: seq<nat>, states: seq<ShardState>, id: string)
    requires forall j :: 0 <= j < |order| ==> order[j] < |states| && !HasId(states[order[j]].live, id)
    ensures Locate(order, states, id) == None
  {
    if |order| > 0 {
      LocateNone(order[1..], states, id);
    }
  }

  lemma {:induction false} FindIsUnique(es: seq<Edge>, e: Edge)
    requires DistinctIds(es) && e in es
    ensures HasId(es, e.id) && Find(es, e.id) == e
  {
    DistinctById(es, e, Find(es, e.id));
  }

  lemma {:induction false} LocateFirst(order: seq<nat>, states: seq<ShardState>, id: string, i: nat)
    requires i < |order| && order[i] < |states| && HasId(states[order[i]].live, id)
    requires forall j :: 0 <= j < i ==> order[j] < |states| && !HasId(states[order[j]].live, id)
    ensures Locate(order, states, id) == Some(order[i])
  {
    if i > 0 {
      LocateFirst(order[1..], states, id, i - 1);
    }
  }

  /** The shards after taking out the edge, and why it could not be taken. */
  function Taken(order: seq<nat>, shards: seq<ShardState>, id: string): (seq<ShardState>, Option<Error>) {
    match Locate(order, shards, id)
    case None => (shards, Some(EdgeNotFound))
    case Some(i) =>
      match RemoveEdge(shards[i], id)
      case Err(reason) => (shards, Some(reason))
      case Ok(shard) => (shards[i := shard], None)
  }

  /** The shards are the listed ones, in order. */
  ghost predicate Lists(out: seq<Shard>, order: seq<nat>, pool: seq<Shard>) {
    |out| == |order| && forall j :: 0 <= j < |out| ==> out[j].ID == order[j] < |pool| && out[j] == pool[order[j]]
  }

  lemma ListsConcat(a: seq<Shard>, orderA: seq<nat>, b: seq<Shard>, orderB: seq<nat>, pool: seq<Shard>)
    requires Lists(a, orderA, pool) && Lists(b, orderB, pool)
    ensures Lists(a + b, orderA + orderB, pool)
  {
  }

  lemma FlattenStep(ids: seq<seq<nat>>, b: nat)
    requires b < |ids|
    ensures Flatten<nat>(ids[..b + 1]) == Flatten<nat>(ids[..b]) + ids[b]
  {
    assert ids[..b + 1] == ids[..b] + [ids[b]];
    FlattenSnoc(ids[..b], ids[b]);
  }

  class Manager {
    const buckets: nat
    const capacity: int
    var gens: seq<seq<Shard>>
    var active: seq<nat>
    var nextID: nat
    ghost var pool: seq<Shard>    // every shard by its id

    ghost predicate Valid()
      reads this, pool
    {
      && Tabled()
      && (forall i :: 0 <= i < |pool| ==> pool[i].Valid())
    }

    /** The table holds exactly the pool, each shard once. */
    ghost predicate Tabled()
      reads this
    {
      && buckets > 0 && |gens| == |active| == buckets && nextID == |pool|
      && (forall i :: 0 <= i < |pool| ==> pool[i].ID == i)
      && (forall b, k :: 0 <= b < |gens| && 0 <= k < |gens[b]| ==>
                           gens[b][k].ID < |pool| && pool[gens[b][k].ID] == gens[b][k])
      && (forall b :: 0 <= b < |gens| ==> active[b] < |gens[b]|)
      && Covers(GenIds(gens), |pool|)
    }

    ghost function States(): (r: seq<ShardState>)
      reads this, pool
      ensures |r| == |pool|
    {
      seq(|pool|, i requires 0 <= i < |pool| reads this, pool => pool[i].View())
    }

    constructor (buckets: int, capacity: int)
      ensures Valid() && fresh(pool)
      ensures this.buckets == (if buckets <= 0 then 1 else buckets) && this.capacity == capacity
      ensures States() == seq(this.buckets, b => Empty(capacity))
      ensures GenIds(gens) == seq(this.buckets, b => [b])
      ensures active == seq(this.buckets, b => 0)
    {
      this.buckets := if buckets <= 0 then 1 else buckets;
      this.capacity := capacity;
      gens, active, nextID, pool := [], [], 0, [];
      new;
      for bucket := 0 to this.buckets
        modifies this
        invariant nextID == |pool| == |gens| == |active| == bucket && fresh(pool)
        invariant forall i :: 0 <= i < bucket ==> pool[i].ID == i && pool[i].Valid()
                                                  && pool[i].View() == Empty(capacity)
        invariant forall b :: 0 <= b < bucket ==> gens[b] == [pool[b]] && active[b] == 0
      {
        var first := new Shard(nextID, capacity);
        nextID := nextID + 1;
        gens, active, pool := gens + [[first]], active + [0], pool + [first];
      }
      forall i: nat | i < |pool| ensures InGens(GenIds(gens), i) && GenIds(gens)[i] == [i] {
        assert GenIds(gens)[i][0] == i;
      }
    }

    method Active(bucket: int) returns (shard: Shard?)
      requires Valid()
      ensures shard == if 0 <= bucket < buckets then gens[bucket][active[bucket]] else null
    {
      if bucket < 0 || bucket >= buckets {
        return null;
      }
      shard := gens[bucket][active[bucket]];
    }

    /** Seals the active generation of the bucket and appends an empty one. */
    method Rotate(bucket: nat) returns (next: Shard)
      requires Valid() && bucket < buckets
      modifies this, pool
      ensures Valid() && pool == old(pool) + [next] && fresh(next)
      ensures GenIds(gens) == old(GenIds(gens))[bucket := old(GenIds(gens))[bucket] + [|old(pool)|]]
      ensures active == old(active)[bucket := |old(gens)[bucket]|]
      ensures var i := old(gens[bucket][active[bucket]].ID);
              States() == old(States())[i := Seal(old(States())[i])] + [Empty(capacity)]
    {
      var old_ := Active(bucket);
      var i := old_.ID;
      assert pool[i] == old_;
      old_.SealShard();
      assert States() == old(States())[i := Seal(old(States())[i])];
      next := new Shard(nextID, capacity);
      Append(bucket, next);
      assert States()[..|old(pool)|] == old(States())[i := Seal(old(States())[i])];
    }

    method Append(bucket: nat, next: Shard)
      requires Tabled() && bucket < buckets && next.ID == nextID
      modifies this
      ensures Tabled() && pool == old(pool) + [next]
      ensures GenIds(gens) == old(GenIds(gens))[bucket := old(GenIds(gens))[bucket] + [|old(pool)|]]
      ensures active == old(active)[bucket := |old(gens)[bucket]|]
    {
      AppendedCovers(GenIds(gens), bucket, |pool|);
      ghost var ids := GenIds(gens);
      nextID := nextID + 1;
      gens := gens[bucket := gens[bucket] + [next]];
      active := active[bucket := |gens[bucket]| - 1];
      pool := pool + [next];
      assert GenIds(gens)[bucket] == ids[bucket] + [|pool| - 1];
      assert forall b :: 0 <= b < |gens| && b != bucket ==> GenIds(gens)[b] == ids[b];
      assert GenIds(gens) == ids[bucket := ids[bucket] + [|pool| - 1]];
    }

    /** Searches the whole table for the id. */
    method ShardByID(id: nat) returns (shard: Shard?)
      requires Valid()
      ensures shard == if id < |pool| then pool[id] else null
    {
      for b := 0 to |gens|
        invariant forall c, k :: 0 <= c < b && 0 <= k < |gens[c]| ==> gens[c][k].ID != id
      {
        for k := 0 to |gens[b]|
          invariant forall l :: 0 <= l < k ==> gens[b][l].ID != id
        {
          if gens[b][k].ID == id {
            return gens[b][k];
          }
        }
      }
      assert !InGens(GenIds(gens), id) by {
        assert forall b, k :: 0 <= b < |gens| && 0 <= k < |gens[b]| ==> GenIds(gens)[b][k] == gens[b][k].ID;
      }
      shard := null;
    }

    /** The live edges of all generations, in enumeration order. */
    ghost function LiveEdges(): seq<Edge>
      reads this, pool
    {
      LiveIn(Flatten<nat>(GenIds(gens)), States())
    }

    /** Every generation, bucket by bucket, oldest first. */
    method AllShards() returns (out: seq<Shard>)
      requires Valid()
      ensures Lists(out, Flatten<nat>(GenIds(gens)), pool)
      ensures forall s :: s in out ==> s.Valid()
    {
      out := [];
      ghost var ids := GenIds(gens);
      for b := 0 to |gens|
        invariant Lists(out, Flatten<nat>(ids[..b]), pool)
      {
        FlattenStep(ids, b);
        ListsConcat(out, Flatten<nat>(ids[..b]), gens[b], ids[b], pool);
        out := out + gens[b];
      }
      assert ids[..|gens|] == ids;
    }

    lemma ListedStates(all: seq<Shard>, order: seq<nat>, states: seq<ShardState>)
      requires Valid() && Lists(all, order, pool) && states == States()
      ensures |all| == |order|
      ensures forall j :: 0 <= j < |all| ==> order[j] < |states| && states[order[j]].live == all[j].live
    {
    }

    lemma AllAreLive(all: seq<Shard>)
      requires Valid() && Lists(all, Flatten<nat>(GenIds(gens)), pool)
      ensures LiveOf(all) == LiveEdges()
    {
      ListedStates(all, Flatten<nat>(GenIds(gens)), States());
      LiveOfIsLiveIn(all, Flatten<nat>(GenIds(gens)), States());
    }

    method EdgesFrom(v: string) returns (out: seq<Edge>)
      requires Valid()
      ensures out == Filter(LiveEdges(), FromIs(v))
    {
      var all := AllShards();
      AllAreLive(all);
      out := CollectFrom(all, v);
    }

    method EdgesTo(v: string) returns (out: seq<Edge>)
      requires Valid()
      ensures out == Filter(LiveEdges(), ToIs(v))
    {
      var all := AllShards();
      AllAreLive(all);
      out := CollectTo(all, v);
    }

    method EdgeCount() returns (total: nat)
      requires Valid()
      ensures total == |LiveEdges()|
    {
      var all := AllShards();
      AllAreLive(all);
      total := CountAll(all);
    }

    method IncidentEdges(v: string) returns (out: seq<Edge>)
      requires Valid()
      ensures out == FirstById(TouchingIn(Flatten<nat>(GenIds(gens)), States(), v))
    {
      var all := AllShards();
      ghost var order, states := Flatten<nat>(GenIds(gens)), States();
      ListedStates(all, order, states);
      out := CollectIncident(all, order, states, v);
    }

    /** The table lists every shard exactly once. */
    ghost predicate Exact()
      reads this
    {
      NoDup(Flatten<nat>(GenIds(gens))) && forall i: nat :: i in Flatten<nat>(GenIds(gens)) <==> i < |pool|
    }

    method GroupOutgoing(v: string) returns (out: map<nat, seq<Edge>>)
      requires Valid() && Exact()
      ensures out == Queries.EdgesFromByShard(States(), v)
    {
      var all := AllShards();
      out := GroupFrom(all, Flatten<nat>(GenIds(gens)), States(), v);
      GroupsAreTheMap(Flatten<nat>(GenIds(gens)), States(), v, out);
    }

    lemma HolderIsLocated(all: seq<Shard>, id: string, i: nat, e: Edge)
      requires Valid() && Lists(all, Flatten<nat>(GenIds(gens)), pool)
      requires i < |all| && e in all[i].live && e.id == id && forall j :: 0 <= j < i ==> !HasId(all[j].live, id)
      ensures all[i].ID < |pool| && all[i] == pool[all[i].ID]
      ensures Locate(Flatten<nat>(GenIds(gens)), States(), id) == Some(all[i].ID)
      ensures Find(States()[all[i].ID].live, id) == e
    {
      LocateFirst(Flatten<nat>(GenIds(gens)), States(), id, i);
      FindIsUnique(all[i].live, e);
    }

    /** The first generation, in enumeration order, that holds the edge. */
    method Holder(id: string) returns (shard: Shard?, edge: Option<Edge>)
      requires Valid()
      ensures match Locate(Flatten<nat>(GenIds(gens)), States(), id)
              case None => shard == null && edge == None
              case Some(i) => i < |pool| && shard == pool[i] && edge == Some(Find(States()[i].live, id))
    {
      var all := AllShards();
      shard, edge := FirstHolder(all, id);
      if shard == null {
        LocateNone(Flatten<nat>(GenIds(gens)), States(), id);
      } else {
        ghost var i :| 0 <= i < |all| && all[i] == shard && forall j :: 0 <= j < i ==> !HasId(all[j].live, id);
        HolderIsLocated(all, id, i, edge.value);
      }
    }

    method ArchiveOne(shard: Shard)
      requires Valid() && shard.ID < |pool| && pool[shard.ID] == shard
      modifies shard
      ensures Valid() && States() == old(States())[shard.ID := ShardSpec.Archive(old(States())[shard.ID])]
    {
      shard.ArchiveShard();
      assert forall i :: 0 <= i < |pool| && i != shard.ID ==> pool[i].ID != shard.ID;
    }

    /** Adding to one shard of the table leaves every other shard alone. */
    method AddTo(shard: Shard, e: Edge) returns (r: Result<()>)
      requires Valid() && shard.ID < |pool| && pool[shard.ID] == shard
      modifies shard
      ensures Valid()
      ensures match AddEdge(old(States())[shard.ID], e)
              case Ok(s) => r == Ok(()) && States() == old(States())[shard.ID := s]
              case Err(error) => r == Err(error) && States() == old(States())
    {
      r := shard.Add(e);
      assert forall i :: 0 <= i < |pool| && i != shard.ID ==> pool[i].ID != shard.ID;
    }

    method RemoveFrom(shard: Shard, id: string) returns (r: Result<Edge>)
      requires Valid() && shard.ID < |pool| && pool[shard.ID] == shard
      modifies shard
      ensures Valid()
      ensures match RemoveEdge(old(States())[shard.ID], id)
              case Ok(s) => r.Ok? && r.value.id == id && States() == old(States())[shard.ID := s]
              case Err(error) => r == Err(error) && States() == old(States())
    {
      r := shard.Remove(id);
      assert forall i :: 0 <= i < |pool| && i != shard.ID ==> pool[i].ID != shard.ID;
    }

    /** Takes the edge out of the first generation that holds it. */
    method Take(id: string) returns (error: Option<Error>)
      requires Valid()
      modifies pool
      ensures Valid()
      ensures (States(), error) == Taken(Flatten<nat>(GenIds(gens)), old(States()), id)
    {
      var shard, _ := Holder(id);
      if shard == null {
        return Some(EdgeNotFound);
      }
      var removed := RemoveFrom(shard, id);
      error := if removed.Err? then Some(removed.error) else None;
    }

    /** Archives every generation of the bucket but the active one. */
    method Archive(bucket: int)
      requires Valid()
      modifies pool
      ensures Valid() && pool == old(pool)
      ensures 0 <= bucket < buckets ==>
                States() == Retire(old(States()), GenIds(gens)[bucket], active[bucket], |gens[bucket]|)
      ensures !(0 <= bucket < buckets) ==> States() == old(States())
    {
      if bucket < 0 || bucket >= buckets {
        return;
      }
      ghost var ids, keep := GenIds(gens)[bucket], active[bucket];
      for k := 0 to |gens[bucket]|
        invariant Valid() && unchanged(this)
        invariant States() == Retire(old(States()), ids, keep, k)
      {
        if k != active[bucket] {
          ghost var before := States();
          assert gens[bucket][k].ID == ids[k];
          ArchiveOne(gens[bucket][k]);
          assert States() == before[ids[k] := ShardSpec.Archive(before[ids[k]])];
        }
      }
    }
  }

  /** The effect of archiving the first `n` listed generations other than the one at `keep`. */
  ghost function Retire(states: seq<ShardState>, ids: seq<nat>, keep: nat, n: nat): (r: seq<ShardState>)
    requires n <= |ids| && forall k :: 0 <= k < |ids| ==> ids[k] < |states|
    ensures |r| == |states|
  {
    if n == 0 then states
    else
      var before := Retire(states, ids, keep, n - 1);
      if n - 1 == keep then before else before[ids[n - 1] := ShardSpec.Archive(before[ids[n - 1]])]
  }

  lemma {:induction false} RetireAt(states: seq<ShardState>, ids: seq<nat>, keep: nat, n: nat, i: nat)
    requires n <= |ids| && i < |states| && forall k :: 0 <= k < |ids| ==> ids[k] < |states|
    ensures Retire(states, ids, keep, n)[i]
         == if exists k :: 0 <= k < n && k != keep && ids[k] == i then ShardSpec.Archive(states[i]) else states[i]
  {
    if n > 0 {
      RetireAt(states, ids, keep, n - 1, i);
      if exists k :: 0 <= k < n && k != keep && ids[k] == i {
        var k :| 0 <= k < n && k != keep && ids[k] == i;
        if k < n - 1 {
          assert exists l :: 0 <= l < n - 1 && l != keep && ids[l] == i;
        }
      }
    }
  }

  lemma RetireIsArchiveBucket(s: StoreState, bucket: nat)
    requires bucket < |s.gens| && bucket < |s.active| && forall k :: 0 <= k < |s.gens[bucket]| ==>
                                                                       s.gens[bucket][k] < |s.shards|
    ensures ArchiveBucket(s, bucket).shards == Retire(s.shards, s.gens[bucket], s.active[bucket], |s.gens[bucket]|)
  {
    forall i: nat | i < |s.shards|
      ensures ArchiveBucket(s, bucket).shards[i]
              == Retire(s.shards, s.gens[bucket], s.active[bucket], |s.gens[bucket]|)[i]
    {
      RetireAt(s.shards, s.gens[bucket], s.active[bucket], |s.gens[bucket]|, i);
    }
  }

  class Router {
    const manager: Manager
    const buckets: nat
    const hash: string -> nat
    var route: seq<nat>

    /** Points every bucket at its active generation. */
    constructor (manager: Manager, buckets: nat, hash: string -> nat)
      requires manager.Valid()
      ensures this.manager == manager && this.buckets == buckets && this.hash == hash && |route| == buckets
      ensures forall b :: 0 <= b < buckets && b < manager.buckets ==> route[b] == manager.gens[b][manager.active[b]].ID
    {
      this.manager, this.buckets, this.hash := manager, buckets, hash;
      route := seq(buckets, b => 0);
      new;
      for b := 0 to buckets
        modifies this
        invariant |route| == buckets
        invariant forall c :: 0 <= c < b && c < manager.buckets ==> route[c] == manager.gens[c][manager.active[c]].ID
      {
        var shard := manager.Active(b);
        if shard != null {
          route := route[b := shard.ID];
        }
      }
    }

    function BucketOf(key: string): nat {
      if buckets <= 1 then 0 else hash(key) % buckets
    }

    method ShardForBucket(bucket: int) returns (shard: Shard?)
      requires manager.Valid() && |route| == buckets
      ensures shard == if 0 <= bucket < buckets && route[bucket] < |manager.pool| then manager.pool[route[bucket]]
                       else null
    {
      if bucket < 0 || bucket >= buckets {
        return null;
      }
      shard := manager.ShardByID(route[bucket]);
    }

    method Switch(bucket: int, id: nat)
      requires manager.Valid() && |route| == buckets
      modifies this
      ensures route == if 0 <= bucket < buckets && id < |manager.pool| then old(route)[bucket := id] else old(route)
    {
      if bucket < 0 || bucket >= buckets {
        return;
      }
      var found := manager.ShardByID(id);
      if found == null {
        return;
      }
      route := route[bucket := id];
    }
  }
}
