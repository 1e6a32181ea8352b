/** What one shard generation means (internal/shard/shard.go): a lifecycle phase, a capacity and
    the live edges in the order they were added. */
module ShardSpec {
  import opened Seqs
  import opened GraphModel

  datatype Phase = Active | Sealing | Sealed | Archived
  {
    function Rank(): nat {
      match this
      case Active => 0
      case Sealing => 1
      case Sealed => 2
      case Archived => 3
    }
  }

  datatype ShardState = ShardState(phase: Phase, cap: nat, live: seq<Edge>)

  const DEFAULT_CAPACITY := 1024

  function Empty(capacity: int): ShardState {
    ShardState(Active, if capacity <= 0 then DEFAULT_CAPACITY else capacity, [])
  }

  function AddEdge(s: ShardState, e: Edge): Result<ShardState> {
    if s.phase != Active then Err(ShardSealed)
    else if |s.live| >= s.cap then Err(ShardFull)
    else if HasId(s.live, e.id) then Err(DuplicateEdge)
    else Ok(s.(live := s.live + [e]))
  }

  function RemoveEdge(s: ShardState, id: string): Result<ShardState> {
    if s.phase == Archived then Err(ShardArchived)
    else if !HasId(s.live, id) then Err(EdgeNotFound)
    else Ok(s.(live := Filter(s.live, IdIsNot(id))))
  }

  function Seal(s: ShardState): ShardState {
    if s.phase.Active? || s.phase.Sealing? then s.(phase := Sealed) else s
  }

  function Archive(s: ShardState): ShardState {
    if s.phase.Sealed? || s.phase.Sealing? then s.(phase := Archived) else s
  }

  /** A new shard is active and empty; without a positive capacity it gets the default one. */
  lemma EmptyMeans(capacity: int)
    ensures Empty(capacity) == ShardState(Active, if capacity > 0 then capacity else 1024, [])
  {
  }

  /** An active shard below its capacity takes any edge whose id it does not hold, at the end. */
  lemma AddMeans(s: ShardState, e: Edge)
    ensures match AddEdge(s, e)
            case Ok(t) =>
              && s.phase.Active? && |s.live| < s.cap && (forall f :: f in s.live ==> f.id != e.id)
              && t == ShardState(Active, s.cap, s.live + [e])
            case Err(error) =>
              || (error == ShardSealed && !s.phase.Active?)
              || (error == ShardFull && s.phase.Active? && |s.live| >= s.cap)
              || (error == DuplicateEdge && s.phase.Active? && |s.live| < s.cap
                  && exists f :: f in s.live && f.id == e.id)
  {
  }

  /** Every shard but an archived one gives up an edge it holds, and keeps the others in their order. */
  lemma RemoveMeans(s: ShardState, low: seq<Edge>, e: Edge, high: seq<Edge>, id: string)
    requires DistinctIds(s.live)
    ensures s.phase.Archived? ==> RemoveEdge(s, id) == Err(ShardArchived)
    ensures !s.phase.Archived? && (forall f :: f in s.live ==> f.id != id) ==> RemoveEdge(s, id) == Err(EdgeNotFound)
    ensures !s.phase.Archived? && s.live == low + [e] + high && e.id == id ==>
              RemoveEdge(s, id) == Ok(ShardState(s.phase, s.cap, low + high))
  {
    if s.live == low + [e] + high && e.id == id {
      assert forall k :: 0 <= k < |low| ==> low[k] == s.live[k] && s.live[|low|] == e;
      assert forall k :: 0 <= k < |high| ==> high[k] == s.live[|low| + 1 + k];
      FilterKeepsAll(low, IdIsNot(id));
      FilterKeepsAll(high, IdIsNot(id));
      FilterSnoc(low, e, IdIsNot(id));
      FilterConcat(low + [e], high, IdIsNot(id));
      assert low + [] == low;
    }
  }

  /** Sealing stops writes and nothing else; archiving takes a sealed shard and no active one. */
  lemma PhasesMean(s: ShardState)
    ensures Seal(s).live == s.live && Seal(s).cap == s.cap && Archive(s).live == s.live && Archive(s).cap == s.cap
    ensures Seal(s).phase == (if s.phase.Active? || s.phase.Sealing? then Sealed else s.phase)
    ensures Archive(s).phase == (if s.phase.Active? then Active else Archived)
  {
  }

  // The hand-kept lists.

  function IsNot(target: string): string -> bool {
    (x: string) => x != target
  }

  function Listed(lists: map<string, seq<string>>, v: string): seq<string> {
    if v in lists then lists[v] else []
  }

  /** What walking the insertion-order list yields: ids no longer stored are skipped. */
  function Listing(order: seq<string>, edges: map<string, Edge>): seq<Edge> {
    if |order| == 0 then []
    else
      var id := order[|order| - 1];
      Listing(order[..|order| - 1], edges) + (if id in edges then [edges[id]] else [])
  }

  ghost predicate Stores(edges: map<string, Edge>, live: seq<Edge>) {
    && DistinctIds(live)
    && (forall e :: e in live ==> e.id in edges && edges[e.id] == e)
    && (forall id :: id in edges ==> edges[id] in live && edges[id].id == id)
  }

  lemma {:induction false} StoredCount(edges: map<string, Edge>, live: seq<Edge>)
    requires Stores(edges, live)
    ensures |edges| == |live|
  {
    DistinctNoDup(live);
    NoDupCount(Ids(live));
    assert edges.Keys == set id | id in Ids(live) by {
      forall id | id in edges ensures id in Ids(live) {
        var k :| 0 <= k < |live| && live[k] == edges[id];
        assert Ids(live)[k] == id;
      }
    }
    assert |edges| == |edges.Keys|;
  }

  lemma {:induction false} IdsWithout(es: seq<Edge>, id: string)
    ensures Ids(Filter(es, IdIsNot(id))) == Filter(Ids(es), IsNot(id))
  {
    if |es| > 0 {
      IdsWithout(es[..|es| - 1], id);
      assert Ids(es)[..|es| - 1] == Ids(es[..|es| - 1]);
    }
  }

  /** Filtering one adjacency list keeps it the list of the remaining edges. */
  lemma ListWithout(live: seq<Edge>, p: Edge -> bool, id: string)
    ensures Ids(Filter(Filter(live, IdIsNot(id)), p)) == Filter(Ids(Filter(live, p)), IsNot(id))
  {
    FilterCommutes(live, IdIsNot(id), p);
    IdsWithout(Filter(live, p), id);
  }

  /** The id list of the vertex is the ids of the live edges keyed by it, oldest first. */
  ghost predicate ListedAs(lists: map<string, seq<string>>, live: seq<Edge>, key: Edge -> string, v: string) {
    Listed(lists, v) == Ids(Filter(live, KeyIs(key, v)))
  }

  ghost predicate Adjacent(lists: map<string, seq<string>>, live: seq<Edge>, key: Edge -> string) {
    forall v :: ListedAs(lists, live, key, v)
  }

  lemma IdsSnoc(es: seq<Edge>, e: Edge)
    ensures Ids(es + [e]) == Ids(es) + [e.id]
  {
  }

  lemma ListAfterAdd(live: seq<Edge>, key: Edge -> string, e: Edge, v: string)
    ensures Ids(Filter(live + [e], KeyIs(key, v)))
         == Ids(Filter(live, KeyIs(key, v))) + (if key(e) == v then [e.id] else [])
  {
    var kept := Filter(live, KeyIs(key, v));
    FilterSnoc(live, e, KeyIs(key, v));
    if key(e) == v {
      IdsSnoc(kept, e);
    } else {
      assert Ids(kept) + [] == Ids(kept);
    }
  }

  lemma AdjacentAfterAdd(lists: map<string, seq<string>>, live: seq<Edge>, key: Edge -> string, e: Edge)
    requires Adjacent(lists, live, key)
    ensures Adjacent(lists[key(e) := Listed(lists, key(e)) + [e.id]], live + [e], key)
  {
    var after := lists[key(e) := Listed(lists, key(e)) + [e.id]];
    forall v ensures ListedAs(after, live + [e], key, v) {
      assert ListedAs(lists, live, key, v);
      ListAfterAdd(live, key, e, v);
    }
  }

  lemma KeepsOthers(live: seq<Edge>, e: Edge, p: Edge -> bool)
    requires DistinctIds(live) && e in live && !p(e)
    ensures Filter(Ids(Filter(live, p)), IsNot(e.id)) == Ids(Filter(live, p))
  {
    var ids := Ids(Filter(live, p));
    FilterMembers(live, p);
    forall x | x in ids ensures x != e.id {
      var k :| 0 <= k < |ids| && ids[k] == x;
      assert Filter(live, p)[k] in live;
    }
    FilterKeepsAll(ids, IsNot(e.id));
  }

  lemma ListAfterRemove(live: seq<Edge>, key: Edge -> string, e: Edge, v: string)
    requires DistinctIds(live) && e in live
    ensures Ids(Filter(Filter(live, IdIsNot(e.id)), KeyIs(key, v)))
         == if key(e) == v then Filter(Ids(Filter(live, KeyIs(key, v))), IsNot(e.id))
            else Ids(Filter(live, KeyIs(key, v)))
  {
    ListWithout(live, KeyIs(key, v), e.id);
    if key(e) != v { KeepsOthers(live, e, KeyIs(key, v)); }
  }

  lemma AdjacentAfterRemove(lists: map<string, seq<string>>, live: seq<Edge>, key: Edge -> string, e: Edge)
    requires DistinctIds(live) && e in live && Adjacent(lists, live, key)
    ensures Adjacent(lists[key(e) := Filter(Listed(lists, key(e)), IsNot(e.id))], Filter(live, IdIsNot(e.id)), key)
  {
    var after := lists[key(e) := Filter(Listed(lists, key(e)), IsNot(e.id))];
    forall v ensures ListedAs(after, Filter(live, IdIsNot(e.id)), key, v) {
      assert ListedAs(lists, live, key, v);
      ListAfterRemove(live, key, e, v);
    }
  }

  /** The edge map and both families of id lists describe the same live edges. */
  ghost predicate Represents(edges: map<string, Edge>, byFrom: map<string, seq<string>>,
                             byTo: map<string, seq<string>>, live: seq<Edge>)
  {
    && Stores(edges, live)
    && Adjacent(byFrom, live, SourceOf())
    && Adjacent(byTo, live, TargetOf())
  }

  lemma StoresAfterAdd(edges: map<string, Edge>, live: seq<Edge>, e: Edge)
    requires Stores(edges, live) && e.id !in edges
    ensures Stores(edges[e.id := e], live + [e])
  {
  }

  lemma RepresentsAfterAdd(edges: map<string, Edge>, byFrom: map<string, seq<string>>,
                           byTo: map<string, seq<string>>, live: seq<Edge>, e: Edge)
    requires Represents(edges, byFrom, byTo, live) && e.id !in edges
    ensures Represents(edges[e.id := e], byFrom[e.from := Listed(byFrom, e.from) + [e.id]],
                       byTo[e.to := Listed(byTo, e.to) + [e.id]], live + [e])
  {
    StoresAfterAdd(edges, live, e);
    AdjacentAfterAdd(byFrom, live, SourceOf(), e);
    AdjacentAfterAdd(byTo, live, TargetOf(), e);
  }

  lemma StoresAfterRemove(edges: map<string, Edge>, live: seq<Edge>, id: string)
    requires Stores(edges, live) && id in edges
    ensures Stores(edges - {id}, Filter(live, IdIsNot(id)))
  {
    FilterDistinct(live, IdIsNot(id));
    FilterMembers(live, IdIsNot(id));
  }

  lemma RepresentsAfterRemove(edges: map<string, Edge>, byFrom: map<string, seq<string>>,
                              byTo: map<string, seq<string>>, live: seq<Edge>, e: Edge)
    requires Represents(edges, byFrom, byTo, live) && e in live
    ensures Represents(edges - {e.id}, byFrom[e.from := Filter(Listed(byFrom, e.from), IsNot(e.id))],
                       byTo[e.to := Filter(Listed(byTo, e.to), IsNot(e.id))], Filter(live, IdIsNot(e.id)))
  {
    StoresAfterRemove(edges, live, e.id);
    AdjacentAfterRemove(byFrom, live, SourceOf(), e);
    AdjacentAfterRemove(byTo, live, TargetOf(), e);
  }

  lemma {:induction false} ListingFrame(order: seq<string>, edges: map<string, Edge>, e: Edge)
    requires e.id !in order
    ensures Listing(order, edges[e.id := e]) == Listing(order, edges)
  {
    if |order| > 0 {
      ListingFrame(order[..|order| - 1], edges, e);
    }
  }

  lemma {:induction false} ListingGrows(order: seq<string>, edges: map<string, Edge>, e: Edge)
    requires e.id !in edges
    ensures |Listing(order, edges[e.id := e])| >= |Listing(order, edges)|
    ensures e.id in order ==> |Listing(order, edges[e.id := e])| > |Listing(order, edges)|
  {
    if |order| > 0 {
      assert order == order[..|order| - 1] + [order[|order| - 1]];
      ListingGrows(order[..|order| - 1], edges, e);
    }
  }

  /** Removal leaves the insertion-order list alone, so adding an id that was stored here before
      makes the listing repeat that edge; adding any other id keeps the listing exact. */
  lemma ListingAfterAdd(order: seq<string>, edges: map<string, Edge>, live: seq<Edge>, e: Edge)
    requires Listing(order, edges) == live
    requires e.id !in edges
    ensures Listing(order + [e.id], edges[e.id := e]) == live + [e] <==> e.id !in order
  {
    assert (order + [e.id])[..|order|] == order;
    ListingGrows(order, edges, e);
    if e.id !in order {
      ListingFrame(order, edges, e);
    }
  }

  lemma {:induction false} ListingAfterRemove(order: seq<string>, edges: map<string, Edge>, id: string)
    requires forall k :: k in edges ==> edges[k].id == k
    ensures Listing(order, edges - {id}) == Filter(Listing(order, edges), IdIsNot(id))
  {
    if |order| > 0 {
      var init, x := order[..|order| - 1], order[|order| - 1];
      ListingAfterRemove(init, edges, id);
      if x in edges {
        FilterSnoc(Listing(init, edges), edges[x], IdIsNot(id));
      } else {
        assert Listing(order, edges) == Listing(init, edges);
        assert Listing(order, edges - {id}) == Listing(init, edges - {id});
      }
    }
  }

  // The insertion-order list over a whole life of the shard.

  /** The state of a shard together with its insertion-order list, which only ever grows. */
  datatype Book = Book(shard: ShardState, order: seq<string>, edges: map<string, Edge>)

  datatype ShardOp = Put(e: Edge) | Drop(id: string) | SealIt | ArchiveIt

  function Entry(b: Book, op: ShardOp): Book {
    match op
    case Put(e) =>
      (match AddEdge(b.shard, e)
       case Ok(s) => Book(s, b.order + [e.id], b.edges[e.id := e])
       case Err(_) => b)
    case Drop(id) =>
      (match RemoveEdge(b.shard, id)
       case Ok(s) => Book(s, b.order, b.edges - {id})
       case Err(_) => b)
    case SealIt => b.(shard := Seal(b.shard))
    case ArchiveIt => b.(shard := Archive(b.shard))
  }

  function Life(capacity: int, ops: seq<ShardOp>): Book {
    if |ops| == 0 then Book(Empty(capacity), [], map[])
    else Entry(Life(capacity, ops[..|ops| - 1]), ops[|ops| - 1])
  }

  lemma EntryStores(b: Book, op: ShardOp)
    requires Stores(b.edges, b.shard.live)
    ensures Stores(Entry(b, op).edges, Entry(b, op).shard.live)
  {
    match op
    case Put(e) => if AddEdge(b.shard, e).Ok? { StoresAfterAdd(b.edges, b.shard.live, e); }
    case Drop(id) => if RemoveEdge(b.shard, id).Ok? { StoresAfterRemove(b.edges, b.shard.live, id); }
    case _ =>
  }

  lemma {:induction false} LifeStores(capacity: int, ops: seq<ShardOp>)
    ensures var b := Life(capacity, ops); Stores(b.edges, b.shard.live)
  {
    if |ops| > 0 {
      LifeStores(capacity, ops[..|ops| - 1]);
      EntryStores(Life(capacity, ops[..|ops| - 1]), ops[|ops| - 1]);
    }
  }

  /** Walking the insertion-order list yields the live edges, each once, oldest first. */
  ghost predicate Exact(b: Book) {
    Listing(b.order, b.edges) == b.shard.live
  }

  ghost predicate AlwaysExact(capacity: int, ops: seq<ShardOp>) {
    forall n :: 0 <= n <= |ops| ==> Exact(Life(capacity, ops[..n]))
  }

  lemma PutExact(b: Book, e: Edge)
    requires Stores(b.edges, b.shard.live) && Exact(b) && NoDup(b.order)
    ensures Exact(Entry(b, Put(e))) <==> NoDup(Entry(b, Put(e)).order)
  {
    if AddEdge(b.shard, e).Ok? {
      ListingAfterAdd(b.order, b.edges, b.shard.live, e);
      NoDupSnoc(b.order, e.id);
    }
  }

  lemma DropExact(b: Book, id: string)
    requires Stores(b.edges, b.shard.live) && Exact(b)
    ensures Exact(Entry(b, Drop(id)))
  {
    if RemoveEdge(b.shard, id).Ok? {
      ListingAfterRemove(b.order, b.edges, id);
    }
  }

  lemma EntryExact(b: Book, op: ShardOp)
    requires Stores(b.edges, b.shard.live) && Exact(b) && NoDup(b.order)
    ensures Exact(Entry(b, op)) <==> NoDup(Entry(b, op).order)
  {
    match op
    case Put(e) => PutExact(b, e);
    case Drop(id) => DropExact(b, id);
    case _ =>
  }

  lemma OrderGrows(b: Book, op: ShardOp)
    requires NoDup(Entry(b, op).order)
    ensures NoDup(b.order)
  {
    if op.Put? && AddEdge(b.shard, op.e).Ok? { NoDupSnoc(b.order, op.e.id); }
  }

  lemma ExactPrefixes(capacity: int, ops: seq<ShardOp>)
    requires |ops| > 0
    ensures AlwaysExact(capacity, ops) <==> AlwaysExact(capacity, ops[..|ops| - 1]) && Exact(Life(capacity, ops))
  {
    var init := ops[..|ops| - 1];
    assert ops[..|ops|] == ops;
    assert forall n :: 0 <= n <= |init| ==> init[..n] == ops[..n];
    if AlwaysExact(capacity, init) && Exact(Life(capacity, ops)) {
      forall n | 0 <= n <= |ops| ensures Exact(Life(capacity, ops[..n])) {
        if n < |ops| { assert Exact(Life(capacity, init[..n])); }
      }
    }
    if AlwaysExact(capacity, ops) {
      forall n | 0 <= n <= |init| ensures Exact(Life(capacity, init[..n])) {
        assert Exact(Life(capacity, ops[..n]));
      }
      assert Exact(Life(capacity, ops[..|ops|]));
    }
  }

  /** Over any life of a shard, the listing is exact at every moment exactly when no id was accepted
      twice: removal does not compact the insertion-order list. */
  lemma {:induction false} ListingExactUnlessReAdded(capacity: int, ops: seq<ShardOp>)
    ensures AlwaysExact(capacity, ops) <==> NoDup(Life(capacity, ops).order)
  {
    if |ops| > 0 {
      var init, op := ops[..|ops| - 1], ops[|ops| - 1];
      var b := Life(capacity, init);
      ListingExactUnlessReAdded(capacity, init);
      ExactPrefixes(capacity, ops);
      LifeStores(capacity, init);
      if NoDup(b.order) {
        assert Exact(Life(capacity, init[..|init|])) && init[..|init|] == init;
        EntryExact(b, op);
      } else if NoDup(Entry(b, op).order) {
        OrderGrows(b, op);
      }
    } else {
      assert ops[..0] == ops;
    }
  }

  lemma LifeSnoc(capacity: int, ops: seq<ShardOp>, op: ShardOp)
    ensures Life(capacity, ops + [op]) == Entry(Life(capacity, ops), op)
  {
    assert (ops + [op])[..|ops|] == ops;
  }

  lemma AfterReAdding(capacity: int, e: Edge)
    ensures var b := Life(capacity, [Put(e), Drop(e.id), Put(e)]);
            b.shard.live == [e] && b.order == [e.id, e.id] && b.edges == map[e.id := e]
  {
    assert [] + [Put(e)] == [Put(e)] && [Put(e)] + [Drop(e.id)] == [Put(e), Drop(e.id)];
    assert [Put(e), Drop(e.id)] + [Put(e)] == [Put(e), Drop(e.id), Put(e)];
    LifeSnoc(capacity, [], Put(e));
    LifeSnoc(capacity, [Put(e)], Drop(e.id));
    LifeSnoc(capacity, [Put(e), Drop(e.id)], Put(e));
    assert Filter([e], IdIsNot(e.id)) == [];
  }

  /** The simplest life with an id accepted twice: the shard holds one edge and lists it twice. */
  lemma ReAddedListsTwice(capacity: int, e: Edge)
    ensures var b := Life(capacity, [Put(e), Drop(e.id), Put(e)]);
            b.shard.live == [e] && Listing(b.order, b.edges) == [e, e] && !Exact(b)
  {
    AfterReAdding(capacity, e);
    var edges := map[e.id := e];
    assert [e.id, e.id][..1] == [e.id] && [e.id][..0] == [];
    assert Listing([e.id], edges) == [e];
    assert Listing([e.id, e.id], edges) == [e] + [e];
  }
}

module Shards {
  import opened Seqs
  import opened GraphModel
  import opened ShardSpec

  lemma FilterStep(s: seq<string>, i: nat, p: string -> bool)
    requires i < |s|
    ensures Filter(s[..i + 1], p) == Filter(s[..i], p) + (if p(s[i]) then [s[i]] else [])
  {
    assert s[..i + 1] == s[..i] + [s[i]];
    FilterSnoc(s[..i], s[i], p);
  }

  /** Drops every occurrence of a string from the first `len` cells, writing the kept ones over
      the front of the same storage, and returns how many were kept. */
  method RemoveStringInPlace(values: array<string>, len: nat, target: string) returns (kept: nat)
    requires len <= values.Length
    modifies values
    ensures kept <= len
    ensures values[..kept] == Filter(old(values[..len]), IsNot(target))
  {
    kept := 0;
    ghost var all := values[..len];
    for i := 0 to len
      invariant kept <= i
      invariant forall k :: i <= k < len ==> values[k] == all[k]
      invariant values[..kept] == Filter(all[..i], IsNot(target))
    {
      var value := values[i];
      FilterStep(all, i, IsNot(target));
      if value != target {
        values[kept] := value;
        kept := kept + 1;
      }
    }
    assert all[..len] == all;
  }

  /** The list without the target; the storage that is overwritten is nobody else's. */
  method RemoveString(values: seq<string>, target: string) returns (out: seq<string>)
    ensures out == Filter(values, IsNot(target))
  {
    var cells := new string[|values|](i requires 0 <= i < |values| => values[i]);
    assert cells[..|values|] == values;
    var kept := RemoveStringInPlace(cells, |values|, target);
    out := cells[..kept];
  }

  /** One generation of edges with its per-source and per-target id lists. */
  class Shard {
    const ID: nat
    const cap: nat
    var phase: Phase
    var edges: map<string, Edge>
    var byFrom: map<string, seq<string>>
    var byTo: map<string, seq<string>>
    var order: seq<string>
    ghost var live: seq<Edge>

    ghost predicate Valid()
      reads this
    {
      Represents(edges, byFrom, byTo, live)
    }

    ghost function View(): ShardState
      reads this
    {
      ShardState(phase, cap, live)
    }

    ghost function Book(): Book
      reads this
    {
      ShardSpec.Book(View(), order, edges)
    }

    constructor (id: nat, capacity: int)
      ensures Valid() && ID == id && Book() == Life(capacity, [])
    {
      ID := id;
      cap := if capacity <= 0 then DEFAULT_CAPACITY else capacity;
      phase := Active;
      edges, byFrom, byTo, order, live := map[], map[], map[], [], [];
    }

    method Add(e: Edge) returns (r: Result<()>)
      requires Valid()
      modifies this
      ensures Valid() && Book() == Entry(old(Book()), Put(e))
      ensures match AddEdge(old(View()), e)
              case Ok(s) => r == Ok(())
              case Err(error) => r == Err(error)
    {
      StoredCount(edges, live);
      assert e.id in edges <==> HasId(live, e.id);
      if phase != Active {
        return Err(ShardSealed);
      }
      if |edges| >= cap {
        return Err(ShardFull);
      }
      if e.id in edges {
        return Err(DuplicateEdge);
      }
      Insert(e);
      r := Ok(());
    }

    method Update(edges: map<string, Edge>, byFrom: map<string, seq<string>>, byTo: map<string, seq<string>>,
                  ghost live: seq<Edge>)
      modifies this`edges, this`byFrom, this`byTo, this`live
      ensures this.edges == edges && this.byFrom == byFrom && this.byTo == byTo && this.live == live
    {
      this.edges, this.byFrom, this.byTo, this.live := edges, byFrom, byTo, live;
    }

    method Insert(e: Edge)
      requires Valid() && e.id !in edges
      modifies this
      ensures Valid() == old(Valid()) && phase == old(phase)
      ensures live == old(live) + [e] && order == old(order) + [e.id] && edges == old(edges)[e.id := e]
    {
      order := order + [e.id];
      Update(edges[e.id := e], byFrom[e.from := Listed(byFrom, e.from) + [e.id]],
             byTo[e.to := Listed(byTo, e.to) + [e.id]], live + [e]);
      RepresentsAfterAdd(old(edges), old(byFrom), old(byTo), old(live), e);
    }

    method Get(id: string) returns (r: Option<Edge>)
      requires Valid()
      ensures r.Some? <==> HasId(live, id)
      ensures r.Some? ==> r.value in live && r.value.id == id
    {
      if id in edges {
        r := Some(edges[id]);
      } else {
        r := None;
      }
    }

    method Remove(id: string) returns (r: Result<Edge>)
      requires Valid()
      modifies this
      ensures Valid() && Book() == Entry(old(Book()), Drop(id))
      ensures match RemoveEdge(old(View()), id)
              case Ok(_) => r.Ok? && r.value in old(live) && r.value.id == id
              case Err(error) => r == Err(error)
    {
      if phase == Archived {
        return Err(ShardArchived);
      }
      assert id in edges <==> HasId(live, id);
      if id !in edges {
        return Err(EdgeNotFound);
      }
      r := Ok(edges[id]);
      Erase(edges[id]);
    }

    method Erase(e: Edge)
      requires Valid() && e in live
      modifies this
      ensures Valid() == old(Valid())
      ensures Book() == ShardSpec.Book(old(View()).(live := Filter(old(live), IdIsNot(e.id))), old(order),
                                       old(edges) - {e.id})
    {
      RepresentsAfterRemove(edges, byFrom, byTo, live, e);
      var sources := RemoveString(Listed(byFrom, e.from), e.id);
      var targets := RemoveString(Listed(byTo, e.to), e.id);
      Update(edges - {e.id}, byFrom[e.from := sources], byTo[e.to := targets], Filter(live, IdIsNot(e.id)));
    }

    method EdgesFrom(v: string) returns (out: seq<Edge>)
      requires Valid()
      ensures out == Filter(live, FromIs(v))
    {
      FilterMembers(live, FromIs(v));
      assert ListedAs(byFrom, live, SourceOf(), v);
      out := Resolve(Listed(byFrom, v), Filter(live, FromIs(v)));
    }

    method EdgesTo(v: string) returns (out: seq<Edge>)
      requires Valid()
      ensures out == Filter(live, ToIs(v))
    {
      FilterMembers(live, ToIs(v));
      assert ListedAs(byTo, live, TargetOf(), v);
      out := Resolve(Listed(byTo, v), Filter(live, ToIs(v)));
    }

    method Resolve(ids: seq<string>, ghost wanted: seq<Edge>) returns (out: seq<Edge>)
      requires Valid()
      requires ids == Ids(wanted) && forall e :: e in wanted ==> e in live
      ensures out == wanted
    {
      out := [];
      for i := 0 to |ids|
        invariant out == wanted[..i]
      {
        assert wanted[i] in live && ids[i] == wanted[i].id;
        if ids[i] in edges {
          out := out + [edges[ids[i]]];
        }
      }
    }

    method All() returns (out: seq<Edge>)
      requires Valid()
      ensures out == Listing(order, edges)
      ensures ShardSpec.Exact(Book()) ==> out == live
    {
      out := [];
      for i := 0 to |order|
        invariant out == Listing(order[..i], edges)
      {
        assert order[..i + 1][..i] == order[..i];
        if order[i] in edges {
          out := out + [edges[order[i]]];
        }
      }
      assert order[..|order|] == order;
    }

    method EdgeCount() returns (n: nat)
      requires Valid()
      ensures n == |live|
    {
      StoredCount(edges, live);
      n := |edges|;
    }

    method SealShard()
      requires Valid()
      modifies this`phase
      ensures Valid() && Book() == Entry(old(Book()), SealIt)
    {
      if phase == Active {
        phase := Sealing;
      }
      if phase == Sealing {
        phase := Sealed;
      }
    }

    method ArchiveShard()
      requires Valid()
      modifies this`phase
      ensures Valid() && Book() == Entry(old(Book()), ArchiveIt)
    {
      if phase == Sealed || phase == Sealing {
        phase := Archived;
      }
    }
  }
}
