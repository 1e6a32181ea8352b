/** When a depth-limited walk can miss a vertex within its limit: exactly when the start shard holds a
    vertex two hops away from the start inside that shard, which the caller can read off that shard. */
module Completeness {
  import opened Seqs
  import opened GraphModel
  import opened StoreSpec
  import opened Routing
  import opened WalkSpec
  import opened WalkTheory
  import opened WalkLayers
  import opened Journal
  import opened Runs
  import opened Scenarios
  import opened Stores
  import opened Walkers

  // Shallow start shards miss nothing.

  /** Inside the start shard nothing within the limit is further than one hop away. */
  ghost predicate Shallow(q: Tour) {
    forall v, d: nat :: AtHome(q, v, d) ==> d <= 1
  }

  lemma {:induction false} OffersAreClose(q: Tour, g: nat, v: string, d: nat)
    requires Shallow(q) && OnOffer(q, g, v, d)
    ensures g + 1 <= d <= g + 2
  {
    if g == 0 {
      var h, e :| AwayEdge(q.shards, q.home, h, e) && e.to == v && AtHome(q, e.from, d - 1);
    } else {
      var e :| e in EdgeSet(q.shards) && e.to == v && InLayer(q, g - 1, e.from, d - 1);
      OffersAreClose(q, g - 1, e.from, d - 1);
    }
  }

  lemma {:induction false} LeastOffer(q: Tour, g: nat, v: string, d: nat) returns (k: nat)
    requires OnOffer(q, g, v, d)
    ensures k <= d && OnOffer(q, g, v, k) && forall n: nat :: OnOffer(q, g, v, n) ==> k <= n
    decreases d
  {
    if n: nat :| n < d && OnOffer(q, g, v, n) {
      k := LeastOffer(q, g, v, n);
    } else {
      k := d;
    }
  }

  lemma {:induction false} FoundEarlier(q: Tour, g: nat, v: string) returns (h: nat, d: nat)
    requires FoundBefore(q, g, v)
    ensures AtHome(q, v, d) || (h < g && InLayer(q, h, v, d))
  {
    if g == 0 {
      h := 0;
      d :| AtHome(q, v, d);
    } else {
      var p := g - 1;
      if FoundBefore(q, p, v) {
        h, d := FoundEarlier(q, p, v);
      } else {
        h := p;
        d :| InLayer(q, p, v, d);
      }
    }
  }

  /** An offer of wave g at depth d is taken no deeper than d by wave g, or was found before. */
  lemma OfferIsFound(q: Tour, g: nat, v: string, d: nat) returns (k: nat)
    requires Shallow(q) && OnOffer(q, g, v, d)
    ensures k <= d && Finds(q, v, k)
  {
    OffersAreClose(q, g, v, d);
    if FoundBefore(q, g, v) {
      var h: nat;
      h, k := FoundEarlier(q, g, v);
      if !AtHome(q, v, k) {
        OffersAreClose(q, h, v, k);
        assert Away(q, v, k);
      }
    } else {
      k := LeastOffer(q, g, v, d);
      assert InLayer(q, g, v, k);
      assert Away(q, v, k);
    }
  }

  /** The least distance within n hops. */
  lemma {:induction false} LeastDistance(es: set<Edge>, start: string, v: string, n: nat) returns (d: nat)
    requires v in Within(es, start, n)
    ensures d <= n && IsDistance(es, start, v, d)
  {
    if n > 0 && v in Within(es, start, n - 1) {
      d := LeastDistance(es, start, v, n - 1);
    } else {
      d := n;
    }
  }

  lemma HomeTargetIsFound(q: Tour, e: Edge, d: nat) returns (k: nat)
    requires AtHome(q, e.from, d) && d < Limit(q.maxDepth) && HomeEdge(q.shards, q.home, e)
    ensures k <= d + 1 && Finds(q, e.to, k)
  {
    var es := HomeSet(q.shards, q.home);
    assert e in es;
    k := LeastDistance(es, q.start, e.to, d + 1);
  }

  lemma TargetIsFound(q: Tour, e: Edge, d: nat) returns (k: nat)
    requires Shallow(q) && Finds(q, e.from, d) && d < Limit(q.maxDepth) && e in EdgeSet(q.shards)
    ensures k <= d + 1 && Finds(q, e.to, k)
  {
    var h :| 0 <= h < |q.shards| && e in q.shards[h].live;
    if AtHome(q, e.from, d) {
      if h == q.home {
        k := HomeTargetIsFound(q, e, d);
      } else {
        assert AwayEdge(q.shards, q.home, h, e);
        k := OfferIsFound(q, 0, e.to, d + 1);
      }
    } else {
      var g: nat :| InLayer(q, g, e.from, d);
      assert OnOffer(q, g + 1, e.to, d + 1);
      k := OfferIsFound(q, g + 1, e.to, d + 1);
    }
  }

  /** Every vertex k hops away, wherever its edges are stored, is found no deeper than k. */
  lemma {:induction false} NearIsFound(q: Tour, v: string, n: nat) returns (k: nat)
    requires Shallow(q) && n <= Limit(q.maxDepth) && v in Within(EdgeSet(q.shards), q.start, n)
    ensures k <= n && Finds(q, v, k)
    decreases n
  {
    if n == 0 {
      k := 0;
    } else if v in Within(EdgeSet(q.shards), q.start, n - 1) {
      k := NearIsFound(q, v, n - 1);
    } else {
      var e :| e in EdgeSet(q.shards) && e.from in Within(EdgeSet(q.shards), q.start, n - 1) && e.to == v;
      var d := NearIsFound(q, e.from, n - 1);
      k := TargetIsFound(q, e, d);
    }
  }

  lemma ShallowIsComplete(q: Tour)
    requires Shallow(q)
    ensures Complete(q)
  {
    forall v | v in Within(EdgeSet(q.shards), q.start, Limit(q.maxDepth)) ensures exists d: nat :: Finds(q, v, d) {
      var k := NearIsFound(q, v, Limit(q.maxDepth));
    }
  }

  /** Some vertex lies exactly one hop closer. */
  lemma StepBack(es: set<Edge>, start: string, v: string, d: nat) returns (u: string)
    requires IsDistance(es, start, v, d) && d > 0
    ensures IsDistance(es, start, u, d - 1)
  {
    var e :| e in es && e.from in Within(es, start, d - 1) && e.to == v;
    u := e.from;
  }

  lemma {:induction false} DeepHasMiddle(es: set<Edge>, start: string, v: string, d: nat)
    requires IsDistance(es, start, v, d) && d >= 2
    ensures exists u :: IsDistance(es, start, u, 2)
    decreases d
  {
    if d > 2 {
      var u := StepBack(es, start, v, d);
      DeepHasMiddle(es, start, u, d - 1);
    }
  }

  lemma ShallowWhen(q: Tour)
    requires q.maxDepth < 2 || forall v :: !IsDistance(HomeSet(q.shards, q.home), q.start, v, 2)
    ensures Shallow(q)
  {
    forall v, d: nat | AtHome(q, v, d) ensures d <= 1 {
      if d >= 2 { DeepHasMiddle(HomeSet(q.shards, q.home), q.start, v, d); }
    }
  }

  // A vertex marked too deep delays everything behind it.

  ghost predicate FoundOnlyAt(q: Tour, v: string, n: nat) {
    forall d: nat :: Finds(q, v, d) ==> d == n
  }

  /** Whatever can only be entered from a vertex found at depth n is found at depth n + 1 or not at all. */
  lemma DelayedBehind(q: Tour, u: string, n: nat, v: string)
    requires FoundOnlyAt(q, u, n)
    requires forall d: nat :: !AtHome(q, v, d)
    requires forall e :: e in EdgeSet(q.shards) && e.to == v ==> e.from == u
    ensures FoundOnlyAt(q, v, n + 1)
  {
    forall d: nat | Finds(q, v, d) ensures d == n + 1 {
      var g: nat :| InLayer(q, g, v, d);
      assert OnOffer(q, g, v, d);
      if g == 0 {
        var h, e :| AwayEdge(q.shards, q.home, h, e) && e.to == v && AtHome(q, e.from, d - 1);
        assert e in EdgeSet(q.shards) && Finds(q, u, d - 1);
      } else {
        var e :| e in EdgeSet(q.shards) && e.to == v && InLayer(q, g - 1, e.from, d - 1);
        assert Away(q, u, d - 1) && Finds(q, u, d - 1);
      }
    }
  }

  lemma {:induction false} HomeStaysFound(q: Tour, g: nat, v: string, d: nat)
    requires AtHome(q, v, d)
    ensures FoundBefore(q, g, v)
  {
    if g > 0 {
      var h := g - 1;
      HomeStaysFound(q, h, v, d);
    }
  }

  /** What is at home is found there and nowhere else. */
  lemma HomeDepthIsFinal(q: Tour, v: string, n: nat)
    requires AtHome(q, v, n)
    ensures FoundOnlyAt(q, v, n)
  {
    var es := HomeSet(q.shards, q.home);
    forall d: nat | Finds(q, v, d) ensures d == n {
      if AtHome(q, v, d) {
        DistanceIsLeast(es, q.start, v, d, n);
        DistanceIsLeast(es, q.start, v, n, d);
      } else {
        var g: nat :| InLayer(q, g, v, d);
        HomeStaysFound(q, g, v, n);
      }
    }
  }

  // Content of the other shards that makes a walk miss a vertex.

  function Bound(names: seq<string>): (m: nat)
    ensures forall name :: name in names ==> |name| < m
  {
    if |names| == 0 then 0
    else
      var init, name := names[..|names| - 1], names[|names| - 1];
      assert names == init + [name];
      Bound(init) + |name| + 1
  }

  function Names(es: seq<Edge>): (names: seq<string>)
    ensures forall e :: e in es ==> e.id in names && e.from in names && e.to in names
  {
    if |es| == 0 then []
    else
      var init, e := es[..|es| - 1], es[|es| - 1];
      assert es == init + [e];
      Names(init) + [e.id, e.from, e.to]
  }

  function Name(n: nat): (name: string)
    ensures |name| == n
  {
    seq(n, _ => 'x')
  }

  /** What the start shard holds, the start, a vertex two hops away inside that shard, the vertices to
      store and the number of edges to add elsewhere. */
  datatype Trap = Trap(live: seq<Edge>, start: string, middle: string, stored: seq<string>, n: nat)
  {
    function Base(): nat {
      Bound(Names(live)) + Bound(stored) + |start| + |middle| + 1
    }

    /** The middle vertex and then new vertices. */
    function Stop(i: nat): string {
      if i == 0 then middle else Name(Base() + i)
    }

    /** A shortcut from the start to the middle vertex and then a chain away from it. */
    function Link(i: nat): Edge {
      Edge(Name(Base() + n + 1 + i), if i == 0 then start else Stop(i - 1), Stop(i), "", map[])
    }

    function Links(): seq<Edge> {
      seq(n, i requires 0 <= i < n => Link(i))
    }

    /** The end of the chain. */
    function End(): string
      requires n > 0
    {
      Stop(n - 1)
    }

    function NewStops(): (stops: seq<string>)
      ensures forall i :: 0 <= i < |stops| ==> |stops[i]| == Base() + 1 + i && i + 1 < n
    {
      if n == 0 then []
      else
        var stops := seq(n - 1, i requires 0 <= i < n - 1 => Name(Base() + 1 + i));
        assert forall i :: 0 <= i < n - 1 ==> stops[i] == Name(Base() + 1 + i);
        stops
    }

    /** The vertices to store. */
    function Places(): seq<string> {
      stored + NewStops()
    }
  }

  /** The question a trap is set for, however the added edges are spread over the other shards. */
  ghost predicate SetFor(p: Trap, q: Tour) {
    && q.start == p.start && q.maxDepth == p.n
    && HomeSet(q.shards, q.home) == Held(p.live)
    && EdgeSet(q.shards) == Held(p.live) + Held(p.Links())
  }

  lemma TrapEdges(p: Trap, q: Tour)
    requires SetFor(p, q)
    ensures forall e :: e in EdgeSet(q.shards) <==> e in p.live || exists i :: 0 <= i < p.n && e == p.Link(i)
  {
    forall e | e in p.Links() ensures exists i :: 0 <= i < p.n && e == p.Link(i) {
      var i :| 0 <= i < p.n && p.Links()[i] == e;
    }
    forall i | 0 <= i < p.n ensures p.Link(i) in p.Links() {
      assert p.Links()[i] == p.Link(i);
    }
  }

  lemma LinkIdsDiffer(p: Trap)
    ensures DistinctIds(p.Links())
  {
    forall i, j | 0 <= i < j < p.n ensures p.Links()[i].id != p.Links()[j].id {
      assert |p.Link(i).id| != |p.Link(j).id|;
    }
  }

  lemma LinkIdsAreLong(p: Trap, e: Edge)
    requires e in p.Links()
    ensures |e.id| > p.Base() + p.n
  {
    var k :| 0 <= k < p.n && p.Links()[k] == e;
    assert e == p.Link(k);
  }

  lemma OneMoreHop(es: set<Edge>, start: string, e: Edge, n: nat)
    requires e in es && e.from in Within(es, start, n)
    ensures e.to in Within(es, start, n + 1)
  {
  }

  /** Stop i is within i + 1 hops. */
  lemma {:induction false} TrapIsNear(p: Trap, q: Tour, i: nat)
    requires SetFor(p, q) && i < p.n
    ensures p.Stop(i) in Within(EdgeSet(q.shards), p.start, i + 1)
  {
    TrapEdges(p, q);
    var e := p.Link(i);
    if i > 0 {
      TrapIsNear(p, q, i - 1);
    }
    OneMoreHop(EdgeSet(q.shards), p.start, e, i);
  }

  lemma {:induction false} EnteredByEdge(es: set<Edge>, start: string, v: string, n: nat)
    requires v in Within(es, start, n)
    ensures v == start || exists e :: e in es && e.to == v
  {
    if n > 0 && v in Within(es, start, n - 1) {
      EnteredByEdge(es, start, v, n - 1);
    }
  }

  lemma NewStopIsAway(p: Trap, q: Tour, i: nat)
    requires SetFor(p, q) && 0 < i < p.n
    ensures forall d: nat :: !AtHome(q, p.Stop(i), d)
    ensures forall e :: e in EdgeSet(q.shards) && e.to == p.Stop(i) ==> e.from == p.Stop(i - 1)
  {
    TrapEdges(p, q);
    forall d: nat ensures !AtHome(q, p.Stop(i), d) {
      if p.Stop(i) in Within(Held(p.live), p.start, d) {
        EnteredByEdge(Held(p.live), p.start, p.Stop(i), d);
      }
    }
    forall e | e in EdgeSet(q.shards) && e.to == p.Stop(i) ensures e.from == p.Stop(i - 1) {
      if k :| 0 <= k < p.n && e == p.Link(k) {
        assert |p.Stop(k)| == |p.Stop(i)|;
      }
    }
  }

  lemma NextStopIsLate(p: Trap, q: Tour, i: nat)
    requires SetFor(p, q) && 0 < i < p.n && FoundOnlyAt(q, p.Stop(i - 1), i + 1)
    ensures FoundOnlyAt(q, p.Stop(i), i + 2)
  {
    NewStopIsAway(p, q, i);
    DelayedBehind(q, p.Stop(i - 1), i + 1, p.Stop(i));
  }

  /** Stop i is found two hops further down the chain than it lies, if at all. */
  lemma {:induction false} ChainIsLate(p: Trap, q: Tour, i: nat)
    requires SetFor(p, q) && i < p.n && FoundOnlyAt(q, p.Stop(0), 2)
    ensures FoundOnlyAt(q, p.Stop(i), i + 2)
  {
    if i > 0 {
      ChainIsLate(p, q, i - 1);
      NextStopIsLate(p, q, i);
    }
  }

  lemma FirstStopIsLate(p: Trap, q: Tour)
    requires SetFor(p, q) && p.n >= 2 && IsDistance(Held(p.live), p.start, p.middle, 2)
    ensures FoundOnlyAt(q, p.Stop(0), 2)
  {
    HomeDepthIsFinal(q, p.middle, 2);
  }

  lemma EndIsLate(p: Trap, q: Tour)
    requires SetFor(p, q) && p.n > 0 && FoundOnlyAt(q, p.Stop(0), 2)
    ensures FoundOnlyAt(q, p.End(), p.n + 1)
  {
    ChainIsLate(p, q, p.n - 1);
  }

  lemma FoundWithinLimit(q: Tour, v: string, d: nat)
    requires Finds(q, v, d)
    ensures d <= Limit(q.maxDepth)
  {
    if !AtHome(q, v, d) {
      var g: nat :| InLayer(q, g, v, d);
      assert OnOffer(q, g, v, d);
    }
  }

  lemma TooLate(q: Tour, v: string)
    requires v in Within(EdgeSet(q.shards), q.start, Limit(q.maxDepth))
    requires FoundOnlyAt(q, v, Limit(q.maxDepth) + 1)
    ensures !Complete(q) && forall d: nat :: !Finds(q, v, d)
  {
    forall d: nat | Finds(q, v, d) ensures d <= Limit(q.maxDepth) {
      FoundWithinLimit(q, v, d);
    }
  }

  /** With n links the walk limited to n hops misses the end of the chain, which is n hops away. */
  lemma TrapMisses(p: Trap, q: Tour)
    requires SetFor(p, q) && p.n >= 2 && IsDistance(Held(p.live), p.start, p.middle, 2)
    ensures p.End() in Within(EdgeSet(q.shards), q.start, p.n)
    ensures !Complete(q) && forall d: nat :: !Finds(q, p.End(), d)
  {
    TrapIsNear(p, q, p.n - 1);
    FirstStopIsLate(p, q);
    EndIsLate(p, q);
    assert Limit(q.maxDepth) == p.n;
    TooLate(q, p.End());
  }

  // Every such trap can be set.

  function PutAll(ids: seq<string>): seq<Op> {
    if |ids| == 0 then []
    else PutAll(ids[..|ids| - 1]) + [PutVertexOp(Vertex(ids[|ids| - 1], "", map[]))]
  }

  lemma {:induction false} VerticesScene(cfg: Config, ids: seq<string>) returns (g: Graph)
    requires ValidConfig(cfg) && NoDup(ids) && "" !in ids
    ensures Scene(cfg, PutAll(ids), g) && g.vertices.Keys == (set v | v in ids) && g.edges == {}
    ensures Run(cfg, FreshState(cfg), PutAll(ids)).shards == FreshState(cfg).shards
  {
    if |ids| == 0 {
      EmptyScene(cfg);
      g := NOTHING;
    } else {
      var init, v := ids[..|ids| - 1], Vertex(ids[|ids| - 1], "", map[]);
      assert ids == init + [v.id];
      var before := VerticesScene(cfg, init);
      AddVertex(cfg, PutAll(init), before, v);
      g := Apply(before, VertexRecord(v));
    }
  }

  /** A shard's content and vertices to store beside it that no id confuses, the start among them. */
  ghost predicate Storable(cfg: Config, live: seq<Edge>, start: string, stored: seq<string>) {
    && DistinctIds(live) && |live| <= cfg.capacity && NoDup(stored) && "" !in stored && start in stored
    && forall e :: e in live ==> e.id !in stored
  }

  /** Store the vertices, spread the added edges over generations of the start's bucket that are then
      sealed, and fill the next generation with the content of the start shard. */
  function SetTrap(p: Trap, b: nat): seq<Op> {
    PutAll(p.Places()) + Spread(p.Links(), b) + PutInto(p.live, b)
  }

  lemma PlacesAreNew(p: Trap)
    requires NoDup(p.stored) && "" !in p.stored
    ensures NoDup(p.Places()) && "" !in p.Places()
    ensures forall v :: v in p.Places() ==> v in p.stored || p.Base() < |v| < p.Base() + p.n
  {
    forall i, j | 0 <= i < j < |p.Places()| ensures p.Places()[i] != p.Places()[j] {
      if i < |p.stored| <= j {
        assert p.stored[i] in p.stored && |p.stored[i]| < p.Base();
      }
    }
  }

  lemma LinksAreNew(p: Trap, g: Graph)
    requires g.vertices.Keys == (set v | v in p.Places()) && g.edges == {} && NoDup(p.stored) && "" !in p.stored
    ensures AllNew(g, p.Links())
  {
    LinkIdsDiffer(p);
    PlacesAreNew(p);
    forall e | e in p.Links() ensures NewId(g, e.id) {
      LinkIdsAreLong(p, e);
      assert forall v :: v in p.stored ==> |v| < p.Base();
    }
  }

  lemma ContentIsNew(cfg: Config, p: Trap, g: Graph)
    requires Storable(cfg, p.live, p.start, p.stored)
    requires g.vertices.Keys == (set v | v in p.Places()) && g.edges == Held(p.Links())
    ensures AllNew(g, p.live)
  {
    PlacesAreNew(p);
    forall e | e in p.live ensures NewId(g, e.id) {
      assert e.id in Names(p.live) && |e.id| < p.Base();
      forall f | f in p.Links() ensures f.id != e.id {
        LinkIdsAreLong(p, f);
      }
    }
  }

  lemma TrapStage(cfg: Config, p: Trap, b: nat) returns (g: Graph)
    requires ValidConfig(cfg) && Storable(cfg, p.live, p.start, p.stored) && b < cfg.buckets
    ensures Stage(cfg, SetTrap(p, b), g, b, p.live)
    ensures g.vertices.Keys == (set v | v in p.Places()) && g.edges == Held(p.Links()) + Held(p.live)
  {
    PlacesAreNew(p);
    g := VerticesScene(cfg, p.Places());
    SceneIsStage(cfg, PutAll(p.Places()), g, b);
    LinksAreNew(p, g);
    SpreadStage(cfg, PutAll(p.Places()), g, b, p.Links());
    g := g.(edges := g.edges + Held(p.Links()));
    ContentIsNew(cfg, p, g);
    PutIntoStage(cfg, PutAll(p.Places()) + Spread(p.Links(), b), g, b, p.live);
    g := g.(edges := g.edges + Held(p.live));
  }

  // The main results.

  /** The run leads to a store in which the start is stored and its shard holds exactly these edges. */
  ghost predicate StartsFrom(cfg: Config, ops: seq<Op>, start: string, live: seq<Edge>) {
    && AdmissibleRun(cfg, FreshState(cfg), ops)
    && var s := Run(cfg, FreshState(cfg), ops);
       var home := HomeShard(cfg, s.route, s.shards, start);
       start in s.vertices && home < |s.shards| && s.shards[home].live == live
  }

  ghost function TourAfter(cfg: Config, ops: seq<Op>, start: string, maxDepth: int): Tour {
    var s := Run(cfg, FreshState(cfg), ops);
    TourFrom(cfg, s.route, s.shards, start, maxDepth)
  }

  lemma StageIsHome(cfg: Config, ops: seq<Op>, g: Graph, start: string, live: seq<Edge>)
    requires ValidConfig(cfg) && Stage(cfg, ops, g, Bucket(cfg, start), live) && start in g.vertices
    ensures StartsFrom(cfg, ops, start, live)
  {
    UnheldRunIsAdmissible(cfg, FreshState(cfg), ops);
    assert Fronted(Run(cfg, FreshState(cfg), ops), Bucket(cfg, start));
  }

  lemma TrapIsSet(cfg: Config, p: Trap)
    requires ValidConfig(cfg) && Storable(cfg, p.live, p.start, p.stored)
    ensures var ops := SetTrap(p, Bucket(cfg, p.start));
            StartsFrom(cfg, ops, p.start, p.live) && SetFor(p, TourAfter(cfg, ops, p.start, p.n))
  {
    BucketInRange(cfg, p.start);
    var ops := SetTrap(p, Bucket(cfg, p.start));
    var g := TrapStage(cfg, p, Bucket(cfg, p.start));
    assert p.start in p.Places();
    StageIsHome(cfg, ops, g, p.start, p.live);
    assert GraphOf(Run(cfg, FreshState(cfg), ops)) == g;
    var q := TourAfter(cfg, ops, p.start, p.n);
    assert HomeSet(q.shards, q.home) == Held(p.live);
  }

  lemma NotFoundNotReturned(q: Tour, t: HomeTrace, drained: seq<Continuation>, out: seq<Path>, visited: set<string>,
                            v: string)
    requires Walked(q.shards, q.home, q.start, q.maxDepth, t, drained, out, visited) && forall d: nat :: !Finds(q, v, d)
    ensures v !in Ends(out)
  {
    EndsAreReturned(out);
    if d: nat :| Returned(out, v, d) {
      WalkFindsExactly(q, t, drained, out, visited, v, d);
    }
  }

  /** Whatever the start shard holds, as long as some vertex is two of its own hops from the start, and whatever
      the limit from two on: an admissible run of puts and rotations leads to a store with that start shard in
      which no finished walk returns the end of the chain, although it lies within the limit. */
  lemma DepthLimitCanMissNearVertices(cfg: Config, p: Trap)
    requires ValidConfig(cfg) && Storable(cfg, p.live, p.start, p.stored)
    requires p.n >= 2 && IsDistance(Held(p.live), p.start, p.middle, 2)
    ensures var ops, v := SetTrap(p, Bucket(cfg, p.start)), p.End();
            var q := TourAfter(cfg, ops, p.start, p.n);
            && StartsFrom(cfg, ops, p.start, p.live)
            && v in Within(EdgeSet(q.shards), q.start, p.n)
            && forall t, drained, out, visited ::
                 Walked(q.shards, q.home, q.start, q.maxDepth, t, drained, out, visited) ==> v !in Ends(out)
  {
    var q := TourAfter(cfg, SetTrap(p, Bucket(cfg, p.start)), p.start, p.n);
    TrapIsSet(cfg, p);
    TrapMisses(p, q);
    forall t, drained, out, visited | Walked(q.shards, q.home, q.start, q.maxDepth, t, drained, out, visited)
      ensures p.End() !in Ends(out)
    {
      NotFoundNotReturned(q, t, drained, out, visited, p.End());
    }
  }

  /** The condition on the start shard is enough in any state at all, reachable or not. */
  lemma ShallowContentIsComplete(q: Tour, live: seq<Edge>)
    requires HomeSet(q.shards, q.home) == Held(live)
    requires q.maxDepth < 2 || forall v :: !IsDistance(Held(live), q.start, v, 2)
    ensures Complete(q)
  {
    ShallowWhen(q);
    ShallowIsComplete(q);
  }

  /** Over the stores a run can reach with this start shard, a walk at a given limit misses nothing, whatever
      the other shards hold, exactly when the limit is below two or the start shard has no vertex exactly
      two of its own hops from the start. */
  lemma CompleteForEveryContentExactlyWhen(cfg: Config, live: seq<Edge>, start: string, maxDepth: int)
    requires ValidConfig(cfg) && Storable(cfg, live, start, [start])
    ensures (forall ops :: StartsFrom(cfg, ops, start, live) ==> Complete(TourAfter(cfg, ops, start, maxDepth)))
       <==> maxDepth < 2 || forall v :: !IsDistance(Held(live), start, v, 2)
  {
    if maxDepth < 2 || forall v :: !IsDistance(Held(live), start, v, 2) {
      forall ops | StartsFrom(cfg, ops, start, live) ensures Complete(TourAfter(cfg, ops, start, maxDepth)) {
        var q := TourAfter(cfg, ops, start, maxDepth);
        assert HomeSet(q.shards, q.home) == Held(live);
        ShallowContentIsComplete(q, live);
      }
    } else {
      var v :| IsDistance(Held(live), start, v, 2);
      var p := Trap(live, start, v, [start], maxDepth);
      TrapIsSet(cfg, p);
      TrapMisses(p, TourAfter(cfg, SetTrap(p, Bucket(cfg, start)), start, maxDepth));
    }
  }
}
