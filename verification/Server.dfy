/** The walk handler of the server (cmd/graphstore): a walker over a store that some run has produced. */
module Server {
  import opened GraphModel
  import opened LabelSpec
  import opened StoreSpec
  import opened Integrity
  import opened Runs
  import opened Stores
  import opened WalkSpec
  import opened Walks
  import opened Walkers

  /** The store is in the state the operations lead to. */
  ghost predicate Reached(store: Store, ops: seq<Op>)
    reads store, store.Repr()
  {
    && store.Valid()
    && AdmissibleRun(store.cfg, FreshState(store.cfg), ops)
    && store.View() == Run(store.cfg, FreshState(store.cfg), ops)
  }

  /** Whatever happened to a store, walkers can read it and its entry points are stored. */
  lemma ReachedIsReadable(store: Store, ops: seq<Op>)
    requires Reached(store, ops)
    ensures Reads(store, store.manager.States()) && Labelled(store.labelIndex.entries, store.vertices)
  {
    RunKeeps(store.cfg, ops);
    store.RoutedIsReadable();
  }

  /** Walks from a label if one is given and else from a vertex. Uncancelled, a walk from a label never
      fails and one from a vertex fails exactly when the vertex is not stored. */
  method HandleWalk(walker: Walker, ctx: Context, tag: string, start: string, maxDepth: int, ghost ops: seq<Op>)
    returns (r: Result<seq<Path>>, ghost walks: seq<seq<Path>>)
    requires Reached(walker.store, ops)
    modifies walker, walker.session
    ensures ctx.Background? ==> (r.Err? <==> tag == "" && start !in walker.store.vertices)
    ensures ctx.Spent? && (tag == "" || Entered(walker.store.labelIndex.entries, tag) != []) ==> r.Err?
    ensures var store := walker.store;
            r.Ok? ==>
              if tag != "" then
                var entries := Entered(store.labelIndex.entries, tag);
                |walks| == |entries|
                && Gathered(store.cfg, store.router.route, store.manager.States(), entries, maxDepth, walks, r.value)
              else
                Answers(TourFrom(store.cfg, store.router.route, store.manager.States(), start, maxDepth), r.value)
  {
    ghost var shards := walker.store.manager.States();
    ReachedIsReadable(walker.store, ops);
    walks := [];
    if tag != "" {
      r, walks := walker.WalkFromLabel(ctx, tag, maxDepth, shards);
    } else {
      var found, _, _, _ := walker.Walk(ctx, start, maxDepth, shards);
      r := found;
    }
  }
}
