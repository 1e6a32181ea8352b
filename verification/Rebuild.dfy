/** The label rebuild job (internal/rebuild/rebuild.go): a pass into an index of its own, published only
    when it is complete. */
module Rebuilders {
  import opened Seqs
  import opened GraphModel
  import opened LabelSpec
  import opened LabelIndexes
  import opened StoreSpec
  import opened Stores
  import opened Walks

  lemma {:induction false} BuildStops(vs: seq<Vertex>, cap: nat, n: nat)
    requires n <= |vs| && BuildLabels(vs[..n], cap).Err?
    ensures BuildLabels(vs, cap) == BuildLabels(vs[..n], cap)
    decreases |vs| - n
  {
    if n == |vs| {
      assert vs[..n] == vs;
    } else {
      assert vs[..n + 1][..n] == vs[..n];
      BuildStops(vs, cap, n + 1);
    }
  }

  class Rebuilder {
    const store: Store
    const index: LabelIndex
    var plan: Plan

    constructor (store: Store, index: LabelIndex)
      ensures this.store == store && this.index == index && plan == Plan([], map[], 0, 0)
    {
      this.store, this.index, plan := store, index, Plan([], map[], 0, 0);
    }

    /** Replaces the entries by those of a complete pass, or leaves them as they were. */
    method Rebuild(ctx: Context) returns (error: Option<Error>, ghost cancelled: bool)
      modifies this, index
      ensures cancelled ==> !ctx.Background? && error == Some(Error.Cancelled)
      ensures ctx.Spent? ==> cancelled
      ensures !cancelled ==> Plans(plan, AllVertices(store.vertices, store.vertexSeq)) && plan.indexLimit == index.cap
      ensures !cancelled ==>
                match BuildLabels(AllVertices(store.vertices, store.vertexSeq), index.cap)
                case Ok(complete) => error == None && index.entries == complete
                case Err(reason) => error == Some(reason)
      ensures error.Some? ==> index.entries == old(index.entries)
    {
      var stopped := Poll(ctx);
      if stopped {
        return Some(Error.Cancelled), true;
      }
      var vertices := store.ListVertices();
      plan := BuildPlan(vertices, index.cap);
      var before := index.Snapshot();
      var blank := new LabelIndex(index.cap);
      error, cancelled := Pass(ctx, blank);
      if error.Some? {
        index.Replace(before);
        return;
      }
      var complete := blank.Snapshot();
      index.Replace(complete);
    }

    /** For the store's own label index, this is the rebuild step of a run. */
    method RebuildStore(ctx: Context) returns (error: Option<Error>, ghost cancelled: bool)
      requires store.Valid() && index == store.labelIndex
      modifies this, index
      ensures cancelled ==> !ctx.Background?
      ensures store.Valid()
              && Outcome(store.View(), error) == StoreSpec.Rebuild(store.cfg, old(store.View()), cancelled)
    {
      error, cancelled := Rebuild(ctx);
    }

    /** Writes every labelled vertex into the given index and stops at the first failure. */
    method Pass(ctx: Context, target: LabelIndex) returns (error: Option<Error>, ghost cancelled: bool)
      requires target != index && target.entries == map[]
      modifies target
      ensures cancelled ==> !ctx.Background? && error == Some(Error.Cancelled)
      ensures !cancelled ==>
                match BuildLabels(AllVertices(store.vertices, store.vertexSeq), target.cap)
                case Ok(complete) => error == None && target.entries == complete
                case Err(reason) => error == Some(reason)
    {
      var vertices := store.ListVertices();
      error, cancelled := None, false;
      for i := 0 to |vertices|
        invariant BuildLabels(vertices[..i], target.cap) == Ok(target.entries) && error == None
      {
        assert vertices[..i + 1][..i] == vertices[..i];
        var stopped := Poll(ctx);
        if stopped {
          return Some(Error.Cancelled), true;
        }
        if vertices[i].tag != "" {
          var added := target.Add(vertices[i].tag, vertices[i].id);
          if added.Err? {
            BuildStops(vertices, target.cap, i + 1);
            return Some(added.error), false;
          }
        }
      }
      assert vertices[..|vertices|] == vertices;
    }

    /** How many vertices carry a label. */
    method CountLabelled() returns (count: nat)
      ensures count == |Filter(AllVertices(store.vertices, store.vertexSeq), LabelIndexes.Labelled())|
    {
      var vertices := store.ListVertices();
      count := 0;
      for i := 0 to |vertices|
        invariant count == |Filter(vertices[..i], LabelIndexes.Labelled())|
      {
        assert vertices[..i + 1] == vertices[..i] + [vertices[i]];
        FilterSnoc(vertices[..i], vertices[i], LabelIndexes.Labelled());
        if vertices[i].tag != "" {
          count := count + 1;
        }
      }
      assert vertices[..|vertices|] == vertices;
    }
  }
}
