/** The label entry index (internal/label) and the plan of a rebuild (internal/rebuild/planner.go). */
module LabelIndexes {
  import opened Seqs
  import opened GraphModel
  import opened Text
  import opened LabelSpec
  import opened LabelTheory

  /** The constructor replaces any other capacity by the default. */
  type Positive = n: nat | n > 0 witness 1

  class LabelIndex {
    const cap: Positive
    var entries: Labels

    constructor (capacity: int)
      ensures entries == map[] && cap == (if capacity <= 0 then DEFAULT_LABEL_CAP else capacity)
    {
      cap := if capacity <= 0 then DEFAULT_LABEL_CAP else capacity;
      entries := map[];
    }

    method Add(tag: string, id: string) returns (r: Result<()>)
      modifies this
      ensures match AddLabel(old(entries), cap, tag, id)
              case Ok(after) => r == Ok(()) && entries == after
              case Err(error) => r == Err(error) && unchanged(this)
    {
      if Blank(tag) || Utf8Length(tag) > MAX_LABEL_BYTES {
        return Err(InvalidLabel);
      }
      if Blank(id) {
        return Err(InvalidLabel);
      }
      var ids := Entered(entries, tag);
      for i := 0 to |ids|
        invariant id !in ids[..i]
      {
        if ids[i] == id {
          return Ok(());
        }
      }
      if cap - |ids| <= 0 {
        return Err(IndexFull);
      }
      entries := entries[tag := ids + [id]];
      r := Ok(());
    }

    method Remove(tag: string, id: string)
      modifies this
      ensures entries == RemoveLabel(old(entries), tag, id)
    {
      var ids := Entered(entries, tag);
      for i := 0 to |ids|
        invariant id !in ids[..i]
        invariant entries == old(entries)
      {
        if ids[i] == id {
          FirstIndex(ids, id, i);
          entries := entries[tag := ids[..i] + ids[i + 1..]];
          if |entries[tag]| == 0 {
            entries := entries - {tag};
          }
          return;
        }
      }
    }

    static lemma FirstIndex(ids: seq<string>, id: string, i: nat)
      requires i < |ids| && ids[i] == id && id !in ids[..i]
      ensures IndexOf(ids, id) == i
    {
      var k := IndexOf(ids, id);
      assert forall j :: 0 <= j < i ==> ids[..i][j] != id;
      assert forall j :: 0 <= j < k ==> ids[..k][j] != id;
    }

    method Lookup(tag: string) returns (out: seq<string>)
      ensures out == Entered(entries, tag)
    {
      out := Entered(entries, tag);
    }

    /** A copy of all entries, whatever order the map is walked in. */
    method Snapshot() returns (out: Labels)
      ensures out == entries
    {
      out := CopyLabels(entries);
    }

    method Replace(content: Labels)
      modifies this
      ensures entries == content
    {
      entries := CopyLabels(content);
    }
  }

  method CopyLabels(content: Labels) returns (out: Labels)
    ensures out == content
  {
    out := map[];
    var left := content.Keys;
    while left != {}
      invariant left <= content.Keys && out.Keys == content.Keys - left
      invariant forall tag :: tag in out ==> out[tag] == content[tag]
      decreases left
    {
      var tag :| tag in left;
      out := out[tag := content[tag]];
      left := left - {tag};
    }
  }

  datatype Plan = Plan(labels: seq<string>, perLabel: map<string, nat>, total: nat, indexLimit: nat)

  /** The plan counts each label's vertices. */
  ghost predicate Plans(plan: Plan, vs: seq<Vertex>) {
    && (forall tag :: tag in plan.perLabel <==> tag != "" && |Filter(vs, TagIs(tag))| > 0)
    && (forall tag :: tag in plan.perLabel ==> plan.perLabel[tag] == |Filter(vs, TagIs(tag))|)
  }

  function TagIn(tags: set<string>): Vertex -> bool {
    (v: Vertex) => v.tag in tags
  }

  lemma {:induction false} CountUnion(vs: seq<Vertex>, tags: set<string>, tag: string)
    requires tag !in tags
    ensures |Filter(vs, TagIn(tags + {tag}))| == |Filter(vs, TagIn(tags))| + |Filter(vs, TagIs(tag))|
  {
    if |vs| > 0 {
      CountUnion(vs[..|vs| - 1], tags, tag);
    }
  }

  lemma {:induction false} CountNone(vs: seq<Vertex>)
    ensures |Filter(vs, TagIn({}))| == 0
  {
    if |vs| > 0 {
      CountNone(vs[..|vs| - 1]);
    }
  }

  lemma {:induction false} CountSame(vs: seq<Vertex>, p: Vertex -> bool, q: Vertex -> bool)
    requires forall v :: v in vs ==> p(v) == q(v)
    ensures Filter(vs, p) == Filter(vs, q)
  {
    if |vs| > 0 {
      assert vs == vs[..|vs| - 1] + [vs[|vs| - 1]];
      CountSame(vs[..|vs| - 1], p, q);
    }
  }

  function Labelled(): Vertex -> bool {
    (v: Vertex) => v.tag != ""
  }

  lemma OneMoreTag(vs: seq<Vertex>, keys: set<string>, left: set<string>, tag: string)
    requires tag in left && left <= keys
    ensures |Filter(vs, TagIn(keys - (left - {tag})))| == |Filter(vs, TagIn(keys - left))| + |Filter(vs, TagIs(tag))|
  {
    CountUnion(vs, keys - left, tag);
    assert keys - left + {tag} == keys - (left - {tag});
  }

  lemma AllTagsAreAll(vs: seq<Vertex>, counts: map<string, nat>)
    requires Plans(Plan([], counts, 0, 0), vs)
    ensures Filter(vs, TagIn(counts.Keys)) == Filter(vs, Labelled())
  {
    forall v | v in vs ensures TagIn(counts.Keys)(v) == Labelled()(v) {
      FilterMembers(vs, TagIs(v.tag));
      assert v in Filter(vs, TagIs(v.tag));
    }
    CountSame(vs, TagIn(counts.Keys), Labelled());
  }

  method BuildPlan(vs: seq<Vertex>, indexLimit: nat) returns (plan: Plan)
    ensures Plans(plan, vs) && plan.indexLimit == indexLimit
    ensures Increasing(plan.labels) && forall tag :: tag in plan.labels <==> tag in plan.perLabel
    ensures plan.total == |Filter(vs, Labelled())|
  {
    var counts := CountLabels(vs);
    var labels, total := ListLabels(vs, counts);
    AllTagsAreAll(vs, counts);
    SortedMeans(labels);
    plan := Plan(labels, counts, total, indexLimit);
  }

  /** The counted labels in order, and the sum of their counts. */
  method ListLabels(vs: seq<Vertex>, counts: map<string, nat>) returns (labels: seq<string>, total: nat)
    requires forall tag :: tag in counts ==> counts[tag] == |Filter(vs, TagIs(tag))|
    ensures SortedStrictly(labels) && forall tag :: tag in labels <==> tag in counts
    ensures total == |Filter(vs, TagIn(counts.Keys))|
  {
    var left := counts.Keys;
    labels, total := [], 0;
    CountNone(vs);
    assert counts.Keys - left == {};
    while left != {}
      invariant left <= counts.Keys
      invariant SortedStrictly(labels) && forall tag :: tag in labels <==> tag in counts && tag !in left
      invariant total == |Filter(vs, TagIn(counts.Keys - left))|
      decreases left
    {
      var tag :| tag in left;
      OneMoreTag(vs, counts.Keys, left, tag);
      labels := InsertSorted(labels, tag);
      total := total + counts[tag];
      left := left - {tag};
    }
    assert counts.Keys - left == counts.Keys;
  }

  method CountLabels(vs: seq<Vertex>) returns (counts: map<string, nat>)
    ensures Plans(Plan([], counts, 0, 0), vs)
  {
    counts := map[];
    for i := 0 to |vs|
      invariant Plans(Plan([], counts, 0, 0), vs[..i])
    {
      assert vs[..i + 1] == vs[..i] + [vs[i]];
      forall tag
        ensures |Filter(vs[..i + 1], TagIs(tag))| == |Filter(vs[..i], TagIs(tag))| + (if vs[i].tag == tag then 1 else 0)
      {
        FilterSnoc(vs[..i], vs[i], TagIs(tag));
      }
      var tag := vs[i].tag;
      if tag != "" {
        counts := counts[tag := (if tag in counts then counts[tag] else 0) + 1];
      }
    }
    assert vs[..|vs|] == vs;
  }

  /** Feasible reports exactly whether no label has more vertices than the limit. */
  method IsFeasible(plan: Plan, vs: seq<Vertex>) returns (ok: bool)
    requires Plans(plan, vs)
    ensures ok <==> Feasible(vs, plan.indexLimit)
  {
    var left := plan.perLabel.Keys;
    while left != {}
      invariant left <= plan.perLabel.Keys
      invariant forall tag :: tag in plan.perLabel && tag !in left ==> plan.perLabel[tag] <= plan.indexLimit
      decreases left
    {
      var tag :| tag in left;
      if plan.perLabel[tag] > plan.indexLimit {
        return false;
      }
      left := left - {tag};
    }
    ok := true;
  }
}
