/** What a label rebuild publishes and exactly when it succeeds. */
module LabelTheory {
  import opened Seqs
  import opened GraphModel
  import opened Text
  import opened LabelSpec
  import opened ShardSpec
  import opened StoreSpec
  import opened Integrity

  function TagIs(tag: string): Vertex -> bool {
    (v: Vertex) => v.tag == tag
  }

  function VertexIds(vs: seq<Vertex>): seq<string> {
    seq(|vs|, i requires 0 <= i < |vs| => vs[i].id)
  }

  /** Every labelled vertex can be registered at all. */
  ghost predicate Registrable(vs: seq<Vertex>) {
    forall v :: v in vs && v.tag != "" ==> ValidLabel(v.tag) && !Blank(v.id)
  }

  /** No label has more vertices than the index admits. */
  ghost predicate Feasible(vs: seq<Vertex>, cap: nat) {
    forall tag :: tag != "" ==> |Filter(vs, TagIs(tag))| <= cap
  }

  ghost predicate Lists(entries: Labels, vs: seq<Vertex>) {
    forall tag ::
      && Entered(entries, tag) == (if tag == "" then [] else VertexIds(Filter(vs, TagIs(tag))))
      && (tag in entries <==> Entered(entries, tag) != [])
  }

  lemma FilteredIds(vs: seq<Vertex>, p: Vertex -> bool, id: string)
    requires id !in VertexIds(vs)
    ensures id !in VertexIds(Filter(vs, p))
  {
    FilterMembers(vs, p);
    var ids := VertexIds(Filter(vs, p));
    forall k | 0 <= k < |ids| ensures ids[k] != id {
      var v := Filter(vs, p)[k];
      assert v in vs;
      var j :| 0 <= j < |vs| && vs[j] == v;
      assert VertexIds(vs)[j] == v.id;
    }
  }

  lemma ListsAfterSkip(entries: Labels, vs: seq<Vertex>, v: Vertex)
    requires Lists(entries, vs) && v.tag == ""
    ensures Lists(entries, vs + [v])
  {
    forall tag ensures tag != "" ==> Filter(vs + [v], TagIs(tag)) == Filter(vs, TagIs(tag)) {
      FilterSnoc(vs, v, TagIs(tag));
    }
  }

  lemma VertexIdsSnoc(vs: seq<Vertex>, v: Vertex)
    ensures VertexIds(vs + [v]) == VertexIds(vs) + [v.id]
  {
  }

  lemma EnteredAfterAdd(vs: seq<Vertex>, v: Vertex, tag: string)
    ensures VertexIds(Filter(vs + [v], TagIs(tag))) == VertexIds(Filter(vs, TagIs(tag)))
            + (if v.tag == tag then [v.id] else [])
  {
    FilterSnoc(vs, v, TagIs(tag));
    if v.tag == tag {
      VertexIdsSnoc(Filter(vs, TagIs(tag)), v);
    }
  }

  lemma ListsAfterAdd(entries: Labels, vs: seq<Vertex>, v: Vertex)
    requires Lists(entries, vs) && v.tag != ""
    ensures Lists(entries[v.tag := Entered(entries, v.tag) + [v.id]], vs + [v])
  {
    var after := entries[v.tag := Entered(entries, v.tag) + [v.id]];
    forall tag
      ensures Entered(after, tag) == if tag == "" then [] else VertexIds(Filter(vs + [v], TagIs(tag)))
      ensures tag in after <==> Entered(after, tag) != []
    {
      EnteredAfterAdd(vs, v, tag);
      assert tag in entries <==> Entered(entries, tag) != [];
    }
  }

  lemma FeasibleAfter(vs: seq<Vertex>, v: Vertex, cap: nat)
    ensures Feasible(vs + [v], cap) <==> Feasible(vs, cap) && (v.tag == "" || |Filter(vs, TagIs(v.tag))| < cap)
  {
    forall tag ensures |Filter(vs + [v], TagIs(tag))| == |Filter(vs, TagIs(tag))| + (if v.tag == tag then 1 else 0) {
      FilterSnoc(vs, v, TagIs(tag));
    }
    if Feasible(vs + [v], cap) {
      forall tag | tag != "" ensures |Filter(vs, TagIs(tag))| <= cap {
        assert |Filter(vs + [v], TagIs(tag))| <= cap;
      }
      if v.tag != "" {
        assert |Filter(vs + [v], TagIs(v.tag))| <= cap;
      }
    }
  }

  lemma AddLabelMeans(entries: Labels, vs: seq<Vertex>, v: Vertex, cap: nat)
    requires Lists(entries, vs) && v.id !in VertexIds(vs)
    ensures v.tag == "" ==> Lists(entries, vs + [v])
    ensures v.tag != "" ==>
              var r := AddLabel(entries, cap, v.tag, v.id);
              && (r.Ok? <==> ValidLabel(v.tag) && !Blank(v.id) && |Filter(vs, TagIs(v.tag))| < cap)
              && (r.Ok? ==> Lists(r.value, vs + [v]))
  {
    if v.tag == "" {
      ListsAfterSkip(entries, vs, v);
    } else {
      FilteredIds(vs, TagIs(v.tag), v.id);
      assert Entered(entries, v.tag) == VertexIds(Filter(vs, TagIs(v.tag)));
      ListsAfterAdd(entries, vs, v);
    }
  }

  /** A pass over distinct vertices goes through exactly when every labelled vertex is registrable and
      no label exceeds the cap; it then lists, per label, its vertices in insertion order. */
  lemma {:induction false} BuildLabelsMeans(vs: seq<Vertex>, cap: nat)
    requires NoDup(VertexIds(vs))
    ensures BuildLabels(vs, cap).Ok? <==> Registrable(vs) && Feasible(vs, cap)
    ensures BuildLabels(vs, cap).Ok? ==> Lists(BuildLabels(vs, cap).value, vs)
  {
    if |vs| == 0 {
    } else {
      var init, v := vs[..|vs| - 1], vs[|vs| - 1];
      assert vs == init + [v];
      assert VertexIds(vs) == VertexIds(init) + [v.id];
      NoDupSnoc(VertexIds(init), v.id);
      BuildLabelsMeans(init, cap);
      FeasibleAfter(init, v, cap);
      assert Registrable(vs) <==> Registrable(init) && (v.tag != "" ==> ValidLabel(v.tag) && !Blank(v.id));
      if BuildLabels(init, cap).Ok? {
        AddLabelMeans(BuildLabels(init, cap).value, init, v, cap);
      }
    }
  }

  // Dropping one vertex.

  lemma DropAppendedId(ids: seq<string>, id: string)
    requires id !in ids
    ensures Filter(ids + [id], IsNot(id)) == ids
  {
    FilterSnoc(ids, id, IsNot(id));
    FilterKeepsAll(ids, IsNot(id));
  }

  lemma FilterAround(low: seq<string>, id: string, high: seq<string>)
    requires id !in low && id !in high
    ensures Filter((low + [id]) + high, IsNot(id)) == low + high
  {
    FilterConcat(low + [id], high, IsNot(id));
    DropAppendedId(low, id);
    FilterKeepsAll(high, IsNot(id));
  }

  lemma DropOne(ids: seq<string>, id: string)
    requires NoDup(ids) && id in ids
    ensures var k := IndexOf(ids, id); Filter(ids, IsNot(id)) == ids[..k] + ids[k + 1..]
  {
    var k := IndexOf(ids, id);
    assert ids == (ids[..k] + [id]) + ids[k + 1..];
    assert id !in ids[k + 1..] by {
      assert forall j :: k < j < |ids| ==> ids[j] != ids[k];
    }
    FilterAround(ids[..k], id, ids[k + 1..]);
  }

  /** Removing a vertex from a label takes out that registration and nothing else; the label disappears
      with its last entry. */
  lemma RemoveLabelMeans(entries: Labels, tag: string, id: string)
    requires NoDup(Entered(entries, tag)) && forall x :: x in entries ==> entries[x] != []
    ensures var after := RemoveLabel(entries, tag, id);
            && Entered(after, tag) == Filter(Entered(entries, tag), IsNot(id))
            && (forall x :: x != tag ==> Entered(after, x) == Entered(entries, x) && (x in after <==> x in entries))
            && (tag in after <==> Entered(after, tag) != [])
  {
    var ids := Entered(entries, tag);
    if id in ids {
      DropOne(ids, id);
    } else {
      FilterKeepsAll(ids, IsNot(id));
    }
  }

  // The stored vertices in insertion order.

  lemma {:induction false} AllVerticesAre(vs: map<string, Vertex>, order: seq<string>)
    requires (forall id :: id in order ==> id in vs) && forall id :: id in vs ==> vs[id].id == id
    ensures VertexIds(AllVertices(vs, order)) == order
    ensures forall v :: v in AllVertices(vs, order) ==> v.id in vs && vs[v.id] == v
  {
    if |order| > 0 {
      var init := order[..|order| - 1];
      AllVerticesAre(vs, init);
      assert order == init + [order[|order| - 1]];
    }
  }

  lemma {:induction false} FilterVertexIds(all: seq<Vertex>, p: Vertex -> bool)
    requires NoDup(VertexIds(all))
    ensures NoDup(VertexIds(Filter(all, p)))
  {
    if |all| > 0 {
      var init, v := all[..|all| - 1], all[|all| - 1];
      assert VertexIds(all) == VertexIds(init) + [v.id];
      NoDupSnoc(VertexIds(init), v.id);
      FilterVertexIds(init, p);
      FilteredIds(init, p, v.id);
      assert VertexIds(Filter(init, p) + [v]) == VertexIds(Filter(init, p)) + [v.id];
      NoDupSnoc(VertexIds(Filter(init, p)), v.id);
      FilterLast(all, p);
    }
  }

  lemma ListsAreLabelled(entries: Labels, all: seq<Vertex>, vs: map<string, Vertex>)
    requires Lists(entries, all) && NoDup(VertexIds(all))
    requires forall v :: v in all ==> v.id in vs && vs[v.id] == v
    ensures Labelled(entries, vs)
  {
    forall tag | tag in entries
      ensures tag != "" && entries[tag] != [] && NoDup(entries[tag])
      ensures forall id :: id in entries[tag] ==> id in vs && vs[id].tag == tag
    {
      assert Entered(entries, tag) != [];
      FilterMembers(all, TagIs(tag));
      var chosen := Filter(all, TagIs(tag));
      assert entries[tag] == VertexIds(chosen);
      forall id | id in entries[tag] ensures id in vs && vs[id].tag == tag {
        var k :| 0 <= k < |chosen| && VertexIds(chosen)[k] == id;
        assert chosen[k] in all;
      }
      FilterVertexIds(all, TagIs(tag));
    }
  }

  /** An uncancelled rebuild of a sound store publishes exactly the labelled vertices or, on any
      failure or cancellation, leaves the labels as they were. */
  lemma RebuildMeans(cfg: Config, s: StoreState, cancelled: bool)
    requires VerticesListed(s)
    ensures var all := AllVertices(s.vertices, s.vertexSeq);
            && VertexIds(all) == s.vertexSeq
            && (Rebuild(cfg, s, cancelled).error.None?
                <==> !cancelled && Registrable(all) && Feasible(all, cfg.labelCap))
            && (Rebuild(cfg, s, cancelled).error.None? ==> Lists(Rebuild(cfg, s, cancelled).state.labels, all))
    ensures Rebuild(cfg, s, cancelled).error.None? ==> Labelled(Rebuild(cfg, s, cancelled).state.labels, s.vertices)
    ensures Rebuild(cfg, s, cancelled).error.Some? ==> Rebuild(cfg, s, cancelled).state == s
  {
    var all := AllVertices(s.vertices, s.vertexSeq);
    AllVerticesAre(s.vertices, s.vertexSeq);
    BuildLabelsMeans(all, cfg.labelCap);
    if Rebuild(cfg, s, cancelled).error.None? {
      ListsAreLabelled(Rebuild(cfg, s, cancelled).state.labels, all, s.vertices);
    }
  }
}
