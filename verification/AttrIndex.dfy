/** The two-way attribute index kept in two hash maps (internal/index). */
module AttrIndexes {
  import opened Seqs
  import opened GraphModel
  import opened Text
  import opened IndexSpec

  /** Both maps present the same relation, and neither keeps an empty list. */
  ghost predicate Mirrors(byValue: map<string, set<string>>, byEdge: map<string, seq<string>>,
                          pairs: set<(string, string)>)
  {
    && (forall entry :: entry in byValue ==> byValue[entry] != {})
    && (forall id :: id in byEdge ==> byEdge[id] != [] && NoDup(byEdge[id]))
    && ForwardOf(byValue, pairs)
    && BackwardOf(byEdge, pairs)
  }

  ghost predicate ForwardOf(byValue: map<string, set<string>>, pairs: set<(string, string)>) {
    forall entry, id :: (entry, id) in pairs <==> entry in byValue && id in byValue[entry]
  }

  ghost predicate BackwardOf(byEdge: map<string, seq<string>>, pairs: set<(string, string)>) {
    forall entry, id :: (entry, id) in pairs <==> id in byEdge && entry in byEdge[id]
  }

  function Under(byValue: map<string, set<string>>, entry: string): set<string> {
    if entry in byValue then byValue[entry] else {}
  }

  function EntriesOf(byEdge: map<string, seq<string>>, id: string): seq<string> {
    if id in byEdge then byEdge[id] else []
  }

  lemma MirrorsAfterInsert(byValue: map<string, set<string>>, byEdge: map<string, seq<string>>,
                           pairs: set<(string, string)>, entry: string, id: string)
    requires Mirrors(byValue, byEdge, pairs) && id !in Under(byValue, entry)
    ensures Mirrors(byValue[entry := Under(byValue, entry) + {id}], byEdge[id := EntriesOf(byEdge, id) + [entry]],
                    pairs + {(entry, id)})
  {
    NoDupSnoc(EntriesOf(byEdge, id), entry);
  }

  function Erase(byValue: map<string, set<string>>, entry: string, id: string): map<string, set<string>> {
    if entry !in byValue then byValue
    else if byValue[entry] - {id} == {} then byValue - {entry}
    else byValue[entry := byValue[entry] - {id}]
  }

  lemma ForwardAfterErase(byValue: map<string, set<string>>, pairs: set<(string, string)>, entry: string, id: string)
    requires ForwardOf(byValue, pairs) && forall x :: x in byValue ==> byValue[x] != {}
    ensures var after := Erase(byValue, entry, id);
            ForwardOf(after, pairs - {(entry, id)}) && forall x :: x in after ==> after[x] != {}
  {
    var after := Erase(byValue, entry, id);
    forall x, y ensures (x, y) in pairs - {(entry, id)} <==> x in after && y in after[x] {
      assert (x, y) in pairs <==> y in Under(byValue, x);
      assert y in Under(byValue, x) - {id} <==> y in Under(byValue, x) && y != id;
    }
  }

  ghost function Without(pairs: set<(string, string)>, entries: seq<string>, id: string): set<(string, string)> {
    set p | p in pairs && !(p.1 == id && p.0 in entries)
  }

  lemma WithoutOneMore(pairs: set<(string, string)>, entries: seq<string>, i: nat, id: string)
    requires i < |entries|
    ensures Without(pairs, entries[..i + 1], id) == Without(pairs, entries[..i], id) - {(entries[i], id)}
  {
    assert entries[..i + 1] == entries[..i] + [entries[i]];
  }

  lemma AllErased(byEdge: map<string, seq<string>>, pairs: set<(string, string)>, id: string)
    requires BackwardOf(byEdge, pairs)
    ensures Without(pairs, EntriesOf(byEdge, id), id) == pairs - PairsOf(pairs, id)
  {
  }

  class AttrIndex {
    var byValue: map<string, set<string>>
    var byEdge: map<string, seq<string>>
    var edgeFrom: map<string, string>
    ghost var pairs: set<(string, string)>

    ghost predicate Valid()
      reads this
    {
      Mirrors(byValue, byEdge, pairs)
    }

    ghost function View(): IndexState
      reads this
    {
      IndexState(pairs, edgeFrom.Keys)
    }

    constructor ()
      ensures Valid() && View() == EMPTY_INDEX
    {
      byValue, byEdge, edgeFrom, pairs := map[], map[], map[], {};
    }

    method InsertOne(entry: string, id: string)
      requires Valid()
      modifies this`byValue, this`byEdge, this`pairs
      ensures Valid() && pairs == old(pairs) + {(entry, id)}
    {
      if id !in Under(byValue, entry) {
        MirrorsAfterInsert(byValue, byEdge, pairs, entry, id);
        byValue := byValue[entry := Under(byValue, entry) + {id}];
        byEdge := byEdge[id := EntriesOf(byEdge, id) + [entry]];
        pairs := pairs + {(entry, id)};
      }
    }

    /** Indexes one attribute set under an id; `prefix` is the reserved vertex namespace or empty. The
        attributes are visited in an arbitrary order. */
    method InsertAll(prefix: string, attrs: map<string, string>, id: string)
      requires Valid()
      modifies this`byValue, this`byEdge, this`pairs
      ensures Valid() && pairs == old(pairs) + Tagged(Entries(prefix, attrs), id)
    {
      var left := attrs.Keys;
      ghost var done: set<string> := {};
      while left != {}
        invariant Valid() && left <= attrs.Keys
        invariant pairs == old(pairs) + Tagged(done, id)
        invariant done <= Entries(prefix, attrs)
        invariant forall k :: k in attrs && k !in left ==> AttrEntry(prefix + k, attrs[k]) in done
        decreases left
      {
        var key :| key in left;
        var entry := AttrEntry(prefix + key, attrs[key]);
        InsertOne(entry, id);
        done := done + {entry};
        left := left - {key};
      }
      assert done == Entries(prefix, attrs);
    }

    method Update(e: Edge)
      requires Valid()
      modifies this
      ensures Valid() && View() == IndexEdge(old(View()), e) && edgeFrom == old(edgeFrom)[e.id := e.from]
    {
      edgeFrom := edgeFrom[e.id := e.from];
      InsertAll("", e.attrs, e.id);
    }

    method UpdateVertex(v: Vertex)
      requires Valid()
      modifies this
      ensures Valid() && View() == IndexVertex(old(View()), v) && edgeFrom == old(edgeFrom)
    {
      InsertAll(VERTEX_PREFIX, v.attrs, v.id);
    }

    /** Clears the given entries of one id from the forward map. */
    method EraseEntries(id: string)
      requires Valid()
      modifies this`byValue, this`byEdge, this`pairs
      ensures Valid() && pairs == old(pairs) - PairsOf(old(pairs), id)
    {
      var entries := EntriesOf(byEdge, id);
      ghost var left := pairs;
      assert left == Without(pairs, [], id);
      for i := 0 to |entries|
        invariant pairs == old(pairs) && byEdge == old(byEdge)
        invariant left == Without(pairs, entries[..i], id)
        invariant ForwardOf(byValue, left) && forall x :: x in byValue ==> byValue[x] != {}
      {
        ForwardAfterErase(byValue, left, entries[i], id);
        WithoutOneMore(pairs, entries, i, id);
        byValue := Erase(byValue, entries[i], id);
        left := left - {(entries[i], id)};
      }
      assert entries[..|entries|] == entries;
      AllErased(byEdge, pairs, id);
      byEdge := byEdge - {id};
      pairs := left;
    }

    method RemoveEdge(id: string) returns (r: Result<()>)
      requires Valid()
      modifies this
      ensures Valid()
      ensures match UnindexEdge(old(View()), id)
              case Ok(ix) => r == Ok(()) && View() == ix && edgeFrom == old(edgeFrom) - {id}
              case Err(error) => r == Err(error) && unchanged(this)
    {
      if |EntriesOf(byEdge, id)| == 0 {
        assert PairsOf(pairs, id) == {};
        return Err(EntryMissing);
      }
      assert (byEdge[id][0], id) in PairsOf(pairs, id) by { assert byEdge[id][0] in byEdge[id]; }
      EraseEntries(id);
      edgeFrom := edgeFrom - {id};
      r := Ok(());
    }

    method RemoveVertex(id: string)
      requires Valid()
      modifies this
      ensures Valid() && View() == UnindexVertex(old(View()), id) && edgeFrom == old(edgeFrom)
    {
      EraseEntries(id);
    }

    method EdgeCount() returns (n: nat)
      ensures n == |View().counted|
    {
      n := |edgeFrom.Keys|;
    }

    /** The ids under an attribute, sorted, whatever order the map is walked in. */
    method LookupByAttr(key: string, value: string) returns (ids: seq<string>)
      requires Valid()
      ensures Increasing(ids) && forall id :: id in ids <==> id in IdsUnder(View(), AttrEntry(key, value))
    {
      var values := Under(byValue, AttrEntry(key, value));
      assert values == IdsUnder(View(), AttrEntry(key, value)) by {
        forall id | id in values ensures id in IdsUnder(View(), AttrEntry(key, value)) {
          assert (AttrEntry(key, value), id) in pairs;
        }
      }
      ids := [];
      ghost var todo := values;
      while values != {}
        invariant SortedStrictly(ids) && values <= todo && forall id :: id in ids <==> id in todo && id !in values
        decreases values
      {
        var id :| id in values;
        assert id !in ids;
        ids := InsertSorted(ids, id);
        values := values - {id};
      }
      SortedMeans(ids);
    }
  }
}
