/** The values that flow through the store: vertices, edges, walk paths and log records
    (internal/model and the record type of internal/wal). */
module GraphModel {
  import opened Seqs

  datatype Vertex = Vertex(id: string, tag: string, attrs: map<string, string>)

  datatype Edge = Edge(id: string, from: string, to: string, kind: string, attrs: map<string, string>)
  {
    /** The routing key: edges with equal endpoints and kind share a bucket, whatever their id. */
    function Key(): string {
      from + ">" + kind + ">" + to
    }
  }

  datatype Error =
    | VertexNotFound | EdgeNotFound | ShardSealed | ShardArchived | ShardFull | DuplicateEdge
    | IndexFull | StoreClosed | EntryMissing | InvalidLabel | MissingId | VertexExists
    | BucketOutOfRange | NoTarget | UnknownRecord | Cancelled

  datatype Result<+T> = Ok(value: T) | Err(error: Error)

  /** One log record. The code keeps one flat struct for all operations and dispatches on `op`. */
  datatype Record = Record(op: string, id: string, from: string, to: string, kind: string,
                           tag: string, attrs: map<string, string>)

  function VertexRecord(v: Vertex): Record {
    Record("vertex", v.id, "", "", "", v.tag, v.attrs)
  }

  function EdgeRecord(e: Edge): Record {
    Record("edge", e.id, e.from, e.to, e.kind, "", e.attrs)
  }

  function EdgeDeleteRecord(id: string): Record {
    Record("edge-delete", id, "", "", "", "", map[])
  }

  function VertexDeleteRecord(id: string): Record {
    Record("vertex-delete", id, "", "", "", "", map[])
  }

  function RecordedVertex(r: Record): Vertex {
    Vertex(r.id, r.tag, r.attrs)
  }

  function RecordedEdge(r: Record): Edge {
    Edge(r.id, r.from, r.to, r.kind, r.attrs)
  }

  // Named predicates, so that equal filters are equal terms.

  function SourceOf(): Edge -> string {
    (e: Edge) => e.from
  }

  function TargetOf(): Edge -> string {
    (e: Edge) => e.to
  }

  function KeyIs(key: Edge -> string, v: string): Edge -> bool {
    (e: Edge) => key(e) == v
  }

  function FromIs(v: string): Edge -> bool {
    KeyIs(SourceOf(), v)
  }

  function ToIs(v: string): Edge -> bool {
    KeyIs(TargetOf(), v)
  }

  function IdIsNot(id: string): Edge -> bool {
    (e: Edge) => e.id != id
  }

  predicate Touches(e: Edge, v: string) {
    e.from == v || e.to == v
  }

  function Ids(es: seq<Edge>): (r: seq<string>)
    ensures |r| == |es|
  {
    seq(|es|, i requires 0 <= i < |es| => es[i].id)
  }

  predicate HasId(es: seq<Edge>, id: string) {
    exists e :: e in es && e.id == id
  }

  /** No two positions of the list hold edges with the same id. */
  ghost predicate DistinctIds(es: seq<Edge>) {
    forall i, j :: 0 <= i < j < |es| ==> es[i].id != es[j].id
  }

  function Find(es: seq<Edge>, id: string): (e: Edge)
    requires HasId(es, id)
    ensures e in es && e.id == id
  {
    if es[|es| - 1].id == id then es[|es| - 1] else Find(es[..|es| - 1], id)
  }

  lemma {:induction false} FilterDistinct(es: seq<Edge>, p: Edge -> bool)
    requires DistinctIds(es)
    ensures DistinctIds(Filter(es, p))
  {
    if |es| > 0 {
      FilterDistinct(es[..|es| - 1], p);
      var kept := Filter(es[..|es| - 1], p);
      FilterMembers(es[..|es| - 1], p);
      forall i | 0 <= i < |kept| ensures kept[i].id != es[|es| - 1].id {
        assert kept[i] in es[..|es| - 1];
      }
    }
  }

  lemma DistinctById(es: seq<Edge>, a: Edge, b: Edge)
    requires DistinctIds(es) && a in es && b in es && a.id == b.id
    ensures a == b
  {
  }

  lemma DistinctNoDup(es: seq<Edge>)
    requires DistinctIds(es)
    ensures NoDup(es) && NoDup(Ids(es))
  {
  }
}
