/** The write-ahead log as a value (internal/wal): segment files by id, the segment being written and
    the counters, with what replay delivers. */
module WalSpec {
  import opened Seqs
  import opened GraphModel

  /** A record as written, with the sequence number it was given. */
  datatype Stamped = Stamped(record: Record, stamp: nat)

  type Files = map<nat, seq<Stamped>>

  datatype WalState = WalState(files: Files, nextID: nat, current: Option<nat>, stamp: nat, closed: bool)

  /** The content of the segments with ids below `n`, in ascending id order. */
  function Delivered(files: Files, n: nat): seq<Stamped> {
    if n == 0 then []
    else Delivered(files, n - 1) + (if n - 1 in files then files[n - 1] else [])
  }

  function Written(w: WalState): seq<Stamped> {
    Delivered(w.files, w.nextID)
  }

  function Plain(entries: seq<Stamped>): seq<Record> {
    seq(|entries|, i requires 0 <= i < |entries| => entries[i].record)
  }

  ghost predicate Bounded(files: Files, n: nat) {
    forall id :: id in files ==> id < n
  }

  /** Only the newest segment can be the one being written. */
  ghost predicate Sound(w: WalState) {
    && Bounded(w.files, w.nextID)
    && (w.current.Some? ==> w.current.value in w.files && w.current.value == w.nextID - 1 && !w.closed)
  }

  function NewSegment(w: WalState): WalState {
    w.(files := w.files[w.nextID := if w.nextID in w.files then w.files[w.nextID] else []],
       nextID := w.nextID + 1, current := Some(w.nextID))
  }

  function EnsureCurrent(w: WalState): WalState {
    if w.current.Some? then w else NewSegment(w)
  }

  function WalAppend(w: WalState, r: Record): WalState {
    if w.closed then w
    else
      var ready := EnsureCurrent(w);
      var id := ready.current.value;
      if id in ready.files then
        ready.(files := ready.files[id := ready.files[id] + [Stamped(r, w.stamp + 1)]], stamp := w.stamp + 1)
      else ready
  }

  function WalRotate(w: WalState): WalState {
    if w.closed then w else NewSegment(EnsureCurrent(w))
  }

  function WalClose(w: WalState): WalState {
    w.(current := None, closed := true)
  }

  /** One above the largest segment id found in the directory. */
  ghost function NextFree(files: Files): (n: nat)
    ensures Bounded(files, n) && (n > 0 ==> n - 1 in files)
  {
    MaxKey(files.Keys)
  }

  ghost function MaxKey(ids: set<nat>): (n: nat)
    ensures (forall id :: id in ids ==> id < n) && (n > 0 ==> n - 1 in ids)
  {
    if ids == {} then 0
    else
      var id :| id in ids;
      var rest := MaxKey(ids - {id});
      assert forall x :: x in ids ==> x in ids - {id} || x == id;
      if id >= rest then id + 1 else rest
  }

  ghost function WalOpen(files: Files): WalState {
    WalState(files, NextFree(files), None, 0, false)
  }

  lemma {:induction false} DeliveredFrame(files: Files, k: nat, content: seq<Stamped>, n: nat)
    requires n <= k
    ensures Delivered(files[k := content], n) == Delivered(files, n)
  {
    if n > 0 { DeliveredFrame(files, k, content, n - 1); }
  }

  /** Ids without a segment contribute nothing. */
  lemma {:induction false} DeliveredGap(files: Files, low: nat, high: nat)
    requires low <= high && forall id :: low <= id < high ==> id !in files
    ensures Delivered(files, high) == Delivered(files, low)
    decreases high - low
  {
    if low < high { DeliveredGap(files, low, high - 1); }
  }

  lemma NewSegmentMeans(w: WalState)
    requires Sound(w) && !w.closed
    ensures Sound(NewSegment(w)) && Written(NewSegment(w)) == Written(w)
    ensures forall id :: id in w.files ==> id < NewSegment(w).current.value
  {
    DeliveredFrame(w.files, w.nextID, [], w.nextID);
  }

  lemma AppendMeans(w: WalState, r: Record)
    requires Sound(w)
    ensures Sound(WalAppend(w, r))
    ensures Written(WalAppend(w, r)) == if w.closed then Written(w) else Written(w) + [Stamped(r, w.stamp + 1)]
    ensures WalAppend(w, r).stamp == if w.closed then w.stamp else w.stamp + 1
  {
    if !w.closed {
      NewSegmentMeans(w);
      var ready := EnsureCurrent(w);
      var id := ready.current.value;
      var content := ready.files[id] + [Stamped(r, w.stamp + 1)];
      DeliveredFrame(ready.files, id, content, id);
      assert Written(WalAppend(w, r)) == Delivered(ready.files, id) + content;
    }
  }

  lemma AppendExtendsLog(w: WalState, r: Record)
    requires Sound(w) && !w.closed
    ensures Plain(Written(WalAppend(w, r))) == Plain(Written(w)) + [r]
  {
    AppendMeans(w, r);
  }

  lemma RotateMeans(w: WalState)
    requires Sound(w)
    ensures Sound(WalRotate(w)) && Written(WalRotate(w)) == Written(w)
    ensures !w.closed ==> WalRotate(w).current.Some? && forall id :: id in w.files ==> id < WalRotate(w).current.value
  {
    if !w.closed {
      NewSegmentMeans(w);
      NewSegmentMeans(EnsureCurrent(w));
    }
  }

  lemma OpenMeans(w: WalState)
    requires Sound(w)
    ensures Sound(WalOpen(w.files)) && Written(WalOpen(w.files)) == Written(w)
  {
    DeliveredGap(w.files, NextFree(w.files), w.nextID);
  }

  ghost predicate Ascending(ids: seq<nat>) {
    forall i, j :: 0 <= i < j < |ids| ==> ids[i] < ids[j]
  }

  function After(ids: seq<nat>, i: nat): nat
    requires i <= |ids|
  {
    if i == 0 then 0 else ids[i - 1] + 1
  }

  /** Between two neighbours of the ascending id list there is nothing to deliver. */
  lemma NothingBetween(files: Files, n: nat, ids: seq<nat>, i: nat)
    requires Ascending(ids) && Bounded(files, n) && i <= |ids| && forall id :: id in files <==> id in ids
    ensures var high := if i < |ids| then ids[i] else n;
            After(ids, i) <= high && Delivered(files, high) == Delivered(files, After(ids, i))
  {
    var high := if i < |ids| then ids[i] else n;
    assert i < |ids| ==> ids[i] in ids;
    assert i > 0 ==> ids[i - 1] in ids;
    forall id | After(ids, i) <= id < high ensures id !in files {
      if id in ids {
        var k :| 0 <= k < |ids| && ids[k] == id;
      }
    }
    DeliveredGap(files, After(ids, i), high);
  }

  // Runs.

  datatype WalOp = AppendOp(r: Record) | RotateOp | CloseOp | OpenOp

  ghost function WalStep(w: WalState, op: WalOp): WalState {
    match op
    case AppendOp(r) => WalAppend(w, r)
    case RotateOp => WalRotate(w)
    case CloseOp => WalClose(w)
    case OpenOp => WalOpen(w.files)
  }

  ghost function WalRun(ops: seq<WalOp>): WalState {
    if |ops| == 0 then WalOpen(map[]) else WalStep(WalRun(ops[..|ops| - 1]), ops[|ops| - 1])
  }

  /** The records accepted along the run, in append order. */
  ghost function Accepted(ops: seq<WalOp>): seq<Record> {
    if |ops| == 0 then []
    else
      var init, op := ops[..|ops| - 1], ops[|ops| - 1];
      Accepted(init) + (if op.AppendOp? && !WalRun(init).closed then [op.r] else [])
  }

  /** How many of them the current instance accepted. */
  ghost function AcceptedSinceOpen(ops: seq<WalOp>): nat {
    if |ops| == 0 then 0
    else
      var init, op := ops[..|ops| - 1], ops[|ops| - 1];
      if op.OpenOp? then 0
      else AcceptedSinceOpen(init) + (if op.AppendOp? && !WalRun(init).closed then 1 else 0)
  }

  /** Whatever the interleaving of appends, rotations, closes and reopenings, the segments hold exactly
      the accepted records in append order, and the counter counts this instance's appends. */
  lemma {:induction false} SegmentsHoldAppends(ops: seq<WalOp>)
    ensures Sound(WalRun(ops))
    ensures Plain(Written(WalRun(ops))) == Accepted(ops)
    ensures WalRun(ops).stamp == AcceptedSinceOpen(ops)
  {
    if |ops| == 0 {
    } else {
      var init, op := ops[..|ops| - 1], ops[|ops| - 1];
      var w := WalRun(init);
      SegmentsHoldAppends(init);
      match op
      case AppendOp(r) => AppendMeans(w, r);
      case RotateOp => RotateMeans(w);
      case CloseOp =>
      case OpenOp => OpenMeans(w);
    }
  }

  /** What an append writes: the next number, at the end of the segment being written or, without one, into a new
      segment under the next id. A closed log ignores it. */
  lemma AppendWrites(w: WalState, r: Record)
    requires Sound(w)
    ensures w.closed ==> WalAppend(w, r) == w
    ensures !w.closed && w.current.Some? ==>
              var id := w.current.value;
              WalAppend(w, r) == w.(files := w.files[id := w.files[id] + [Stamped(r, w.stamp + 1)]], stamp := w.stamp
                                    + 1)
    ensures !w.closed && w.current.None? ==>
              WalAppend(w, r) == WalState(w.files[w.nextID := [Stamped(r, w.stamp + 1)]], w.nextID + 1, Some(w.nextID),
                                          w.stamp + 1, false)
  {
    if !w.closed && w.current.None? {
      assert [] + [Stamped(r, w.stamp + 1)] == [Stamped(r, w.stamp + 1)];
      assert w.files[w.nextID := []][w.nextID := [Stamped(r, w.stamp + 1)]]
          == w.files[w.nextID := [Stamped(r, w.stamp + 1)]];
    }
  }

  /** What a rotation does: one new empty segment, or two when none was being written; the last one is written
      next. Numbers go on, and a closed log ignores it. */
  lemma RotateOpens(w: WalState)
    requires Sound(w)
    ensures w.closed ==> WalRotate(w) == w
    ensures !w.closed ==>
              var first := if w.current.Some? then w.nextID else w.nextID + 1;
              && WalRotate(w).nextID == first + 1 && WalRotate(w).current == Some(first)
              && WalRotate(w).stamp == w.stamp && !WalRotate(w).closed
              && WalRotate(w).files == if w.current.Some? then w.files[first := []]
                                       else w.files[w.nextID := []][first := []]
  {
  }

  /** Every segment of w keeps its content, but for the one being written, which an append extends. */
  ghost predicate KeepsSegments(w: WalState, op: WalOp, t: WalState) {
    forall id :: id in w.files ==>
      && id in t.files
      && (t.files[id] == w.files[id]
          || (op.AppendOp? && w.current == Some(id) && t.files[id] == w.files[id] + [Stamped(op.r, w.stamp + 1)]))
  }

  /** Every segment of t that w does not have is above all of w's. */
  ghost predicate OnlyNewer(w: WalState, t: WalState) {
    forall id, k :: id in t.files && id !in w.files && k in w.files ==> k < id
  }

  lemma StepKeepsSegments(w: WalState, op: WalOp)
    requires Sound(w)
    ensures var t := WalStep(w, op);
            && KeepsSegments(w, op, t) && OnlyNewer(w, t)
            && (!w.closed && (op.RotateOp? || (op.AppendOp? && w.current.None?)) ==>
                  t.current.Some? && t.current.value in t.files && t.current.value !in w.files)
  {
  }

  /** Segments are never reused: whatever happened before, also after reopening the directory, an
      operation adds to the segment being written or to none, any segment it creates is above all
      earlier ones, and a rotation and the first append after opening create the one they write to. */
  lemma {:induction false} SegmentsAreNeverReused(ops: seq<WalOp>, op: WalOp)
    ensures var w, t := WalRun(ops), WalRun(ops + [op]);
            && KeepsSegments(w, op, t) && OnlyNewer(w, t)
            && (!w.closed && (op.RotateOp? || (op.AppendOp? && w.current.None?)) ==>
                  t.current.Some? && t.current.value in t.files && t.current.value !in w.files)
  {
    SegmentsHoldAppends(ops);
    assert (ops + [op])[..|ops|] == ops;
    StepKeepsSegments(WalRun(ops), op);
  }
}

module Wals {
  import opened Seqs
  import opened GraphModel
  import opened WalSpec

  /** The log directory: one append-only file per segment id. */
  class Directory {
    var files: Files

    constructor ()
      ensures files == map[]
    {
      files := map[];
    }
  }

  class Segment {
    const ID: nat
    const dir: Directory
    var closed: bool

    /** A file found in the directory; no handle is taken. */
    constructor Found(dir: Directory, id: nat)
      ensures ID == id && this.dir == dir && !closed
    {
      ID, this.dir, closed := id, dir, false;
    }

    /** Opens the file for appending, creating it when missing. */
    constructor Open(dir: Directory, id: nat)
      modifies dir
      ensures ID == id && this.dir == dir && !closed
      ensures dir.files == old(dir.files)[id := if id in old(dir.files) then old(dir.files)[id] else []]
    {
      ID, this.dir, closed := id, dir, false;
      new;
      if id !in dir.files {
        dir.files := dir.files[id := []];
      }
    }

    method Append(entry: Stamped)
      requires !closed && ID in dir.files
      modifies dir
      ensures dir.files == old(dir.files)[ID := old(dir.files)[ID] + [entry]]
    {
      dir.files := dir.files[ID := dir.files[ID] + [entry]];
    }

    method Close()
      modifies this
      ensures closed
    {
      closed := true;
    }
  }

  function SegmentIds(segments: seq<Segment>): seq<nat> {
    seq(|segments|, i requires 0 <= i < |segments| => segments[i].ID)
  }

  lemma SegmentIdsSnoc(segments: seq<Segment>, s: Segment)
    ensures SegmentIds(segments + [s]) == SegmentIds(segments) + [s.ID]
    ensures NoDup(SegmentIds(segments + [s])) <==> NoDup(SegmentIds(segments)) && s.ID !in SegmentIds(segments)
  {
    NoDupSnoc(SegmentIds(segments), s.ID);
  }

  class WAL {
    const dir: Directory
    var segments: seq<Segment>
    var open: seq<Segment>
    var current: Segment?
    var nextID: nat
    var stamp: nat
    var closed: bool

    ghost function Repr(): set<object>
      reads this
    {
      {this, dir} + set s | s in segments
    }

    ghost predicate Valid()
      reads this, dir, segments
    {
      && Listed()
      && Sound(View())
      && (if current == null then open == [] else current in segments && !current.closed && open == [current])
    }

    /** The segment list names exactly the files of the directory. */
    ghost predicate Listed()
      reads this, dir
    {
      && NoDup(SegmentIds(segments))
      && (forall s :: s in segments ==> s.dir == dir)
      && (forall id :: id in dir.files <==> id in SegmentIds(segments))
    }

    ghost function View(): WalState
      reads this, dir
    {
      WalState(dir.files, nextID, if current == null then None else Some(current.ID), stamp, closed)
    }

    /** Discovers the segments of a directory, in whatever order they are listed. */
    constructor (dir: Directory)
      ensures Valid() && fresh(Repr() - {dir})
      ensures this.dir == dir && View() == WalOpen(dir.files)
    {
      this.dir := dir;
      segments, open, current, nextID, stamp, closed := [], [], null, 0, 0, false;
      new;
      var left := dir.files.Keys;
      while left != {}
        modifies this
        invariant left <= dir.files.Keys && !closed && current == null && open == [] && stamp == 0
        invariant fresh(segments)
        invariant NoDup(SegmentIds(segments)) && forall s :: s in segments ==> s.dir == dir
        invariant forall id :: id in SegmentIds(segments) <==> id in dir.files && id !in left
        invariant forall id :: id in SegmentIds(segments) ==> id < nextID
        invariant nextID > 0 ==> nextID - 1 in SegmentIds(segments)
        decreases left
      {
        var id :| id in left;
        var segment := new Segment.Found(dir, id);
        SegmentIdsSnoc(segments, segment);
        segments := segments + [segment];
        left := left - {id};
        if id >= nextID {
          nextID := id + 1;
        }
      }
    }

    /** Makes a new segment the current one; its handle joins the open ones. */
    method OpenNext()
      requires Valid() && !closed
      modifies this, dir
      ensures Listed() && fresh(Repr() - old(Repr())) && View() == NewSegment(old(View()))
      ensures current != null && fresh(current) && current in segments && !current.closed
      ensures open == old(open) + [current] && closed == old(closed)
    {
      var segment := new Segment.Open(dir, nextID);
      SegmentIdsSnoc(segments, segment);
      nextID := nextID + 1;
      current := segment;
      segments := segments + [segment];
      open := open + [segment];
    }

    method EnsureCurrentSegment()
      requires Valid() && !closed
      modifies this, dir
      ensures Valid() && fresh(Repr() - old(Repr()))
      ensures View() == EnsureCurrent(old(View())) && current != null && (current == old(current) || fresh(current))
    {
      if current != null && !current.closed {
        return;
      }
      NewSegmentMeans(View());
      OpenNext();
    }

    method Append(r: Record) returns (ok: bool)
      requires Valid()
      modifies this, dir
      ensures Valid() && fresh(Repr() - old(Repr()))
      ensures ok == !old(closed) && View() == WalAppend(old(View()), r)
    {
      if closed {
        return false;
      }
      EnsureCurrentSegment();
      WriteCurrent(r);
      ok := true;
    }

    method WriteCurrent(r: Record)
      requires Valid() && !closed && current != null
      modifies this`stamp, dir
      ensures Valid() && View() == WalAppend(old(View()), r)
    {
      assert Sound(WalAppend(View(), r)) by { AppendMeans(View(), r); }
      stamp := stamp + 1;
      current.Append(Stamped(r, stamp));
    }

    method Rotate() returns (ok: bool)
      requires Valid()
      modifies this, dir, open
      ensures Valid() && fresh(Repr() - old(Repr()))
      ensures ok == !old(closed) && View() == WalRotate(old(View()))
    {
      if closed {
        return false;
      }
      assert Sound(WalRotate(View())) by { RotateMeans(View()); }
      EnsureCurrentSegment();
      assert fresh(current) || current == old(open)[0];
      SwitchSegment();
      ok := true;
    }

    /** Opens the next segment and only then closes the previous one. */
    method SwitchSegment()
      requires Valid() && !closed && current != null
      modifies this, dir, current
      ensures Valid() && fresh(Repr() - old(Repr()))
      ensures View() == NewSegment(old(View()))
    {
      NewSegmentMeans(View());
      var previous := current;
      OpenNext();
      if previous != current {
        previous.Close();
        open := RemoveSegment(open, previous);
      }
    }

    /** At most one handle is open between calls. */
    method OpenHandles() returns (count: nat)
      requires Valid()
      ensures count == (if current == null then 0 else 1)
    {
      count := 0;
      for i := 0 to |open|
        invariant count == i
      {
        if !open[i].closed {
          count := count + 1;
        }
      }
    }

    method Close()
      requires Valid()
      modifies this, open
      ensures Valid() && Repr() == old(Repr()) && View() == WalClose(old(View()))
    {
      if closed {
        return;
      }
      closed := true;
      for i := 0 to |open|
        invariant segments == old(segments) && open == old(open) && current == old(current)
                  && dir.files == old(dir.files)
        invariant nextID == old(nextID) && stamp == old(stamp) && closed
      {
        open[i].Close();
      }
      open := [];
      current := null;
    }

    /** Delivers every record of every segment, in ascending segment order. */
    method Replay() returns (out: seq<Stamped>)
      requires Valid()
      ensures out == Written(View())
    {
      var sorted := SortById(segments);
      out := [];
      for i := 0 to |sorted|
        invariant out == Delivered(dir.files, After(SegmentIds(sorted), i))
      {
        NothingBetween(dir.files, nextID, SegmentIds(sorted), i);
        assert sorted[i].ID == SegmentIds(sorted)[i] && sorted[i].ID in SegmentIds(sorted);
        out := out + dir.files[sorted[i].ID];
      }
      NothingBetween(dir.files, nextID, SegmentIds(sorted), |sorted|);
    }
  }

  method RemoveSegment(segments: seq<Segment>, target: Segment) returns (out: seq<Segment>)
    ensures forall other :: segments == [target, other] && other != target ==> out == [other]
  {
    out := [];
    for i := 0 to |segments|
      invariant forall other :: segments == [target, other] && other != target ==>
                                  out == (if i < 2 then [] else [other])
    {
      if segments[i] != target {
        out := out + [segments[i]];
      }
    }
  }

  method SortById(segments: seq<Segment>) returns (sorted: seq<Segment>)
    requires NoDup(SegmentIds(segments))
    ensures Ascending(SegmentIds(sorted)) && forall id :: id in SegmentIds(sorted) <==> id in SegmentIds(segments)
  {
    sorted := [];
    for i := 0 to |segments|
      invariant Ascending(SegmentIds(sorted))
      invariant forall id :: id in SegmentIds(sorted) <==> id in SegmentIds(segments[..i])
    {
      var at := 0;
      while at < |sorted| && sorted[at].ID < segments[i].ID
        invariant at <= |sorted| && forall j :: 0 <= j < at ==> sorted[j].ID < segments[i].ID
      {
        at := at + 1;
      }
      InsertedAscending(segments, i, sorted, at);
      sorted := sorted[..at] + [segments[i]] + sorted[at..];
    }
    assert segments[..|segments|] == segments;
  }

  lemma InsertedAscending(segments: seq<Segment>, i: nat, sorted: seq<Segment>, at: nat)
    requires i < |segments| && at <= |sorted| && NoDup(SegmentIds(segments)) && Ascending(SegmentIds(sorted))
    requires forall id :: id in SegmentIds(sorted) <==> id in SegmentIds(segments[..i])
    requires forall j :: 0 <= j < at ==> sorted[j].ID < segments[i].ID
    requires at < |sorted| ==> segments[i].ID <= sorted[at].ID
    ensures var after := SegmentIds(sorted[..at] + [segments[i]] + sorted[at..]);
            Ascending(after) && forall id :: id in after <==> id in SegmentIds(segments[..i + 1])
  {
    var ids, x := SegmentIds(sorted), segments[i].ID;
    var after := SegmentIds(sorted[..at] + [segments[i]] + sorted[at..]);
    assert after == ids[..at] + [x] + ids[at..];
    assert SegmentIds(segments[..i + 1]) == SegmentIds(segments[..i]) + [x];
    assert ids == ids[..at] + ids[at..];
    assert x !in SegmentIds(segments[..i]) by {
      assert forall k :: 0 <= k < i ==>
                           SegmentIds(segments[..i])[k] == SegmentIds(segments)[k] != SegmentIds(segments)[i];
    }
    assert at < |ids| ==> ids[at] in ids;
  }
}
