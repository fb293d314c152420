/**
 The input both Gantt scripts share: the rows of the pipeline trace log for one
 query (thread id, processor name, processor id, stage type, start offset,
 duration), ordered by start, together with the per-query summary held by
 `PipelineTraceData`. Also the per-thread facts both revisions rely on: lanes
 are created in first-seen thread order, and each lane receives exactly its own
 thread's rows, in row order.
 */
module TraceRows {
  import opened FirstSeen

  /** One row of the detail query. */
  datatype Row = Row(
    threadId: int,
    processorName: string,
    processorId: int,
    stageType: string,
    start: int,
    duration: int)

  /** `PipelineTraceData`: the four distinct counts of the summary query, the
      walltime of the query and the detail rows. The counts come from
      `countDistinct`, so they are never negative. */
  datatype PipelineTraceData = PipelineTraceData(
    threadNum: nat,
    processorNum: nat,
    processoridNum: nat,
    stageNum: nat,
    walltime: int,
    data: seq<Row>)

  /** One `(start, duration)` pair of a lane's `x` list. */
  datatype Segment = Segment(start: int, duration: int)

  /** A lane's vertical slot `(ymin, height)`: it covers the band [ymin, ymin + height). */
  datatype Slot = Slot(ymin: int, height: int)

  /** The `(low, high)` pair of an axis limit. */
  datatype Limits = Limits(lo: int, hi: int)

  /** Python's `IndexError` on a list of `length` elements read at `index`. */
  datatype Error = IndexError(index: nat, length: nat)

  datatype Result<T> = Ok(value: T) | Err(error: Error)

  /** `walltime = end - start` of the start/end query. */
  function Walltime(start: int, end: int): (w: int)
    ensures start + w == end
    ensures start <= end <==> w >= 0
  {
    end - start
  }

  /** One attribute of every row, in row order. */
  function Column<T>(rows: seq<Row>, key: Row -> T): (col: seq<T>)
    ensures |col| == |rows|
    ensures forall i :: 0 <= i < |rows| ==> col[i] == key(rows[i])
  {
    seq(|rows|, i requires 0 <= i < |rows| => key(rows[i]))
  }

  function ThreadOf(r: Row): int
  {
    r.threadId
  }

  /** The thread ids in the order their first row appears: the order lanes are created in. */
  function ThreadOrder(rows: seq<Row>): seq<int>
  {
    Order(Column(rows, ThreadOf))
  }

  /** The `(start, duration)` pairs of the rows of thread `t`, in row order. */
  function LaneSegments(rows: seq<Row>, t: int): seq<Segment>
  {
    if rows == [] then []
    else
      var last := rows[|rows| - 1];
      LaneSegments(rows[..|rows| - 1], t) + if last.threadId == t then [Segment(last.start, last.duration)] else []
  }

  /** Taking one more row extends a column by that row's attribute. */
  lemma ColumnStep<T>(rows: seq<Row>, key: Row -> T, i: nat)
    requires i < |rows|
    ensures Column(rows[..i + 1], key) == Column(rows[..i], key) + [key(rows[i])]
  {
  }

  /** Taking one more row inserts its thread into the lane order if it is new. */
  lemma ThreadOrderStep(rows: seq<Row>, i: nat)
    requires i < |rows|
    ensures ThreadOrder(rows[..i + 1]) == Remember(ThreadOrder(rows[..i]), rows[i].threadId)
  {
    ColumnStep(rows, ThreadOf, i);
    OrderSnoc(Column(rows[..i], ThreadOf), rows[i].threadId);
  }

  /** Taking one more row appends its segment to its own lane and to no other. */
  lemma LaneSegmentsStep(rows: seq<Row>, i: nat, t: int)
    requires i < |rows|
    ensures LaneSegments(rows[..i + 1], t) ==
      LaneSegments(rows[..i], t) + if rows[i].threadId == t then [Segment(rows[i].start, rows[i].duration)] else []
  {
    assert rows[..i + 1][..i] == rows[..i];
  }

  /** A thread occurs in the rows exactly when it has a lane. */
  lemma ThreadOrderMembership(rows: seq<Row>, t: int)
    ensures t in ThreadOrder(rows) <==> exists i :: 0 <= i < |rows| && rows[i].threadId == t
  {
    var col := Column(rows, ThreadOf);
    if t in ThreadOrder(rows) {
      var i :| 0 <= i < |col| && col[i] == t;
      assert rows[i].threadId == t;
    }
    if exists i :: 0 <= i < |rows| && rows[i].threadId == t {
      var i :| 0 <= i < |rows| && rows[i].threadId == t;
      assert col[i] == t;
    }
  }

  /** One lane per distinct thread id of the rows. */
  lemma LaneCount(rows: seq<Row>)
    ensures |ThreadOrder(rows)| == |set r | r in rows :: r.threadId|
  {
    var col := Column(rows, ThreadOf);
    OrderCardinality(col);
    assert (set x | x in col) == (set r | r in rows :: r.threadId) by {
      forall x | x in col
        ensures x in set r | r in rows :: r.threadId
      {
        var i :| 0 <= i < |col| && col[i] == x;
        assert rows[i] in rows;
      }
      forall x | x in set r | r in rows :: r.threadId
        ensures x in col
      {
        var r :| r in rows && r.threadId == x;
        var i :| 0 <= i < |rows| && rows[i] == r;
        assert col[i] == x;
      }
    }
  }

  /** Lanes are never empty, and a thread without rows has no segments:
      a lane's segment list is non-empty exactly when the thread has a lane. */
  lemma {:induction false} LaneNonEmpty(rows: seq<Row>, t: int)
    ensures LaneSegments(rows, t) != [] <==> t in ThreadOrder(rows)
    decreases |rows|
  {
    if rows != [] {
      var n := |rows| - 1;
      assert rows[..n + 1] == rows;
      LaneNonEmpty(rows[..n], t);
      LaneSegmentsStep(rows, n, t);
      ThreadOrderStep(rows, n);
    }
  }

  /** A new thread gets the next unused lane: the number of lanes created before its first row. */
  lemma NextUnusedLane(rows: seq<Row>, j: nat)
    requires j < |rows| && rows[j].threadId !in ThreadOrder(rows[..j])
    ensures rows[j].threadId in ThreadOrder(rows)
    ensures IndexOf(ThreadOrder(rows), rows[j].threadId) == |ThreadOrder(rows[..j])|
  {
    var col := Column(rows, ThreadOf);
    assert col[..j] == Column(rows[..j], ThreadOf);
    NewKeyPosition(col, j);
  }

  /** A thread keeps the lane it was given: later rows never move it. */
  lemma LaneIndexStable(rows: seq<Row>, k: nat, t: int)
    requires k <= |rows| && t in ThreadOrder(rows[..k])
    ensures t in ThreadOrder(rows)
    ensures IndexOf(ThreadOrder(rows), t) == IndexOf(ThreadOrder(rows[..k]), t)
  {
    var col := Column(rows, ThreadOf);
    assert col[..k] == Column(rows[..k], ThreadOf);
    OrderOfPrefix(col, k);
    IndexOfPrefix(ThreadOrder(rows[..k]), ThreadOrder(rows), t);
  }

  /** Lanes follow first appearance: if thread A's first row precedes thread B's
      first row, A's lane comes before B's. */
  lemma LanesInFirstSeenOrder(rows: seq<Row>, i: nat, j: nat)
    requires i < j < |rows|
    requires rows[i].threadId !in ThreadOrder(rows[..i])
    requires rows[j].threadId !in ThreadOrder(rows[..j])
    ensures rows[i].threadId in ThreadOrder(rows) && rows[j].threadId in ThreadOrder(rows)
    ensures IndexOf(ThreadOrder(rows), rows[i].threadId) < IndexOf(ThreadOrder(rows), rows[j].threadId)
  {
    var col := Column(rows, ThreadOf);
    assert col[..i] == Column(rows[..i], ThreadOf);
    assert col[..j] == Column(rows[..j], ThreadOf);
    FirstAppearanceOrder(col, i, j);
  }

  /** Taking one more row inserts its attribute into that attribute's first-seen table if it is new. */
  lemma ColumnOrderStep<T>(rows: seq<Row>, key: Row -> T, i: nat)
    requires i < |rows|
    ensures Order(Column(rows[..i + 1], key)) == Remember(Order(Column(rows[..i], key)), key(rows[i]))
  {
    ColumnStep(rows, key, i);
    OrderSnoc(Column(rows[..i], key), key(rows[i]));
  }

  /** A value's rank in a first-seen table is fixed once the value has been seen. */
  lemma RankStable<T>(rows: seq<Row>, key: Row -> T, k: nat, x: T)
    requires k <= |rows| && x in Order(Column(rows[..k], key))
    ensures x in Order(Column(rows, key))
    ensures Rank(Order(Column(rows, key)), x) == Rank(Order(Column(rows[..k], key)), x)
  {
    var col := Column(rows, key);
    assert col[..k] == Column(rows[..k], key);
    OrderOfPrefix(col, k);
    IndexOfPrefix(Order(col[..k]), Order(col), x);
  }

  /** Total number of segments over the lanes `ts`. */
  function SegmentTotal(rows: seq<Row>, ts: seq<int>): nat
  {
    if ts == [] then 0 else SegmentTotal(rows, ts[..|ts| - 1]) + |LaneSegments(rows, ts[|ts| - 1])|
  }

  /** One more row adds one segment to the lanes `ts` if its thread is among them, none otherwise. */
  lemma {:induction false} SegmentTotalStep(rows: seq<Row>, i: nat, ts: seq<int>)
    requires i < |rows| && Distinct(ts)
    ensures SegmentTotal(rows[..i + 1], ts) ==
      SegmentTotal(rows[..i], ts) + if rows[i].threadId in ts then 1 else 0
    decreases |ts|
  {
    if ts != [] {
      var init, last := ts[..|ts| - 1], ts[|ts| - 1];
      DistinctInit(ts);
      LaneSegmentsStep(rows, i, last);
      SegmentTotalStep(rows, i, init);
      assert ts == init + [last];
      assert rows[i].threadId in ts <==> rows[i].threadId == last || rows[i].threadId in init;
    }
  }

  /** Every row lands in exactly one lane: the lanes together hold as many
      segments as there are rows. */
  lemma {:induction false} EveryRowInOneLane(rows: seq<Row>)
    ensures SegmentTotal(rows, ThreadOrder(rows)) == |rows|
    decreases |rows|
  {
    if rows != [] {
      var n := |rows| - 1;
      var t := rows[n].threadId;
      var before := ThreadOrder(rows[..n]);
      assert rows[..n + 1] == rows;
      EveryRowInOneLane(rows[..n]);
      ThreadOrderStep(rows, n);
      SegmentTotalStep(rows, n, before);
      if t !in before {
        assert (before + [t])[..|before|] == before;
        LaneSegmentsStep(rows, n, t);
        LaneNonEmpty(rows[..n], t);
      }
    }
  }

  /** Row `k` is where the layout fails: a new thread arrives when all `slots` are taken. */
  ghost predicate FailsAt(rows: seq<Row>, k: nat, slots: nat)
  {
    && k < |rows|
    && rows[k].threadId !in ThreadOrder(rows[..k])
    && |ThreadOrder(rows[..k])| == slots
  }

  /** A failing row means the trace has more threads than slots. */
  lemma FailureMeansOverflow(rows: seq<Row>, k: nat, slots: nat)
    requires FailsAt(rows, k, slots)
    ensures |ThreadOrder(rows)| > slots
  {
    ThreadOrderStep(rows, k);
    OrderOfPrefix(Column(rows, ThreadOf), k + 1);
    assert Column(rows, ThreadOf)[..k + 1] == Column(rows[..k + 1], ThreadOf);
  }
}
