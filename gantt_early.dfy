/**
 The Gantt layout of the earlier revision of the script (pipeline-trace-svg.py):
 `GanttGraph` gives each thread a lane of height 9 on a 10-unit pitch and
 appends every row's `(start, duration)` to its thread's lane; every bar is
 drawn in the one face colour 'tab:blue', and only the axis limits are set.

 As in the complete revision, the row-by-row behaviour is the class
 `GanttGraph`, the finished layout is stated in closed form by `ExpectedTask`
 and `FigureOf`, and the lemmas prove the layout's properties from it.
 */
module GanttEarly {
  import opened FirstSeen
  import opened PyDict
  import opened IntStr
  import opened TraceRows

  /** The face colour of every bar. */
  const FaceColor: string := "tab:blue"

  /** One entry of `__taskMap`: the lane of one thread. */
  datatype Task = Task(name: string, x: seq<Segment>, y: Slot)

  /** The arguments of one `broken_barh` call. */
  datatype Bar = Bar(xranges: seq<Segment>, yrange: Slot, facecolors: string)

  /** What `buildGraph` hands to the plotting library. */
  datatype Figure = Figure(bars: seq<Bar>, ylim: Limits, xlim: Limits)

  /** The slot `__init__` reserves for lane `i`. */
  function TaskSlot(i: nat): (s: Slot)
    ensures s.ymin == 10 * i + 10 && s.height == 9
  {
    Slot(10 * (i + 1), 9)
  }

  /** Lane bands never overlap: a one-unit gap separates each from the next. */
  lemma SlotsDisjoint(i: nat, j: nat)
    requires i < j
    ensures TaskSlot(i).ymin + TaskSlot(i).height < TaskSlot(j).ymin
  {
  }

  /** A slot lies within the y limits exactly when it is one of the summary's
      `threadNum` slots. */
  lemma SlotWithinYLim(threadNum: nat, i: nat)
    ensures 5 <= TaskSlot(i).ymin
    ensures TaskSlot(i).ymin + TaskSlot(i).height <= threadNum * 10 + 10 <==> i < threadNum
  {
  }

  /** `__getColor`: the colour (0.5, 0, 0), whatever the processor name. */
  function GetColor(processorName: string): (c: (real, real, real))
    ensures c == (0.5, 0.0, 0.0)
  {
    (0.5, 0.0, 0.0)
  }

  /** `__getColor` does not depend on its argument. */
  lemma GetColorConstant(a: string, b: string)
    ensures GetColor(a) == GetColor(b)
  {
  }

  // ---------------------------------------------------------------------------
  // The finished layout in closed form

  /** The lane of thread `t` once `rows` have been laid out. */
  ghost function ExpectedTask(rows: seq<Row>, t: int): Task
    requires t in ThreadOrder(rows)
  {
    Task(IntToString(t), LaneSegments(rows, t), TaskSlot(IndexOf(ThreadOrder(rows), t)))
  }

  /** A lane after one more row: its name and slot are kept, the earlier segments
      are untouched, and one segment is added at the end. */
  function Append(task: Task, s: Segment): (r: Task)
    ensures r.name == task.name && r.y == task.y
    ensures task.x <= r.x && |r.x| == |task.x| + 1 && r.x[|task.x|] == s
  {
    task.(x := task.x + [s])
  }

  /** The arguments of `broken_barh` for a lane: its segments and its slot as
      stored, and 'tab:blue' whatever the lane. */
  function BarOf(task: Task): (b: Bar)
    ensures b.xranges == task.x && b.yrange == task.y && b.facecolors == "tab:blue"
  {
    Bar(task.x, task.y, FaceColor)
  }

  /** The bars of `rows`: one per thread, in first-seen order. */
  ghost function LaneBars(rows: seq<Row>): seq<Bar>
  {
    var order := ThreadOrder(rows);
    seq(|order|, i requires 0 <= i < |order| => BarOf(ExpectedTask(rows, order[i])))
  }

  /** Everything `buildGraph` hands to the plotting library for `rows`. */
  ghost function FigureOf(d: PipelineTraceData, rows: seq<Row>): Figure
  {
    Figure(LaneBars(rows), Limits(5, d.threadNum * 10 + 10), Limits(0, d.walltime + 10))
  }

  // ---------------------------------------------------------------------------
  // Properties of the layout

  /** With the walltime the trace's start and end give, the x axis runs from 0 to
      the length of the trace plus a margin of 10. */
  lemma XLimSpansTrace(d: PipelineTraceData, start: int, end: int)
    requires d.walltime == Walltime(start, end)
    ensures FigureOf(d, d.data).xlim == Limits(0, end - start + 10)
  {
  }

  /** One more row leaves the lanes of the other threads as they were. */
  lemma ExpectedTaskOther(rows: seq<Row>, i: nat, t: int)
    requires i < |rows| && t in ThreadOrder(rows[..i + 1]) && t != rows[i].threadId
    ensures t in ThreadOrder(rows[..i])
    ensures ExpectedTask(rows[..i + 1], t) == ExpectedTask(rows[..i], t)
  {
    ThreadOrderStep(rows, i);
    LaneSegmentsStep(rows, i, t);
    IndexOfPrefix(ThreadOrder(rows[..i]), ThreadOrder(rows[..i + 1]), t);
  }

  /** A row of a thread that already has a lane keeps that lane's slot and
      appends one segment to it. */
  lemma ExpectedTaskKnown(rows: seq<Row>, i: nat)
    requires i < |rows| && rows[i].threadId in ThreadOrder(rows[..i])
    ensures rows[i].threadId in ThreadOrder(rows[..i + 1])
    ensures ExpectedTask(rows[..i + 1], rows[i].threadId) ==
      Append(ExpectedTask(rows[..i], rows[i].threadId), Segment(rows[i].start, rows[i].duration))
  {
    var t := rows[i].threadId;
    ThreadOrderStep(rows, i);
    LaneSegmentsStep(rows, i, t);
    IndexOfPrefix(ThreadOrder(rows[..i]), ThreadOrder(rows[..i + 1]), t);
  }

  /** The first row of a thread opens its lane in the next unused slot, holding
      just that row's segment. */
  lemma ExpectedTaskNew(rows: seq<Row>, i: nat)
    requires i < |rows| && rows[i].threadId !in ThreadOrder(rows[..i])
    ensures rows[i].threadId in ThreadOrder(rows[..i + 1])
    ensures ExpectedTask(rows[..i + 1], rows[i].threadId) ==
      Task(IntToString(rows[i].threadId), [Segment(rows[i].start, rows[i].duration)], TaskSlot(|ThreadOrder(rows[..i])|))
  {
    var t := rows[i].threadId;
    ThreadOrderStep(rows, i);
    LaneSegmentsStep(rows, i, t);
    IndexOfAppended(ThreadOrder(rows[..i]), t);
    LaneNonEmpty(rows[..i], t);
  }

  /** Lanes of different threads occupy disjoint bands. */
  lemma LanesDisjoint(rows: seq<Row>, t1: int, t2: int)
    requires t1 in ThreadOrder(rows) && t2 in ThreadOrder(rows) && t1 != t2
    ensures var y1, y2 := ExpectedTask(rows, t1).y, ExpectedTask(rows, t2).y;
      y1.ymin + y1.height < y2.ymin || y2.ymin + y2.height < y1.ymin
  {
    var i1, i2 := IndexOf(ThreadOrder(rows), t1), IndexOf(ThreadOrder(rows), t2);
    assert i1 != i2;
    if i1 < i2 { SlotsDisjoint(i1, i2); } else { SlotsDisjoint(i2, i1); }
  }

  /** The finished figure: one bar per distinct thread id, in first-seen order;
      each bar holds its thread's segments in row order, sits in the slot of its
      lane and is drawn in 'tab:blue'; when the trace has no more threads than
      the summary counted, every bar lies within the y limits. */
  lemma FigureShape(d: PipelineTraceData, rows: seq<Row>)
    ensures var f := FigureOf(d, rows);
      && |f.bars| == |set r | r in rows :: r.threadId|
      && f.ylim == Limits(5, d.threadNum * 10 + 10)
      && f.xlim == Limits(0, d.walltime + 10)
      && (forall i :: 0 <= i < |f.bars| ==> BarShape(f, rows, i))
      && (|f.bars| <= d.threadNum ==> forall i :: 0 <= i < |f.bars| ==>
           f.ylim.lo <= f.bars[i].yrange.ymin && f.bars[i].yrange.ymin + f.bars[i].yrange.height <= f.ylim.hi)
  {
    LaneCount(rows);
    forall i | 0 <= i < |ThreadOrder(rows)|
      ensures BarShape(FigureOf(d, rows), rows, i)
    {
      FigureLane(d, rows, i);
    }
  }

  /** Bar `i` of `f` is the lane of the `i`-th thread of `rows`: it holds that
      thread's segments (at least one), sits in slot `i` and is drawn in 'tab:blue'. */
  ghost predicate BarShape(f: Figure, rows: seq<Row>, i: nat)
  {
    && i < |f.bars| && i < |ThreadOrder(rows)|
    && f.bars[i].xranges == LaneSegments(rows, ThreadOrder(rows)[i])
    && f.bars[i].xranges != []
    && f.bars[i].yrange == TaskSlot(i)
    && f.bars[i].facecolors == "tab:blue"
  }

  /** The shape of one bar of the finished figure. */
  lemma FigureLane(d: PipelineTraceData, rows: seq<Row>, i: nat)
    requires i < |ThreadOrder(rows)|
    ensures BarShape(FigureOf(d, rows), rows, i)
  {
    var order := ThreadOrder(rows);
    LaneNonEmpty(rows, order[i]);
    IndexOfAt(order, i);
  }

  // ---------------------------------------------------------------------------
  // The state of `__taskMap`

  /** `__taskMap` is well formed: at most `slots` lanes, the `i`-th inserted
      thread's lane named after it and sitting in slot `i`. */
  ghost predicate LanesOk(m: Dict<int, Task>, slots: nat)
  {
    && m.Valid()
    && |m.keys| <= slots
    && forall i :: 0 <= i < |m.keys| ==>
         m.keys[i] in m.entries && m.entries[m.keys[i]].name == IntToString(m.keys[i]) && m.entries[m.keys[i]].y == TaskSlot(i)
  }

  /** The lane `__updateAxis` returns for thread `t`: the existing one as stored
      (so repeated calls return the same lane), or a fresh lane in the next unused
      slot with no segments yet. */
  function PriorTask(m: Dict<int, Task>, t: int): (task: Task)
    ensures t in m.entries ==> task == m.entries[t]
    ensures t !in m.entries ==> task.x == []
  {
    if t in m.entries then m.entries[t] else Task(IntToString(t), [], TaskSlot(|m.keys|))
  }

  /** The lane `__updateAxis` returns is named after its thread and sits in the
      slot of the thread's position in `__taskMap` once the thread is inserted. */
  lemma PriorTaskShape(m: Dict<int, Task>, slots: nat, t: int)
    requires LanesOk(m, slots)
    ensures t in Remember(m.keys, t)
    ensures PriorTask(m, t).name == IntToString(t)
    ensures PriorTask(m, t).y == TaskSlot(IndexOf(Remember(m.keys, t), t))
  {
    if t in m.entries {
      var i := IndexOf(m.keys, t);
      assert m.entries[m.keys[i]].name == IntToString(m.keys[i]);
    } else {
      IndexOfAppended(m.keys, t);
    }
  }

  /** Opening the lane of `t` when it is missing keeps `__taskMap` well formed,
      and appending a segment to the lane it then holds amounts to storing the
      extended prior lane under `t`, which keeps it well formed too. */
  lemma LaneOpen(m0: Dict<int, Task>, m1: Dict<int, Task>, slots: nat, t: int, s: Segment)
    requires LanesOk(m0, slots)
    requires t in m0.entries || |m0.keys| < slots
    requires m1 == if t in m0.entries then m0 else m0.Put(t, PriorTask(m0, t))
    ensures LanesOk(m1, slots)
    ensures t in m1.entries && m1.entries[t] == PriorTask(m0, t)
    ensures m1.Put(t, Append(m1.entries[t], s)) == m0.Put(t, Append(PriorTask(m0, t), s))
    ensures LanesOk(m0.Put(t, Append(PriorTask(m0, t), s)), slots)
  {
    LaneInserted(m0, m1, slots, t);
    if t !in m0.entries {
      PutPut(m0, t, PriorTask(m0, t), Append(PriorTask(m0, t), s));
    }
    var u := m0.Put(t, Append(PriorTask(m0, t), s));
    assert u.keys == m1.keys;
    forall i | 0 <= i < |u.keys|
      ensures u.keys[i] in u.entries && u.entries[u.keys[i]].name == IntToString(u.keys[i]) && u.entries[u.keys[i]].y == TaskSlot(i)
    {
      assert m1.keys[i] in m1.entries;
    }
  }

  /** Opening the lane of `t` when it is missing keeps `__taskMap` well formed,
      and afterwards `t` holds its prior lane. */
  lemma LaneInserted(m0: Dict<int, Task>, m1: Dict<int, Task>, slots: nat, t: int)
    requires LanesOk(m0, slots)
    requires t in m0.entries || |m0.keys| < slots
    requires m1 == if t in m0.entries then m0 else m0.Put(t, PriorTask(m0, t))
    ensures LanesOk(m1, slots)
    ensures t in m1.entries && m1.entries[t] == PriorTask(m0, t)
  {
    if t !in m0.entries {
      forall i | 0 <= i < |m1.keys|
        ensures m1.keys[i] in m1.entries && m1.entries[m1.keys[i]].name == IntToString(m1.keys[i])
        ensures m1.entries[m1.keys[i]].y == TaskSlot(i)
      {
        if i < |m0.keys| {
          assert m1.keys[i] == m0.keys[i];
        } else {
          assert m1.keys == m0.keys + [t];
        }
      }
    }
  }

  /** `m` holds exactly the lanes of `rows`: one per thread in first-seen order,
      each as `ExpectedTask` describes it. */
  ghost predicate LanesMatch(rows: seq<Row>, m: Dict<int, Task>)
  {
    && m.keys == ThreadOrder(rows)
    && forall t :: t in ThreadOrder(rows) ==> t in m.entries && m.entries[t] == ExpectedTask(rows, t)
  }

  /** Establishes `LanesMatch` from its two halves; calling it keeps the unfolding
      of the predicate out of the larger proofs that need it. */
  lemma LanesMatchIntro(rows: seq<Row>, m: Dict<int, Task>)
    requires m.keys == ThreadOrder(rows)
    requires forall u :: u in ThreadOrder(rows) ==> u in m.entries && m.entries[u] == ExpectedTask(rows, u)
    ensures LanesMatch(rows, m)
  {
  }

  /** An empty `__taskMap` holds the lanes of no rows. */
  lemma EmptyLanes(m: Dict<int, Task>)
    requires m.keys == []
    ensures LanesMatch([], m)
  {
  }

  /** After row `i` is laid out, the lane of another thread is still its lane. */
  lemma OtherLaneAfterRow(rows: seq<Row>, i: nat, m0: Dict<int, Task>, m1: Dict<int, Task>, u: int)
    requires i < |rows| && u in ThreadOrder(rows[..i + 1]) && u != rows[i].threadId
    requires LanesMatch(rows[..i], m0) && m0.Valid()
    requires rows[i].threadId in m1.entries && m1.entries == m0.entries[rows[i].threadId := m1.entries[rows[i].threadId]]
    ensures u in m1.entries && m1.entries[u] == ExpectedTask(rows[..i + 1], u)
  {
    ExpectedTaskOther(rows, i, u);
  }

  /** After row `i` is laid out, its thread's lane is its lane. */
  lemma OwnLaneAfterRow(rows: seq<Row>, i: nat, m0: Dict<int, Task>, task: Task)
    requires i < |rows|
    requires LanesMatch(rows[..i], m0) && m0.Valid()
    requires task == Append(PriorTask(m0, rows[i].threadId), Segment(rows[i].start, rows[i].duration))
    ensures rows[i].threadId in ThreadOrder(rows[..i + 1])
    ensures task == ExpectedTask(rows[..i + 1], rows[i].threadId)
  {
    if rows[i].threadId in ThreadOrder(rows[..i]) {
      ExpectedTaskKnown(rows, i);
    } else {
      ExpectedTaskNew(rows, i);
    }
  }

  /** Appending row `i`'s segment to its thread's lane (opened if new) turns the
      lanes of the rows before it into the lanes of the rows up to and including it. */
  lemma LanesStep(rows: seq<Row>, i: nat, m0: Dict<int, Task>, m1: Dict<int, Task>)
    requires i < |rows|
    requires LanesMatch(rows[..i], m0) && m0.Valid()
    requires m1 == m0.Put(rows[i].threadId, Append(PriorTask(m0, rows[i].threadId), Segment(rows[i].start, rows[i].duration)))
    ensures LanesMatch(rows[..i + 1], m1)
  {
    ThreadOrderStep(rows, i);
    var t := rows[i].threadId;
    OwnLaneAfterRow(rows, i, m0, m1.entries[t]);
    forall u | u in ThreadOrder(rows[..i + 1]) && u != t
      ensures u in m1.entries && m1.entries[u] == ExpectedTask(rows[..i + 1], u)
    {
      OtherLaneAfterRow(rows, i, m0, m1, u);
    }
    LanesMatchIntro(rows[..i + 1], m1);
  }

  /** The bars drawn from the lanes of `rows`, lane by lane, are the bars of `rows`. */
  lemma BarsFromLanes(rows: seq<Row>, m: Dict<int, Task>, bars: seq<Bar>)
    requires LanesMatch(rows, m)
    requires |bars| == |m.keys|
    requires forall j :: 0 <= j < |bars| ==> m.keys[j] in m.entries && bars[j] == BarOf(m.entries[m.keys[j]])
    ensures bars == LaneBars(rows)
  {
    var order := ThreadOrder(rows);
    var want := LaneBars(rows);
    forall j | 0 <= j < |bars|
      ensures bars[j] == want[j]
    {
      var t := order[j];
      assert t in order;
    }
  }

  // ---------------------------------------------------------------------------
  // The object

  class GanttGraph {
    const pipelineData: PipelineTraceData
    /** `__taskAxis`: one slot per summary thread, filled once by `__init__`. */
    const taskAxis: seq<Slot>
    /** `__taskMap`: thread id to lane, in first-seen order. */
    var taskMap: Dict<int, Task>

    ghost predicate AxisValid()
    {
      && |taskAxis| == pipelineData.threadNum
      && forall i :: 0 <= i < |taskAxis| ==> taskAxis[i] == TaskSlot(i)
    }

    ghost predicate LanesValid()
      reads this`taskMap
    {
      LanesOk(taskMap, |taskAxis|)
    }

    ghost predicate Valid()
      reads this`taskMap
    {
      AxisValid() && LanesValid()
    }

    /** No row has been laid out yet. */
    ghost predicate Unused()
      reads this`taskMap
    {
      taskMap.keys == []
    }

    /** The lanes are exactly those of `rows`. */
    ghost predicate Reflects(rows: seq<Row>)
      reads this`taskMap
    {
      LanesMatch(rows, taskMap)
    }

    /** The layout stopped at row `k`: its thread found every slot taken, and the
        lanes are those of the rows before it. */
    ghost predicate StoppedAt(k: nat)
      reads this`taskMap
    {
      && FailsAt(pipelineData.data, k, pipelineData.threadNum)
      && Reflects(pipelineData.data[..k])
    }

    constructor (data: PipelineTraceData)
      ensures pipelineData == data
      ensures Valid() && Unused()
    {
      pipelineData := data;
      taskMap := Empty();
      var axis: seq<Slot> := [];
      var i := 0;
      while i < data.threadNum
        invariant 0 <= i <= data.threadNum
        invariant |axis| == i
        invariant forall k :: 0 <= k < i ==> axis[k] == TaskSlot(k)
      {
        axis := axis + [Slot(10 * (i + 1), 9)];
        i := i + 1;
      }
      taskAxis := axis;
    }

    /** `__updateAxis`: returns the thread's lane, first creating it empty in the
        next unused slot when the thread is new (failing with an `IndexError` when
        every slot is taken). The other arguments are not used. */
    method UpdateAxis(threadId: int, processorName: string, processorId: int, stageType: string) returns (r: Result<Task>)
      requires Valid()
      modifies this`taskMap
      ensures Valid()
      ensures r.Err? <==> threadId !in old(taskMap.entries) && |old(taskMap.keys)| == |taskAxis|
      ensures r.Err? ==> r.error == IndexError(|taskAxis|, |taskAxis|) && taskMap == old(taskMap)
      ensures r.Ok? ==> taskMap == if threadId in old(taskMap.entries) then old(taskMap) else old(taskMap).Put(threadId, r.value)
      ensures r.Ok? ==> r.value == PriorTask(old(taskMap), threadId) && threadId in taskMap.entries && taskMap.entries[threadId] == r.value
    {
      if threadId !in taskMap.entries {
        if taskMap.Len() >= |taskAxis| {
          return Err(IndexError(taskMap.Len(), |taskAxis|));
        }
        taskMap := taskMap.Put(threadId, Task(IntToString(threadId), [], taskAxis[taskMap.Len()]));
      }
      r := Ok(taskMap.entries[threadId]);
    }

    /** One pass of the row loop of `buildGraph`: `__updateAxis` for row `i`, then
        the row's segment appended to the lane it returned. */
    method LayOutRow(i: nat) returns (r: Result<()>)
      requires i < |pipelineData.data|
      requires Valid() && Reflects(pipelineData.data[..i])
      modifies this`taskMap
      ensures Valid()
      ensures r.Ok? ==> Reflects(pipelineData.data[..i + 1])
      ensures r.Err? ==> r.error == IndexError(pipelineData.threadNum, pipelineData.threadNum)
      ensures r.Err? ==> StoppedAt(i)
    {
      var row := pipelineData.data[i];
      ghost var m0 := taskMap;
      var axis := UpdateAxis(row.threadId, row.processorName, row.processorId, row.stageType);
      if axis.Err? {
        return Err(axis.error);
      }
      var s := Segment(row.start, row.duration);
      LaneOpen(m0, taskMap, |taskAxis|, row.threadId, s);
      taskMap := taskMap.Put(row.threadId, Append(axis.value, s));
      LanesStep(pipelineData.data, i, m0, taskMap);
      r := Ok(());
    }

    /** The row loop of `buildGraph`: every row in order, stopping at the first
        `IndexError`. */
    method LayOutRows() returns (r: Result<()>)
      requires Valid() && Unused()
      modifies this`taskMap
      ensures Valid()
      ensures r.Ok? ==> Reflects(pipelineData.data)
      ensures r.Err? ==> r.error == IndexError(pipelineData.threadNum, pipelineData.threadNum)
      ensures r.Err? ==> exists k: nat :: StoppedAt(k)
    {
      var rows := pipelineData.data;
      assert rows[..0] == [];
      EmptyLanes(taskMap);
      var i := 0;
      while i < |rows|
        invariant 0 <= i <= |rows|
        invariant Valid()
        invariant Reflects(rows[..i])
      {
        r := LayOutRow(i);
        if r.Err? {
          return;
        }
        i := i + 1;
      }
      assert rows[..i] == rows;
      r := Ok(());
    }

    /** The loop of `buildGraph` over `__taskMap`: one 'tab:blue' bar per lane, in lane order. */
    static method CollectBars(m: Dict<int, Task>) returns (bars: seq<Bar>)
      requires m.Valid()
      ensures |bars| == |m.keys|
      ensures forall j :: 0 <= j < |bars| ==> m.keys[j] in m.entries && bars[j] == BarOf(m.entries[m.keys[j]])
    {
      bars := [];
      for k := 0 to |m.keys|
        invariant |bars| == k
        invariant forall j :: 0 <= j < k ==> m.keys[j] in m.entries && bars[j] == BarOf(m.entries[m.keys[j]])
      {
        var value := m.entries[m.keys[k]];
        bars := bars + [Bar(value.x, value.y, FaceColor)];
      }
    }

    /** The drawing part of `buildGraph`: the bars and the two axis limits. Drawn
        from the lanes of the trace's rows, it is the figure of the trace. */
    static method Draw(d: PipelineTraceData, m: Dict<int, Task>) returns (figure: Figure)
      requires m.Valid() && LanesMatch(d.data, m)
      ensures figure == FigureOf(d, d.data)
    {
      var bars := CollectBars(m);
      BarsFromLanes(d.data, m, bars);
      figure := Figure(bars, Limits(5, d.threadNum * 10 + 10), Limits(0, d.walltime + 10));
    }

    /** `buildGraph`: lays out every row in order, then draws the bars and sets
        the axis limits. It fails with the `IndexError` of the first row whose
        thread finds every slot taken, which happens exactly when the trace has
        more threads than slots. */
    method BuildGraph() returns (r: Result<Figure>)
      requires Valid() && Unused()
      modifies this`taskMap
      ensures Valid()
      ensures r.Ok? <==> |ThreadOrder(pipelineData.data)| <= pipelineData.threadNum
      ensures r.Ok? ==> Reflects(pipelineData.data) && r.value == FigureOf(pipelineData, pipelineData.data)
      ensures r.Err? ==> r.error == IndexError(pipelineData.threadNum, pipelineData.threadNum)
      ensures r.Err? ==> exists k: nat :: StoppedAt(k)
    {
      var res := LayOutRows();
      if res.Err? {
        ghost var k: nat :| StoppedAt(k);
        FailureMeansOverflow(pipelineData.data, k, pipelineData.threadNum);
        return Err(res.error);
      }
      var figure := Draw(pipelineData, taskMap);
      r := Ok(figure);
    }
  }
}
