/**
 The Gantt layout of the complete revision of the script
 (pipeline-trace/pipeline-trace-svg.py): `GanttGraph` gives each thread a lane
 of height 2 on a 3-unit pitch, appends every row's `(start, duration)` and
 colour to its thread's lane, colours a row by the first-seen ranks of its
 processor name, processor id and stage type, and computes the axis limits,
 ticks and tick labels handed to the plotting library.

 The row-by-row behaviour is the class `GanttGraph`; what the finished layout
 looks like is stated in closed form by `ExpectedTask` and `FigureOf`, and the
 lemmas below prove the layout's properties from that closed form.
 */
module Gantt {
  import opened FirstSeen
  import opened PyDict
  import opened IntStr
  import opened TraceRows

  /** `__ytickHight`: the pitch between lanes. */
  const YtickHeight: int := 3

  /** An exact channel value `num / den`. The script computes it as the float
      `num * (1.0 / den)`; here it is kept as the fraction itself. */
  datatype Fraction = Fraction(num: nat, den: nat)
  {
    function Value(): real
      requires den > 0
    {
      num as real / den as real
    }
  }

  datatype Color = Color(r: Fraction, g: Fraction, b: Fraction)

  /** One entry of `__taskMap`: the lane of one thread. */
  datatype Task = Task(name: string, x: seq<Segment>, y: Slot, color: seq<Color>)

  /** The arguments of one `broken_barh` call. */
  datatype Bar = Bar(xranges: seq<Segment>, yrange: Slot, facecolors: seq<Color>)

  /** What `buildGraph` hands to the plotting library. */
  datatype Figure = Figure(
    bars: seq<Bar>,
    ylim: Limits,
    xlim: Limits,
    yticks: seq<int>,
    labels: seq<string>)

  /** The slot `__init__` reserves for lane `i`. */
  function TaskSlot(i: nat): (s: Slot)
    ensures s.ymin == 3 * i + 2 && s.height == 2
  {
    Slot(YtickHeight * (i + 1) - YtickHeight / 2, YtickHeight - 1)
  }

  /** Lane bands never overlap: each ends strictly below the next one's start. */
  lemma SlotsDisjoint(i: nat, j: nat)
    requires i < j
    ensures TaskSlot(i).ymin + TaskSlot(i).height < TaskSlot(j).ymin
  {
  }

  /** Every slot reserved for the summary's threads lies within the y limits. */
  lemma SlotsWithinYLim(threadNum: nat, i: nat)
    requires i < threadNum
    ensures 0 <= TaskSlot(i).ymin
    ensures TaskSlot(i).ymin + TaskSlot(i).height <= threadNum * YtickHeight + 10
  {
  }

  // ---------------------------------------------------------------------------
  // Colours

  /** One colour channel: `rank * (1.0 / (count + 1))`, that is `rank / (count + 1)`.
      It lies strictly inside (0, 1) exactly when the rank is between 1 and the count. */
  function Channel(rank: nat, count: nat): (f: Fraction)
    ensures f.den == count + 1
    ensures f.Value() * (count + 1) as real == rank as real
    ensures 0.0 < f.Value() < 1.0 <==> 1 <= rank <= count
  {
    var f := Fraction(rank, count + 1);
    assert f.Value() * (count + 1) as real == rank as real;
    f
  }

  function NameOf(r: Row): string
  {
    r.processorName
  }

  /** `str(processor_id)`: the key of the green table. */
  function PidKeyOf(r: Row): string
  {
    IntToString(r.processorId)
  }

  function StageOf(r: Row): string
  {
    r.stageType
  }

  /** A table of `__colorMap` after its keys were inserted in the order `t.keys`:
      each value is the key's 1-based rank scaled by the summary count. */
  ghost predicate ChannelTable(t: Dict<string, Fraction>, count: nat)
  {
    && t.Valid()
    && forall i :: 0 <= i < |t.keys| ==> t.keys[i] in t.entries && t.entries[t.keys[i]] == Channel(i + 1, count)
  }

  /** A key of a channel table maps to its 1-based first-seen rank over the count. */
  lemma ChannelAt(t: Dict<string, Fraction>, count: nat, k: string)
    requires ChannelTable(t, count) && k in t.entries
    ensures k in t.keys && t.entries[k] == Channel(Rank(t.keys, k), count)
  {
    var i := IndexOf(t.keys, k);
    assert t.keys[i] == k;
  }

  /** The colour of attributes `(name, pid, stage)` given the three first-seen tables. */
  ghost function ColorIn(d: PipelineTraceData, names: seq<string>, pids: seq<string>, stages: seq<string>,
                   name: string, pid: int, stage: string): Color
    requires name in names && IntToString(pid) in pids && stage in stages
  {
    Color(
      Channel(Rank(names, name), d.processorNum),
      Channel(Rank(pids, IntToString(pid)), d.processoridNum),
      Channel(Rank(stages, stage), d.stageNum))
  }

  /** The colour row `j` receives: its attributes' ranks in the tables as they
      stand once rows 0..j have been seen. */
  ghost function RowColor(d: PipelineTraceData, rows: seq<Row>, j: nat): Color
    requires j < |rows|
  {
    var seen := rows[..j + 1];
    assert Column(seen, NameOf)[j] == rows[j].processorName;
    assert Column(seen, PidKeyOf)[j] == IntToString(rows[j].processorId);
    assert Column(seen, StageOf)[j] == rows[j].stageType;
    ColorIn(d, Order(Column(seen, NameOf)), Order(Column(seen, PidKeyOf)), Order(Column(seen, StageOf)),
            rows[j].processorName, rows[j].processorId, rows[j].stageType)
  }

  /** The colours of the rows of thread `t`, in row order. */
  ghost function LaneColors(d: PipelineTraceData, rows: seq<Row>, t: int): seq<Color>
  {
    if rows == [] then []
    else
      var n := |rows| - 1;
      LaneColors(d, rows[..n], t) + if rows[n].threadId == t then [RowColor(d, rows, n)] else []
  }

  /** The lane of thread `t` once `rows` have been laid out. */
  ghost function ExpectedTask(d: PipelineTraceData, rows: seq<Row>, t: int): Task
    requires t in ThreadOrder(rows)
  {
    Task(IntToString(t), LaneSegments(rows, t), TaskSlot(IndexOf(ThreadOrder(rows), t)), LaneColors(d, rows, t))
  }

  /** A lane after one more row: its name and slot are kept, the earlier segments
      and colours are untouched, and one segment and one colour are added at the end. */
  function Extend(task: Task, s: Segment, c: Color): (r: Task)
    ensures r.name == task.name && r.y == task.y
    ensures task.x <= r.x && |r.x| == |task.x| + 1 && r.x[|task.x|] == s
    ensures task.color <= r.color && |r.color| == |task.color| + 1 && r.color[|task.color|] == c
  {
    task.(x := task.x + [s], color := task.color + [c])
  }

  /** The arguments of `broken_barh` for a lane: its segments, its slot and its colours, as stored. */
  function BarOf(task: Task): (b: Bar)
    ensures b.xranges == task.x && b.yrange == task.y && b.facecolors == task.color
  {
    Bar(task.x, task.y, task.color)
  }

  /** The y ticks of `n` lanes: one per lane, each in the middle of its lane's band. */
  function Ticks(n: nat): (ticks: seq<int>)
    ensures |ticks| == n
    ensures forall i :: 0 <= i < n ==> ticks[i] == TaskSlot(i).ymin + TaskSlot(i).height / 2
    ensures forall i :: 0 <= i < n ==> TaskSlot(i).ymin <= ticks[i] < TaskSlot(i).ymin + TaskSlot(i).height
  {
    seq(n, i requires 0 <= i < n => YtickHeight * (i + 1))
  }

  /** Two labels "thread id: " + `str(id)` are equal exactly when the ids are. */
  lemma LabelsIdentify(ids: seq<int>)
    ensures forall i, j :: 0 <= i < |ids| && 0 <= j < |ids| ==>
      ("thread id: " + IntToString(ids[i]) == "thread id: " + IntToString(ids[j]) <==> ids[i] == ids[j])
  {
    forall i, j | 0 <= i < |ids| && 0 <= j < |ids| && "thread id: " + IntToString(ids[i]) == "thread id: " + IntToString(ids[j])
      ensures ids[i] == ids[j]
    {
      var a, b := "thread id: " + IntToString(ids[i]), "thread id: " + IntToString(ids[j]);
      assert a[11..] == IntToString(ids[i]);
      assert b[11..] == IntToString(ids[j]);
      IntToStringInjective(ids[i], ids[j]);
    }
  }

  /** The tick labels of lanes `ids`, in lane order: one per lane, and two labels
      are equal exactly when their lanes' thread ids are. */
  function TickLabels(ids: seq<int>): (labels: seq<string>)
    ensures |labels| == |ids|
    ensures forall i, j :: 0 <= i < |ids| && 0 <= j < |ids| ==> (labels[i] == labels[j] <==> ids[i] == ids[j])
  {
    LabelsIdentify(ids);
    seq(|ids|, i requires 0 <= i < |ids| => "thread id: " + IntToString(ids[i]))
  }

  /** The bars of `rows`: one per thread, in first-seen order. */
  ghost function LaneBars(d: PipelineTraceData, rows: seq<Row>): seq<Bar>
  {
    var order := ThreadOrder(rows);
    seq(|order|, i requires 0 <= i < |order| => BarOf(ExpectedTask(d, rows, order[i])))
  }

  /** Everything `buildGraph` hands to the plotting library for `rows`. */
  ghost function FigureOf(d: PipelineTraceData, rows: seq<Row>): Figure
  {
    var order := ThreadOrder(rows);
    Figure(
      LaneBars(d, rows),
      Limits(0, d.threadNum * YtickHeight + 10),
      Limits(0, d.walltime + 10),
      Ticks(|order|),
      TickLabels(order))
  }

  // ---------------------------------------------------------------------------
  // Properties of the layout

  /** With the walltime the trace's start and end give, the x axis runs from 0 to
      the length of the trace plus a margin of 10. */
  lemma XLimSpansTrace(d: PipelineTraceData, start: int, end: int)
    requires d.walltime == Walltime(start, end)
    ensures FigureOf(d, d.data).xlim == Limits(0, end - start + 10)
  {
  }

  /** Taking one more row appends its colour to its own lane and to no other. */
  lemma LaneColorsStep(d: PipelineTraceData, rows: seq<Row>, i: nat, t: int)
    requires i < |rows|
    ensures LaneColors(d, rows[..i + 1], t) ==
      LaneColors(d, rows[..i], t) + if rows[i].threadId == t then [RowColor(d, rows, i)] else []
  {
    var p := rows[..i + 1];
    assert p[..i] == rows[..i];
    assert p[..i + 1] == rows[..i + 1];
  }

  /** A lane's segment list and colour list always have the same length. */
  lemma {:induction false} LaneListsSameLength(d: PipelineTraceData, rows: seq<Row>, t: int)
    ensures |LaneSegments(rows, t)| == |LaneColors(d, rows, t)|
    decreases |rows|
  {
    if rows != [] {
      var n := |rows| - 1;
      assert rows[..n + 1] == rows;
      LaneListsSameLength(d, rows[..n], t);
      LaneSegmentsStep(rows, n, t);
      LaneColorsStep(d, rows, n, t);
    }
  }

  /** One more row leaves the lanes of the other threads as they were. */
  lemma ExpectedTaskOther(d: PipelineTraceData, rows: seq<Row>, i: nat, t: int)
    requires i < |rows| && t in ThreadOrder(rows[..i + 1]) && t != rows[i].threadId
    ensures t in ThreadOrder(rows[..i])
    ensures ExpectedTask(d, rows[..i + 1], t) == ExpectedTask(d, rows[..i], t)
  {
    var before := ThreadOrder(rows[..i]);
    ThreadOrderStep(rows, i);
    LaneSegmentsStep(rows, i, t);
    LaneColorsStep(d, rows, i, t);
    IndexOfPrefix(before, ThreadOrder(rows[..i + 1]), t);
  }

  /** A row of a thread that already has a lane keeps that lane's slot and appends
      one segment and one colour to it. */
  lemma ExpectedTaskKnown(d: PipelineTraceData, rows: seq<Row>, i: nat)
    requires i < |rows| && rows[i].threadId in ThreadOrder(rows[..i])
    ensures rows[i].threadId in ThreadOrder(rows[..i + 1])
    ensures ExpectedTask(d, rows[..i + 1], rows[i].threadId) ==
      Extend(ExpectedTask(d, rows[..i], rows[i].threadId), Segment(rows[i].start, rows[i].duration), RowColor(d, rows, i))
  {
    var t := rows[i].threadId;
    ThreadOrderStep(rows, i);
    LaneSegmentsStep(rows, i, t);
    LaneColorsStep(d, rows, i, t);
    IndexOfPrefix(ThreadOrder(rows[..i]), ThreadOrder(rows[..i + 1]), t);
  }

  /** The first row of a thread opens its lane in the next unused slot, holding
      just that row's segment and colour. */
  lemma ExpectedTaskNew(d: PipelineTraceData, rows: seq<Row>, i: nat)
    requires i < |rows| && rows[i].threadId !in ThreadOrder(rows[..i])
    ensures rows[i].threadId in ThreadOrder(rows[..i + 1])
    ensures ExpectedTask(d, rows[..i + 1], rows[i].threadId) ==
      Task(IntToString(rows[i].threadId), [Segment(rows[i].start, rows[i].duration)],
           TaskSlot(|ThreadOrder(rows[..i])|), [RowColor(d, rows, i)])
  {
    var t := rows[i].threadId;
    var before := ThreadOrder(rows[..i]);
    ThreadOrderStep(rows, i);
    LaneSegmentsStep(rows, i, t);
    LaneColorsStep(d, rows, i, t);
    IndexOfAppended(before, t);
    LaneNonEmpty(rows[..i], t);
    LaneListsSameLength(d, rows[..i], t);
  }

  /** The colour a row got when it was laid out is its colour under the final tables. */
  lemma RowColorFinal(d: PipelineTraceData, rows: seq<Row>, j: nat)
    requires j < |rows|
    ensures rows[j].processorName in Order(Column(rows, NameOf))
    ensures IntToString(rows[j].processorId) in Order(Column(rows, PidKeyOf))
    ensures rows[j].stageType in Order(Column(rows, StageOf))
    ensures RowColor(d, rows, j) ==
      ColorIn(d, Order(Column(rows, NameOf)), Order(Column(rows, PidKeyOf)), Order(Column(rows, StageOf)),
              rows[j].processorName, rows[j].processorId, rows[j].stageType)
  {
    var seen := rows[..j + 1];
    assert Column(seen, NameOf)[j] == rows[j].processorName;
    assert Column(seen, PidKeyOf)[j] == IntToString(rows[j].processorId);
    assert Column(seen, StageOf)[j] == rows[j].stageType;
    RankStable(rows, NameOf, j + 1, rows[j].processorName);
    RankStable(rows, PidKeyOf, j + 1, IntToString(rows[j].processorId));
    RankStable(rows, StageOf, j + 1, rows[j].stageType);
  }

  /** Colours are memoised: two rows with the same processor name, processor id
      and stage type get the identical colour, wherever they are in the trace. */
  lemma ColorMemoised(d: PipelineTraceData, rows: seq<Row>, i: nat, j: nat)
    requires i < |rows| && j < |rows|
    requires rows[i].processorName == rows[j].processorName
    requires rows[i].processorId == rows[j].processorId
    requires rows[i].stageType == rows[j].stageType
    ensures RowColor(d, rows, i) == RowColor(d, rows, j)
  {
    RowColorFinal(d, rows, i);
    RowColorFinal(d, rows, j);
  }

  /** Each channel identifies its attribute: two rows have the same red value exactly
      when they have the same processor name, the same green value exactly when they
      have the same processor id, the same blue value exactly when they have the
      same stage type. */
  lemma ChannelsIdentifyAttributes(d: PipelineTraceData, rows: seq<Row>, i: nat, j: nat)
    requires i < |rows| && j < |rows|
    ensures RowColor(d, rows, i).r == RowColor(d, rows, j).r <==> rows[i].processorName == rows[j].processorName
    ensures RowColor(d, rows, i).g == RowColor(d, rows, j).g <==> rows[i].processorId == rows[j].processorId
    ensures RowColor(d, rows, i).b == RowColor(d, rows, j).b <==> rows[i].stageType == rows[j].stageType
  {
    RowColorFinal(d, rows, i);
    RowColorFinal(d, rows, j);
    var names, pids, stages := Order(Column(rows, NameOf)), Order(Column(rows, PidKeyOf)), Order(Column(rows, StageOf));
    var pi, pj := IntToString(rows[i].processorId), IntToString(rows[j].processorId);
    RankIdentifies(names, rows[i].processorName, rows[j].processorName);
    RankIdentifies(pids, pi, pj);
    RankIdentifies(stages, rows[i].stageType, rows[j].stageType);
    if pi == pj {
      IntToStringInjective(rows[i].processorId, rows[j].processorId);
    }
  }

  /** When no dimension has more distinct values than the summary counted, every
      channel of every row's colour lies strictly between 0 and 1. */
  lemma ColorChannelsInside(d: PipelineTraceData, rows: seq<Row>, j: nat)
    requires j < |rows|
    requires |Order(Column(rows, NameOf))| <= d.processorNum
    requires |Order(Column(rows, PidKeyOf))| <= d.processoridNum
    requires |Order(Column(rows, StageOf))| <= d.stageNum
    ensures 0.0 < RowColor(d, rows, j).r.Value() < 1.0
    ensures 0.0 < RowColor(d, rows, j).g.Value() < 1.0
    ensures 0.0 < RowColor(d, rows, j).b.Value() < 1.0
  {
    RowColorFinal(d, rows, j);
    var names, pids, stages := Order(Column(rows, NameOf)), Order(Column(rows, PidKeyOf)), Order(Column(rows, StageOf));
    assert Rank(names, rows[j].processorName) <= d.processorNum;
    assert Rank(pids, IntToString(rows[j].processorId)) <= d.processoridNum;
    assert Rank(stages, rows[j].stageType) <= d.stageNum;
  }

  /** Lanes of different threads occupy disjoint bands. */
  lemma LanesDisjoint(d: PipelineTraceData, rows: seq<Row>, t1: int, t2: int)
    requires t1 in ThreadOrder(rows) && t2 in ThreadOrder(rows) && t1 != t2
    ensures var y1, y2 := ExpectedTask(d, rows, t1).y, ExpectedTask(d, rows, t2).y;
      y1.ymin + y1.height < y2.ymin || y2.ymin + y2.height < y1.ymin
  {
    var i1, i2 := IndexOf(ThreadOrder(rows), t1), IndexOf(ThreadOrder(rows), t2);
    assert i1 != i2;
    if i1 < i2 { SlotsDisjoint(i1, i2); } else { SlotsDisjoint(i2, i1); }
  }

  /** The finished figure: one bar per distinct thread id, in first-seen order; each
      bar holds its thread's segments and an equally long colour list; tick `i`
      lies inside bar `i`'s band and is labelled with bar `i`'s thread id; the x
      limit is the walltime plus 10. */
  lemma FigureShape(d: PipelineTraceData, rows: seq<Row>)
    ensures var f := FigureOf(d, rows);
      && |f.bars| == |f.yticks| == |f.labels| == |set r | r in rows :: r.threadId|
      && f.xlim == Limits(0, d.walltime + 10)
      && f.ylim == Limits(0, d.threadNum * 3 + 10)
      && forall i :: 0 <= i < |f.bars| ==> BarShape(f, rows, i)
  {
    LaneCount(rows);
    forall i | 0 <= i < |ThreadOrder(rows)|
      ensures BarShape(FigureOf(d, rows), rows, i)
    {
      FigureLane(d, rows, i);
    }
  }

  /** Bar `i` of `f` is the lane of the `i`-th thread of `rows`: it holds that
      thread's segments (at least one) and as many colours, sits in slot `i`, and
      its tick lies inside its band and is labelled with its thread id. */
  ghost predicate BarShape(f: Figure, rows: seq<Row>, i: nat)
  {
    && i < |f.bars| && i < |f.yticks| && i < |f.labels| && i < |ThreadOrder(rows)|
    && var t := ThreadOrder(rows)[i];
    && f.bars[i].xranges == LaneSegments(rows, t)
    && f.bars[i].xranges != []
    && |f.bars[i].facecolors| == |f.bars[i].xranges|
    && f.bars[i].yrange == TaskSlot(i)
    && f.bars[i].yrange.ymin <= f.yticks[i] < f.bars[i].yrange.ymin + f.bars[i].yrange.height
    && f.labels[i] == "thread id: " + IntToString(t)
  }

  /** The shape of one bar of the finished figure. */
  lemma FigureLane(d: PipelineTraceData, rows: seq<Row>, i: nat)
    requires i < |ThreadOrder(rows)|
    ensures BarShape(FigureOf(d, rows), rows, i)
  {
    var order := ThreadOrder(rows);
    LaneNonEmpty(rows, order[i]);
    LaneListsSameLength(d, rows, order[i]);
    IndexOfAt(order, i);
  }

  /** Lane `t` sits in slot `i`: it is named after its thread and holds as many
      colours as segments. */
  predicate LaneShape(task: Task, t: int, i: nat)
  {
    && task.name == IntToString(t)
    && task.y == TaskSlot(i)
    && |task.x| == |task.color|
  }

  /** `__taskMap` is well formed: at most `slots` lanes, the `i`-th inserted
      thread's lane sitting in slot `i`. */
  ghost predicate LanesOk(m: Dict<int, Task>, slots: nat)
  {
    && m.Valid()
    && |m.keys| <= slots
    && forall i :: 0 <= i < |m.keys| ==> m.keys[i] in m.entries && LaneShape(m.entries[m.keys[i]], m.keys[i], i)
  }

  /** The lane `__updateAx` extends for thread `t`: the existing one as stored, or
      a fresh lane in the next unused slot with no segments and no colours yet. */
  function PriorTask(m: Dict<int, Task>, t: int): (task: Task)
    ensures t in m.entries ==> task == m.entries[t]
    ensures t !in m.entries ==> task.x == [] && task.color == []
  {
    if t in m.entries then m.entries[t] else Task(IntToString(t), [], TaskSlot(|m.keys|), [])
  }

  /** The lane a row extends is named after its thread, sits in the slot of the
      thread's position in `__taskMap` once the thread is inserted, and holds as
      many colours as segments. */
  lemma PriorTaskShape(m: Dict<int, Task>, slots: nat, t: int)
    requires LanesOk(m, slots)
    ensures t in Remember(m.keys, t)
    ensures LaneShape(PriorTask(m, t), t, IndexOf(Remember(m.keys, t), t))
  {
    if t in m.entries {
      var i := IndexOf(m.keys, t);
      assert LaneShape(m.entries[m.keys[i]], m.keys[i], i);
    } else {
      IndexOfAppended(m.keys, t);
    }
  }

  /** Opening the lane of `t` when it is missing puts a fresh lane in the next
      unused slot: afterwards `t` holds its prior lane. */
  lemma LaneOpen(m0: Dict<int, Task>, m1: Dict<int, Task>, t: int)
    requires m0.Valid()
    requires m1 == if t in m0.entries then m0 else m0.Put(t, PriorTask(m0, t))
    ensures m1.Valid() && t in m1.entries && m1.entries[t] == PriorTask(m0, t)
  {
  }

  /** Extending the lane of `t`, opened if it was missing, by one segment and one
      colour amounts to storing the extended prior lane under `t`, and keeps
      `__taskMap` well formed. */
  lemma LaneExtend(m0: Dict<int, Task>, m1: Dict<int, Task>, slots: nat, t: int, s: Segment, c: Color)
    requires LanesOk(m0, slots)
    requires t in m0.entries || |m0.keys| < slots
    requires m1 == if t in m0.entries then m0 else m0.Put(t, PriorTask(m0, t))
    ensures t in m1.entries && m1.Put(t, Extend(m1.entries[t], s, c)) == m0.Put(t, Extend(PriorTask(m0, t), s, c))
    ensures LanesOk(m0.Put(t, Extend(PriorTask(m0, t), s, c)), slots)
  {
    if t !in m0.entries {
      PutPut(m0, t, PriorTask(m0, t), Extend(PriorTask(m0, t), s, c));
    }
    var u := m0.Put(t, Extend(PriorTask(m0, t), s, c));
    forall i | 0 <= i < |u.keys|
      ensures u.keys[i] in u.entries && LaneShape(u.entries[u.keys[i]], u.keys[i], i)
    {
      if i < |m0.keys| {
        assert u.keys[i] == m0.keys[i];
      } else {
        assert u.keys == m0.keys + [t];
      }
    }
  }

  /** `__updateAx` for `row` took the layout from `(m0, r0, g0, b0)` to
      `(m1, r1, g1, b1)`: each attribute was inserted into its colour table on
      first sight, and the row's thread lane (the existing one, or a fresh lane in
      the next unused slot) gained the row's segment and its colour, while every
      other lane stayed as it was. */
  ghost predicate RowLaidOut(d: PipelineTraceData, row: Row,
                             m0: Dict<int, Task>, r0: Dict<string, Fraction>, g0: Dict<string, Fraction>, b0: Dict<string, Fraction>,
                             m1: Dict<int, Task>, r1: Dict<string, Fraction>, g1: Dict<string, Fraction>, b1: Dict<string, Fraction>)
  {
    && m0.Valid()
    && r1.keys == Remember(r0.keys, row.processorName)
    && g1.keys == Remember(g0.keys, IntToString(row.processorId))
    && b1.keys == Remember(b0.keys, row.stageType)
    && m1 == m0.Put(row.threadId, Extend(PriorTask(m0, row.threadId), Segment(row.start, row.duration),
                    ColorIn(d, r1.keys, g1.keys, b1.keys, row.processorName, row.processorId, row.stageType)))
  }

  /** `m` holds exactly the lanes of `rows`: one per thread in first-seen order,
      each as `ExpectedTask` describes it. */
  ghost predicate LanesMatch(d: PipelineTraceData, rows: seq<Row>, m: Dict<int, Task>)
  {
    && m.keys == ThreadOrder(rows)
    && forall t :: t in ThreadOrder(rows) ==> t in m.entries && m.entries[t] == ExpectedTask(d, rows, t)
  }

  /** Establishes `LanesMatch` from its two halves; calling it keeps the unfolding
      of the predicate out of the larger proofs that need it. */
  lemma LanesMatchIntro(d: PipelineTraceData, rows: seq<Row>, m: Dict<int, Task>)
    requires m.keys == ThreadOrder(rows)
    requires forall u :: u in ThreadOrder(rows) ==> u in m.entries && m.entries[u] == ExpectedTask(d, rows, u)
    ensures LanesMatch(d, rows, m)
  {
  }

  /** `(m, r, g, b)` is exactly the layout of `rows`: the lanes of `rows`, and each
      colour table listing the distinct values of its attribute in first-seen order. */
  ghost predicate LayoutOf(d: PipelineTraceData, rows: seq<Row>,
                           m: Dict<int, Task>, r: Dict<string, Fraction>, g: Dict<string, Fraction>, b: Dict<string, Fraction>)
  {
    && LanesMatch(d, rows, m)
    && r.keys == Order(Column(rows, NameOf))
    && g.keys == Order(Column(rows, PidKeyOf))
    && b.keys == Order(Column(rows, StageOf))
  }

  /** After row `i` is laid out, the lane of another thread is still its lane. */
  lemma OtherLaneAfterRow(d: PipelineTraceData, rows: seq<Row>, i: nat, m0: Dict<int, Task>, m1: Dict<int, Task>, u: int)
    requires i < |rows| && u in ThreadOrder(rows[..i + 1]) && u != rows[i].threadId
    requires LanesMatch(d, rows[..i], m0) && m0.Valid()
    requires rows[i].threadId in m1.entries && m1.entries == m0.entries[rows[i].threadId := m1.entries[rows[i].threadId]]
    ensures u in m1.entries && m1.entries[u] == ExpectedTask(d, rows[..i + 1], u)
  {
    ExpectedTaskOther(d, rows, i, u);
  }

  /** After row `i` is laid out, its thread's lane is its lane. */
  lemma OwnLaneAfterRow(d: PipelineTraceData, rows: seq<Row>, i: nat, m0: Dict<int, Task>, task: Task)
    requires i < |rows|
    requires LanesMatch(d, rows[..i], m0) && m0.Valid()
    requires task == Extend(PriorTask(m0, rows[i].threadId), Segment(rows[i].start, rows[i].duration), RowColor(d, rows, i))
    ensures rows[i].threadId in ThreadOrder(rows[..i + 1])
    ensures task == ExpectedTask(d, rows[..i + 1], rows[i].threadId)
  {
    if rows[i].threadId in ThreadOrder(rows[..i]) {
      ExpectedTaskKnown(d, rows, i);
    } else {
      ExpectedTaskNew(d, rows, i);
    }
  }

  /** Extending row `i`'s lane with its segment and colour turns the lanes of the
      rows before it into the lanes of the rows up to and including it. */
  lemma LanesStep(d: PipelineTraceData, rows: seq<Row>, i: nat, m0: Dict<int, Task>, m1: Dict<int, Task>)
    requires i < |rows|
    requires LanesMatch(d, rows[..i], m0) && m0.Valid()
    requires m1 == m0.Put(rows[i].threadId,
                          Extend(PriorTask(m0, rows[i].threadId), Segment(rows[i].start, rows[i].duration), RowColor(d, rows, i)))
    ensures LanesMatch(d, rows[..i + 1], m1)
  {
    ThreadOrderStep(rows, i);
    var t := rows[i].threadId;
    OwnLaneAfterRow(d, rows, i, m0, m1.entries[t]);
    forall u | u in ThreadOrder(rows[..i + 1]) && u != t
      ensures u in m1.entries && m1.entries[u] == ExpectedTask(d, rows[..i + 1], u)
    {
      OtherLaneAfterRow(d, rows, i, m0, m1, u);
    }
    LanesMatchIntro(d, rows[..i + 1], m1);
  }

  /** Laying out row `i` on top of the layout of the rows before it gives the
      layout of the rows up to and including it. */
  lemma LayoutStep(d: PipelineTraceData, rows: seq<Row>, i: nat,
                   m0: Dict<int, Task>, r0: Dict<string, Fraction>, g0: Dict<string, Fraction>, b0: Dict<string, Fraction>,
                   m1: Dict<int, Task>, r1: Dict<string, Fraction>, g1: Dict<string, Fraction>, b1: Dict<string, Fraction>)
    requires i < |rows|
    requires LayoutOf(d, rows[..i], m0, r0, g0, b0)
    requires RowLaidOut(d, rows[i], m0, r0, g0, b0, m1, r1, g1, b1)
    ensures LayoutOf(d, rows[..i + 1], m1, r1, g1, b1)
  {
    ColumnOrderStep(rows, NameOf, i);
    ColumnOrderStep(rows, PidKeyOf, i);
    ColumnOrderStep(rows, StageOf, i);
    assert RowColor(d, rows, i) == ColorIn(d, r1.keys, g1.keys, b1.keys, rows[i].processorName, rows[i].processorId, rows[i].stageType);
    LanesStep(d, rows, i, m0, m1);
  }

  /** The bars drawn from the lanes of `rows`, with the ticks and labels of those
      lanes, make up the figure of `rows`. */
  lemma FigureFromLanes(d: PipelineTraceData, rows: seq<Row>, m: Dict<int, Task>, bars: seq<Bar>)
    requires LanesMatch(d, rows, m)
    requires |bars| == |m.keys|
    requires forall j :: 0 <= j < |bars| ==> m.keys[j] in m.entries && bars[j] == BarOf(m.entries[m.keys[j]])
    ensures Figure(bars, Limits(0, d.threadNum * YtickHeight + 10), Limits(0, d.walltime + 10), Ticks(|m.keys|), TickLabels(m.keys))
            == FigureOf(d, rows)
  {
    BarsFromLanes(d, rows, m, bars);
  }

  /** The bars drawn from the lanes of `rows`, lane by lane, are the bars of `rows`. */
  lemma BarsFromLanes(d: PipelineTraceData, rows: seq<Row>, m: Dict<int, Task>, bars: seq<Bar>)
    requires LanesMatch(d, rows, m)
    requires |bars| == |m.keys|
    requires forall j :: 0 <= j < |bars| ==> m.keys[j] in m.entries && bars[j] == BarOf(m.entries[m.keys[j]])
    ensures bars == LaneBars(d, rows)
  {
    var order := ThreadOrder(rows);
    var want := LaneBars(d, rows);
    forall j | 0 <= j < |bars|
      ensures bars[j] == want[j]
    {
      var t := order[j];
      assert t in order;
    }
  }

  /** Empty tables are the layout of no rows. */
  lemma EmptyLayout(d: PipelineTraceData, m: Dict<int, Task>, r: Dict<string, Fraction>, g: Dict<string, Fraction>, b: Dict<string, Fraction>)
    requires m.keys == [] && r.keys == [] && g.keys == [] && b.keys == []
    ensures LayoutOf(d, [], m, r, g, b)
  {
  }

  // ---------------------------------------------------------------------------
  // The object

  class GanttGraph {
    const pipelineData: PipelineTraceData
    /** `__taskAxis`: one slot per summary thread, filled once by `__init__`. */
    const taskAxis: seq<Slot>
    /** `__taskMap`: thread id to lane, in first-seen order. */
    var taskMap: Dict<int, Task>
    /** `__colorMap["r"]`, keyed by processor name. */
    var colorR: Dict<string, Fraction>
    /** `__colorMap["g"]`, keyed by `str(processor_id)`. */
    var colorG: Dict<string, Fraction>
    /** `__colorMap["b"]`, keyed by stage type. */
    var colorB: Dict<string, Fraction>

    ghost predicate AxisValid()
    {
      && |taskAxis| == pipelineData.threadNum
      && forall i :: 0 <= i < |taskAxis| ==> taskAxis[i] == TaskSlot(i)
    }

    ghost predicate LanesValid()
      reads this`taskMap
    {
      LanesOk(taskMap, |taskAxis|)
    }

    ghost predicate ColorsValid()
      reads this`colorR, this`colorG, this`colorB
    {
      && ChannelTable(colorR, pipelineData.processorNum)
      && ChannelTable(colorG, pipelineData.processoridNum)
      && ChannelTable(colorB, pipelineData.stageNum)
    }

    ghost predicate Valid()
      reads this`taskMap, this`colorR, this`colorG, this`colorB
    {
      AxisValid() && LanesValid() && ColorsValid()
    }

    /** No row has been laid out yet. */
    ghost predicate Unused()
      reads this`taskMap, this`colorR, this`colorG, this`colorB
    {
      taskMap.keys == [] && colorR.keys == [] && colorG.keys == [] && colorB.keys == []
    }

    /** The state is exactly the layout of `rows`. */
    ghost predicate Reflects(rows: seq<Row>)
      reads this`taskMap, this`colorR, this`colorG, this`colorB
    {
      LayoutOf(pipelineData, rows, taskMap, colorR, colorG, colorB)
    }

    constructor (data: PipelineTraceData)
      ensures pipelineData == data
      ensures Valid() && Unused()
    {
      pipelineData := data;
      taskMap := Empty();
      colorR, colorG, colorB := Empty(), Empty(), Empty();
      var axis: seq<Slot> := [];
      var i := 0;
      while i < data.threadNum
        invariant 0 <= i <= data.threadNum
        invariant |axis| == i
        invariant forall k :: 0 <= k < i ==> axis[k] == TaskSlot(k)
      {
        axis := axis + [Slot(YtickHeight * (i + 1) - YtickHeight / 2, YtickHeight - 1)];
        i := i + 1;
      }
      taskAxis := axis;
    }

    /** One table's part of `__getColor`: `k` is inserted on first sight with the
        next rank, the table stays a channel table, and the value returned is `k`'s
        rank over the count: the stored value when `k` was already present. */
    static method ChannelEntry(t: Dict<string, Fraction>, k: string, count: nat) returns (u: Dict<string, Fraction>, v: Fraction)
      requires ChannelTable(t, count)
      ensures ChannelTable(u, count)
      ensures u.keys == Remember(t.keys, k)
      ensures k in u.entries && v == u.entries[k] == Channel(Rank(u.keys, k), count)
      ensures k in t.entries ==> v == t.entries[k]
    {
      u := t;
      if k !in u.entries {
        u := u.Put(k, Fraction(u.Len() + 1, count + 1));
        assert u.keys == t.keys + [k];
        forall i | 0 <= i < |u.keys|
          ensures u.keys[i] in u.entries && u.entries[u.keys[i]] == Channel(i + 1, count)
        {
          if i < |t.keys| {
            assert u.keys[i] == t.keys[i] != k;
          }
        }
      }
      ChannelAt(u, count, k);
      v := u.entries[k];
    }

    /** `__getColor`: inserts each attribute into its table on first sight and
        returns the three stored channel values. */
    method GetColor(processorName: string, processorId: int, stageType: string) returns (c: Color)
      requires ColorsValid()
      modifies this`colorR, this`colorG, this`colorB
      ensures ColorsValid()
      ensures colorR.keys == Remember(old(colorR.keys), processorName)
      ensures colorG.keys == Remember(old(colorG.keys), IntToString(processorId))
      ensures colorB.keys == Remember(old(colorB.keys), stageType)
      ensures c == ColorIn(pipelineData, colorR.keys, colorG.keys, colorB.keys, processorName, processorId, stageType)
      ensures processorName in old(colorR.entries) ==> c.r == old(colorR.entries[processorName])
      ensures IntToString(processorId) in old(colorG.entries) ==> c.g == old(colorG.entries[IntToString(processorId)])
      ensures stageType in old(colorB.entries) ==> c.b == old(colorB.entries[stageType])
    {
      var red, green, blue;
      colorR, red := ChannelEntry(colorR, processorName, pipelineData.processorNum);
      colorG, green := ChannelEntry(colorG, IntToString(processorId), pipelineData.processoridNum);
      colorB, blue := ChannelEntry(colorB, stageType, pipelineData.stageNum);
      c := Color(red, green, blue);
    }

    /** `__updateAx`: finds or creates the thread's lane (failing with an
        `IndexError` when a new thread finds every slot taken), then appends the
        row's segment and colour to that lane only. */
    method UpdateAx(threadId: int, processorName: string, processorId: int, stageType: string, start: int, duration: int)
      returns (r: Result<()>)
      requires Valid()
      modifies this`taskMap, this`colorR, this`colorG, this`colorB
      ensures Valid()
      ensures r.Err? <==> threadId !in old(taskMap.entries) && |old(taskMap.keys)| == |taskAxis|
      ensures r.Err? ==> r.error == IndexError(|taskAxis|, |taskAxis|) && unchanged(this)
      ensures r.Ok? ==> RowLaidOut(pipelineData, Row(threadId, processorName, processorId, stageType, start, duration),
                                   old(taskMap), old(colorR), old(colorG), old(colorB), taskMap, colorR, colorG, colorB)
    {
      ghost var m0, slots := taskMap, |taskAxis|;
      if threadId !in taskMap.entries {
        if taskMap.Len() >= |taskAxis| {
          return Err(IndexError(taskMap.Len(), |taskAxis|));
        }
        taskMap := taskMap.Put(threadId, Task(IntToString(threadId), [], taskAxis[taskMap.Len()], []));
      }
      ghost var m1 := taskMap;
      LaneOpen(m0, m1, threadId);
      var task := taskMap.entries[threadId];
      var c := GetColor(processorName, processorId, stageType);
      LaneExtend(m0, m1, slots, threadId, Segment(start, duration), c);
      taskMap := taskMap.Put(threadId, Extend(task, Segment(start, duration), c));
      r := Ok(());
    }

    /** The loop of `buildGraph` over `__taskMap`: one bar per lane, in lane order. */
    static method CollectBars(m: Dict<int, Task>) returns (bars: seq<Bar>)
      requires m.Valid()
      ensures |bars| == |m.keys|
      ensures forall j :: 0 <= j < |bars| ==> m.keys[j] in m.entries && bars[j] == BarOf(m.entries[m.keys[j]])
    {
      bars := [];
      for k := 0 to |m.keys|
        invariant |bars| == k
        invariant forall j :: 0 <= j < k ==> m.keys[j] in m.entries && bars[j] == BarOf(m.entries[m.keys[j]])
      {
        var value := m.entries[m.keys[k]];
        bars := bars + [Bar(value.x, value.y, value.color)];
      }
    }

    /** The layout stopped at row `k`: its thread found every slot taken, and the
        state is the layout of the rows before it. */
    ghost predicate StoppedAt(k: nat)
      reads this`taskMap, this`colorR, this`colorG, this`colorB
    {
      && FailsAt(pipelineData.data, k, pipelineData.threadNum)
      && Reflects(pipelineData.data[..k])
    }

    /** The drawing part of `buildGraph`: one bar per lane, the axis limits, and a
        tick with its label per lane. Drawn from the lanes of the trace's rows, it
        is the figure of the trace. */
    static method Draw(d: PipelineTraceData, m: Dict<int, Task>) returns (figure: Figure)
      requires m.Valid() && LanesMatch(d, d.data, m)
      ensures figure == FigureOf(d, d.data)
    {
      var bars := CollectBars(m);
      figure := Figure(bars, Limits(0, d.threadNum * YtickHeight + 10), Limits(0, d.walltime + 10), Ticks(|m.keys|), TickLabels(m.keys));
      FigureFromLanes(d, d.data, m, bars);
    }

    /** One pass of the row loop of `buildGraph`: `__updateAx` for row `i`, which
        either extends the layout of the rows before it by that row, or stops there. */
    method LayOutRow(i: nat) returns (r: Result<()>)
      requires i < |pipelineData.data|
      requires Valid() && Reflects(pipelineData.data[..i])
      modifies this`taskMap, this`colorR, this`colorG, this`colorB
      ensures Valid()
      ensures r.Ok? ==> Reflects(pipelineData.data[..i + 1])
      ensures r.Err? ==> r.error == IndexError(pipelineData.threadNum, pipelineData.threadNum)
      ensures r.Err? ==> StoppedAt(i)
    {
      var row := pipelineData.data[i];
      ghost var m0, r0, g0, b0 := taskMap, colorR, colorG, colorB;
      r := UpdateAx(row.threadId, row.processorName, row.processorId, row.stageType, row.start, row.duration);
      if r.Ok? {
        LayoutStep(pipelineData, pipelineData.data, i, m0, r0, g0, b0, taskMap, colorR, colorG, colorB);
      }
    }

    /** The row loop of `buildGraph`: `__updateAx` for every row in order, stopping
        at the first `IndexError`. */
    method LayOutRows() returns (r: Result<()>)
      requires Valid() && Unused()
      modifies this`taskMap, this`colorR, this`colorG, this`colorB
      ensures Valid()
      ensures r.Ok? ==> Reflects(pipelineData.data)
      ensures r.Err? ==> r.error == IndexError(pipelineData.threadNum, pipelineData.threadNum)
      ensures r.Err? ==> exists k: nat :: StoppedAt(k)
    {
      var rows := pipelineData.data;
      assert rows[..0] == [];
      EmptyLayout(pipelineData, taskMap, colorR, colorG, colorB);
      var i := 0;
      while i < |rows|
        invariant 0 <= i <= |rows|
        invariant Valid()
        invariant Reflects(rows[..i])
      {
        r := LayOutRow(i);
        if r.Err? {
          return;
        }
        i := i + 1;
      }
      assert rows[..i] == rows;
      r := Ok(());
    }

    /** `buildGraph`: lays out every row in order, then collects the bars, the
        axis limits, the ticks and their labels. It fails with the `IndexError`
        of the first row whose thread finds every slot taken, which happens
        exactly when the trace has more threads than slots. */
    method BuildGraph() returns (r: Result<Figure>)
      requires Valid() && Unused()
      modifies this`taskMap, this`colorR, this`colorG, this`colorB
      ensures Valid()
      ensures r.Ok? <==> |ThreadOrder(pipelineData.data)| <= pipelineData.threadNum
      ensures r.Ok? ==> Reflects(pipelineData.data) && r.value == FigureOf(pipelineData, pipelineData.data)
      ensures r.Err? ==> r.error == IndexError(pipelineData.threadNum, pipelineData.threadNum)
      ensures r.Err? ==> exists k: nat :: StoppedAt(k)
    {
      var res := LayOutRows();
      if res.Err? {
        ghost var k: nat :| StoppedAt(k);
        FailureMeansOverflow(pipelineData.data, k, pipelineData.threadNum);
        return Err(res.error);
      }
      var figure := Draw(pipelineData, taskMap);
      r := Ok(figure);
    }
  }
}
