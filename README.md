# Pipeline-trace Gantt layout, in Dafny

This project models the layout engine of the ClickHouse pipeline-trace Gantt
scripts. The engine is `GanttGraph`. It reads the rows of one query's
pipeline trace log: thread id, processor name, processor id, stage type,
start and duration. It gives every thread a horizontal lane. Each row is
appended to its thread's lane as a `(start, duration)` segment. It then hands
the plotting library the bars, the axis limits and, in the complete revision,
the y ticks with their labels.

The repository holds two revisions of the script, and both are modelled:

- `pipeline-trace/pipeline-trace-svg.py` is the complete revision, module
  `Gantt`. Lanes are 2 units high on a 3-unit pitch. Each row also gets a
  colour, drawn from three first-seen tables: processor name → red,
  `str(processor_id)` → green, stage type → blue. A channel is the value's
  1-based first-seen rank over the summary's distinct count plus one.
- `pipeline-trace-svg.py` is the earlier revision, module `GanttEarly`.
  Lanes are 9 units high on a 10-unit pitch, every bar is 'tab:blue', and
  `__getColor` is the constant `(0.5, 0, 0)`.

Modules:

- `FirstSeen`: the first-seen order of a sequence, positions and ranks in it,
  and the facts the layout rests on. A position never changes once given; a
  new value takes the next unused position; the order holds exactly the
  distinct values.
- `PyDict`: an insertion-ordered Python dict. It is a key sequence plus a map;
  `len` is the length of the key sequence, and `d[k] = v` appends a new key.
- `IntStr`: Python's `str()` on integers. The digits read back as the number
  they came from, so different integers give different strings.
- `TraceRows`: what both revisions share. This covers the row and summary
  records, `walltime = end - start`, the lane order (first-seen thread order)
  and the segments of each lane. It also covers the overflow condition: a new
  thread arriving when every slot is taken.
- `Gantt`, `GanttEarly`: one class `GanttGraph` per revision.
  - Its fields are `__taskAxis`, `__taskMap` and, in the complete revision,
    the three `__colorMap` tables.
  - Its methods are `__init__`, `__getColor`, `__updateAx` / `__updateAxis`
    and `buildGraph`.
  - Beside it, the finished layout is stated in closed form
    (`ExpectedTask`, `FigureOf`), with lemmas about that closed form.

`BuildGraph` is proved against the closed form in both revisions:
- It succeeds exactly when the trace has no more distinct threads than the
  summary's `threadNum`.
- On success, the state is the layout of all rows, and the figure is
  `FigureOf` of the rows.
- On failure, it returns the `IndexError` of the first row whose thread
  finds every slot taken, and the state is the layout of the rows before
  that row.

Facts about the scripts that the model keeps as they are:
- The y limit is built from the summary's `threadNum`, not from the number of
  lanes actually created.
- Every channel of every row lies strictly inside (0, 1) when no attribute has
  more distinct values than the summary counted (`Gantt.ColorChannelsInside`).
  A value whose rank exceeds its count gets a channel of 1 or more
  (`Gantt.Channel`).
- Neither script checks the start or duration of a row. The model accepts
  every row, negative values included.
- Neither script has a working "no data" path (see "Left out").

## Model

| member | source | states |
|---|---|---|
| TraceRows.Walltime | pipeline-trace/pipeline-trace-svg.py:131 | the walltime added to the start gives the end, and it is non-negative exactly when start ≤ end |
| TraceRows.ThreadOrderStep | pipeline-trace/pipeline-trace-svg.py:77-82 | a row inserts its thread into the lane order only if the thread has no lane yet, at the end |
| TraceRows.LaneSegmentsStep | pipeline-trace/pipeline-trace-svg.py:84 | a row appends its `(start, duration)` to its own thread's segments and to no other lane |
| TraceRows.ThreadOrderMembership | pipeline-trace/pipeline-trace-svg.py:77-82 | a thread has a lane iff some row carries its id |
| TraceRows.LaneCount | pipeline-trace/pipeline-trace-svg.py:105-107 | the number of lanes equals the number of distinct thread ids |
| TraceRows.LaneNonEmpty | pipeline-trace/pipeline-trace-svg.py:77-84 | a thread's segment list is non-empty iff the thread has a lane: lanes are only opened by a row |
| TraceRows.NextUnusedLane | pipeline-trace/pipeline-trace-svg.py:81 | a thread seen for the first time gets lane `len(__taskMap)`, the number of lanes opened before it |
| TraceRows.LaneIndexStable | pipeline-trace/pipeline-trace-svg.py:77-82 | once a thread has a lane, later rows never change its lane index |
| TraceRows.LanesInFirstSeenOrder | pipeline-trace/pipeline-trace-svg.py:77-82 | a thread whose first row comes earlier gets a strictly lower lane index |
| TraceRows.ColumnOrderStep | pipeline-trace/pipeline-trace-svg.py:67-72 | a row inserts each attribute value into its first-seen table only on first sight, at the end |
| TraceRows.RankStable | pipeline-trace/pipeline-trace-svg.py:67-74 | a value's rank in a first-seen table is fixed once the value has been seen |
| TraceRows.SegmentTotalStep | pipeline-trace/pipeline-trace-svg.py:84 | a row adds one segment to a set of lanes iff its thread is among them |
| TraceRows.EveryRowInOneLane | pipeline-trace/pipeline-trace-svg.py:95-103 | the lanes together hold exactly one segment per row |
| TraceRows.FailureMeansOverflow | pipeline-trace/pipeline-trace-svg.py:81 | a new thread finding every slot taken means the trace has more threads than slots |
| FirstSeen.Remember | pipeline-trace/pipeline-trace-svg.py:67-72 | insert-if-absent: the table only grows, by at most the one key, which lands at the end |
| FirstSeen.RememberDistinct | pipeline-trace/pipeline-trace-svg.py:77-78 | insert-if-absent never lists a key twice |
| FirstSeen.Order | pipeline-trace/pipeline-trace-svg.py:95-103 | the first-seen order lists each value of the input once, and only values of the input |
| FirstSeen.IndexOf | pipeline-trace/pipeline-trace-svg.py:111 | a listed key's position holds that key, and no earlier position does |
| FirstSeen.IndexOfAt | pipeline-trace/pipeline-trace-svg.py:111 | in a table without repeats, the key at position `i` is found at `i` |
| FirstSeen.Rank | pipeline-trace/pipeline-trace-svg.py:68 | `len(table) + 1` at insertion: a 1-based rank within the table pointing back at the key |
| FirstSeen.RankIdentifies | pipeline-trace/pipeline-trace-svg.py:67-72 | two keys of one table have the same rank iff they are the same key |
| FirstSeen.OrderOfPrefix | pipeline-trace/pipeline-trace-svg.py:95-103 | later input never reshuffles the order: the order of a prefix is a prefix of the order |
| FirstSeen.IndexOfPrefix | pipeline-trace/pipeline-trace-svg.py:77-82 | a key keeps its position in every extension of the table it was found in |
| FirstSeen.IndexOfAppended | pipeline-trace/pipeline-trace-svg.py:78-81 | a key appended to a table it was missing from sits at the old length |
| FirstSeen.NewKeyPosition | pipeline-trace/pipeline-trace-svg.py:81 | a value seen for the first time takes the position equal to the number of distinct values before it |
| FirstSeen.FirstAppearanceOrder | pipeline-trace/pipeline-trace-svg.py:77-82 | earlier first appearance ⇒ strictly smaller position |
| FirstSeen.DistinctCardinality | pipeline-trace/pipeline-trace-svg.py:81 | a table without repeats has as many entries as distinct keys |
| FirstSeen.OrderCardinality | pipeline-trace/pipeline-trace-svg.py:105-111 | the order has exactly one entry per distinct input value |
| PyDict.Dict.Len | pipeline-trace/pipeline-trace-svg.py:81 | `len(d)` is the length of the insertion order |
| PyDict.Dict.Put | pipeline-trace/pipeline-trace-svg.py:78-82 | `d[k] = v` maps `k` to `v`, keeps a known key's place and appends a new key, keeping the dict well formed |
| PyDict.SizeIsLength | pipeline-trace/pipeline-trace-svg.py:68 | a well-formed dict has one entry per listed key |
| PyDict.PutPut | pipeline-trace-svg.py:68-84 | assigning a key twice leaves the second value and the first insertion position |
| PyDict.Empty | pipeline-trace/pipeline-trace-svg.py:58 | `{}` is well formed and lists no key |
| IntStr.NatToString | pipeline-trace/pipeline-trace-svg.py:79 | the string is decimal digits without a leading zero, and read back as a decimal number it is `n` |
| IntStr.IntToString | pipeline-trace/pipeline-trace-svg.py:79 | `str(i)` starts with '-' iff `i` is negative; the digits, without a leading zero, of a non-negative `i` read back as `i`, those after the '-' as `-i` |
| IntStr.NatToStringInjective | pipeline-trace/pipeline-trace-svg.py:69 | different naturals have different decimal strings, because reading a string back gives its number |
| IntStr.IntToStringInjective | pipeline-trace/pipeline-trace-svg.py:69 | different processor ids give different `str(processor_id)` keys |
| Gantt.TaskSlot | pipeline-trace/pipeline-trace-svg.py:64 | lane `i`'s slot is `(3i + 2, 2)` |
| Gantt.SlotsDisjoint | pipeline-trace/pipeline-trace-svg.py:63-64 | a lower lane's band ends strictly below a higher lane's band |
| Gantt.Ticks | pipeline-trace/pipeline-trace-svg.py:111 | one tick per lane; tick `i` is the middle of lane `i`'s band, `3(i + 1)`, and lies inside it |
| Gantt.LabelsIdentify | pipeline-trace/pipeline-trace-svg.py:111 | two labels "thread id: " + `str(id)` are equal iff the ids are |
| Gantt.TickLabels | pipeline-trace/pipeline-trace-svg.py:111 | one label per lane, and two lanes carry the same label iff they have the same thread id |
| Gantt.XLimSpansTrace | pipeline-trace/pipeline-trace-svg.py:110 | with `walltime = end - start`, the x limit is `(0, end - start + 10)` |
| Gantt.SlotsWithinYLim | pipeline-trace/pipeline-trace-svg.py:109 | every one of the `threadNum` slots lies within the y limits `(0, 3·threadNum + 10)` |
| Gantt.Channel | pipeline-trace/pipeline-trace-svg.py:68 | the channel times `count + 1` is the rank, and it lies strictly inside (0, 1) iff `1 ≤ rank ≤ count` |
| Gantt.ChannelAt | pipeline-trace/pipeline-trace-svg.py:74 | a colour table maps each key to its 1-based first-seen rank over its count |
| Gantt.LaneColorsStep | pipeline-trace/pipeline-trace-svg.py:85 | a row appends its colour to its own thread's colour list and to no other |
| Gantt.LaneListsSameLength | pipeline-trace/pipeline-trace-svg.py:84-85 | every lane's segment list and colour list have the same length |
| Gantt.ExpectedTaskOther | pipeline-trace/pipeline-trace-svg.py:84-85 | a row leaves every other thread's lane unchanged |
| Gantt.ExpectedTaskKnown | pipeline-trace/pipeline-trace-svg.py:77-85 | a row of a thread with a lane keeps that lane's name and slot and appends one segment and one colour |
| Gantt.ExpectedTaskNew | pipeline-trace/pipeline-trace-svg.py:77-85 | a thread's first row opens its lane, named `str(thread_id)`, in the next unused slot, holding that row's segment and colour |
| Gantt.RowColorFinal | pipeline-trace/pipeline-trace-svg.py:67-74 | the colour a row got when it was laid out equals its colour under the final tables |
| Gantt.ColorMemoised | pipeline-trace/pipeline-trace-svg.py:67-74 | rows with the same processor name, processor id and stage type get the identical colour |
| Gantt.ChannelsIdentifyAttributes | pipeline-trace/pipeline-trace-svg.py:66-74 | two rows share the red, green or blue value iff they share the processor name, processor id or stage type |
| Gantt.ColorChannelsInside | pipeline-trace/pipeline-trace-svg.py:68-72 | when no attribute has more distinct values than the summary counted, every channel of every row lies strictly inside (0, 1) |
| Gantt.LanesDisjoint | pipeline-trace/pipeline-trace-svg.py:63-82 | the lanes of different threads occupy disjoint bands |
| Gantt.FigureShape | pipeline-trace/pipeline-trace-svg.py:105-111 | one bar, tick and label per distinct thread; x limit `(0, walltime + 10)`, y limit `(0, 3·threadNum + 10)`; every bar has the shape `BarShape` gives |
| Gantt.FigureLane | pipeline-trace/pipeline-trace-svg.py:105-111 | bar `i` holds thread `i`'s segments in row order, at least one, with as many colours; it sits in slot `i`, its tick lies inside its band, and its label is "thread id: " + `str(id)` |
| Gantt.PriorTask | pipeline-trace/pipeline-trace-svg.py:77-82 | the lane a row extends is the stored lane of a known thread, or a fresh lane with empty `x` and `color` lists |
| Gantt.PriorTaskShape | pipeline-trace/pipeline-trace-svg.py:77-82 | that lane is named `str(thread_id)`, sits in the slot of the thread's position in `__taskMap` after insertion, and holds as many colours as segments |
| Gantt.Extend | pipeline-trace/pipeline-trace-svg.py:84-85 | extending a lane keeps its name, slot, earlier segments and earlier colours, and adds the row's segment and colour at the end |
| Gantt.LaneOpen | pipeline-trace/pipeline-trace-svg.py:77-82 | after the lane of a thread is looked up or opened, it holds the thread's existing lane or a fresh one in the next unused slot |
| Gantt.LaneExtend | pipeline-trace/pipeline-trace-svg.py:84-85 | opening and then extending a lane is one store of the extended lane; it keeps every lane named after its thread, in its slot, with lists of equal length |
| Gantt.OtherLaneAfterRow | pipeline-trace/pipeline-trace-svg.py:95-103 | after a row is laid out, every other thread's stored lane is its expected lane |
| Gantt.OwnLaneAfterRow | pipeline-trace/pipeline-trace-svg.py:95-103 | after a row is laid out, its thread's stored lane is its expected lane |
| Gantt.LanesStep | pipeline-trace/pipeline-trace-svg.py:76-87 | storing the extended lane of row `i` turns the lanes of the first `i` rows into the lanes of the first `i + 1` |
| Gantt.LayoutStep | pipeline-trace/pipeline-trace-svg.py:95-103 | laying out row `i` on the layout of the first `i` rows gives the layout of the first `i + 1`, colour tables included |
| Gantt.FigureFromLanes | pipeline-trace/pipeline-trace-svg.py:105-111 | bars read off the lanes of the rows, with the limits, ticks and labels, make up the figure of the rows |
| Gantt.BarsFromLanes | pipeline-trace/pipeline-trace-svg.py:105-107 | bars read off the lanes in insertion order are the bars of the rows |
| Gantt.EmptyLayout | pipeline-trace/pipeline-trace-svg.py:57-59 | empty tables are the layout of no rows |
| Gantt.GanttGraph.constructor | pipeline-trace/pipeline-trace-svg.py:61-64 | one slot `(3i + 2, 2)` per summary thread, and no lane or colour yet |
| Gantt.GanttGraph.ChannelEntry | pipeline-trace/pipeline-trace-svg.py:67-68 | a key is inserted on first sight with the next rank; the value returned is its rank over the count, and the stored one when it was present |
| Gantt.GanttGraph.GetColor | pipeline-trace/pipeline-trace-svg.py:66-74 | each table grows by at most its one key; the colour is the three ranks over the counts, and an already-seen key returns its stored value |
| Gantt.GanttGraph.UpdateAx | pipeline-trace/pipeline-trace-svg.py:76-87 | fails with `IndexError` iff a new thread finds every slot taken, leaving the state unchanged; otherwise the row's lane gains its segment and colour, and nothing else changes |
| Gantt.GanttGraph.CollectBars | pipeline-trace/pipeline-trace-svg.py:105-107 | one bar per lane, in insertion order, carrying the lane's segments, slot and colours |
| Gantt.GanttGraph.Draw | pipeline-trace/pipeline-trace-svg.py:105-111 | drawing the lanes of all rows gives `FigureOf` the rows |
| Gantt.GanttGraph.LayOutRow | pipeline-trace/pipeline-trace-svg.py:95-103 | row `i` either extends the layout of the rows before it, or fails with `IndexError` at a row that overflows the slots |
| Gantt.GanttGraph.LayOutRows | pipeline-trace/pipeline-trace-svg.py:95-103 | either the state is the layout of all rows, or `IndexError` at some overflowing row with the layout of the rows before it |
| Gantt.GanttGraph.BuildGraph | pipeline-trace/pipeline-trace-svg.py:89-114 | succeeds iff the trace has at most `threadNum` distinct threads; then the figure is `FigureOf` the rows; otherwise `IndexError` at the first overflowing row |
| GanttEarly.TaskSlot | pipeline-trace-svg.py:61 | lane `i`'s slot is `(10i + 10, 9)` |
| GanttEarly.SlotsDisjoint | pipeline-trace-svg.py:60-61 | a lower lane's band ends strictly below a higher lane's band |
| GanttEarly.SlotWithinYLim | pipeline-trace-svg.py:90 | a slot lies within the y limits `(5, 10·threadNum + 10)` iff it is one of the `threadNum` slots |
| GanttEarly.GetColor | pipeline-trace-svg.py:63-64 | the colour is `(0.5, 0, 0)` |
| GanttEarly.GetColorConstant | pipeline-trace-svg.py:63-64 | the colour does not depend on the processor name |
| GanttEarly.ExpectedTaskOther | pipeline-trace-svg.py:75-84 | a row leaves every other thread's lane unchanged |
| GanttEarly.ExpectedTaskKnown | pipeline-trace-svg.py:66-84 | a row of a thread with a lane keeps that lane's name and slot and appends one segment |
| GanttEarly.ExpectedTaskNew | pipeline-trace-svg.py:66-84 | a thread's first row opens its lane, named `str(thread_id)`, in the next unused slot, holding that row's segment |
| GanttEarly.LanesDisjoint | pipeline-trace-svg.py:60-68 | the lanes of different threads occupy disjoint bands |
| GanttEarly.FigureShape | pipeline-trace-svg.py:86-91 | one bar per distinct thread; y limit `(5, 10·threadNum + 10)`, x limit `(0, walltime + 10)`; every bar as `BarShape` gives; every bar within the y limits when there are at most `threadNum` threads |
| GanttEarly.FigureLane | pipeline-trace-svg.py:86-88 | bar `i` holds thread `i`'s segments in row order, at least one; it sits in slot `i` and is drawn in 'tab:blue' |
| GanttEarly.XLimSpansTrace | pipeline-trace-svg.py:91 | with `walltime = end - start`, the x limit is `(0, end - start + 10)` |
| GanttEarly.PriorTask | pipeline-trace-svg.py:67-70 | `__updateAxis` returns the stored lane of a known thread, so repeated calls return the same lane, or a fresh lane with an empty `x` list |
| GanttEarly.PriorTaskShape | pipeline-trace-svg.py:67-68 | that lane is named `str(thread_id)` and sits in the slot of the thread's position in `__taskMap` after insertion |
| GanttEarly.Append | pipeline-trace-svg.py:84 | appending to a lane keeps its name, slot and earlier segments, and adds the row's segment at the end |
| GanttEarly.LaneOpen | pipeline-trace-svg.py:66-84 | `__updateAxis` returns the existing lane or a fresh one in the next unused slot; appending a segment to it is one store of the extended lane, and every lane stays named after its thread and in its slot |
| GanttEarly.LaneInserted | pipeline-trace-svg.py:66-70 | when a thread has no lane yet, `__updateAxis` stores its fresh lane under it; afterwards every lane is still named after its thread and sits in its own slot |
| GanttEarly.EmptyLanes | pipeline-trace-svg.py:55 | an empty `__taskMap` holds the lanes of no rows |
| GanttEarly.OtherLaneAfterRow | pipeline-trace-svg.py:75-84 | after a row is laid out, every other thread's stored lane is its expected lane |
| GanttEarly.OwnLaneAfterRow | pipeline-trace-svg.py:75-84 | after a row is laid out, its thread's stored lane is its expected lane |
| GanttEarly.LanesStep | pipeline-trace-svg.py:75-84 | appending row `i`'s segment turns the lanes of the first `i` rows into the lanes of the first `i + 1` |
| GanttEarly.BarsFromLanes | pipeline-trace-svg.py:86-88 | bars read off the lanes in insertion order are the bars of the rows |
| GanttEarly.GanttGraph.constructor | pipeline-trace-svg.py:57-61 | one slot `(10i + 10, 9)` per summary thread, and no lane yet |
| GanttEarly.GanttGraph.UpdateAxis | pipeline-trace-svg.py:66-70 | fails with `IndexError` iff a new thread finds every slot taken, leaving the state unchanged; otherwise returns the thread's existing lane, or stores and returns a fresh one in the next unused slot |
| GanttEarly.GanttGraph.LayOutRow | pipeline-trace-svg.py:75-84 | row `i` either extends the lanes of the rows before it, or fails with `IndexError` at a row that overflows the slots |
| GanttEarly.GanttGraph.LayOutRows | pipeline-trace-svg.py:75-84 | either the lanes are those of all rows, or `IndexError` at some overflowing row with the lanes of the rows before it |
| GanttEarly.GanttGraph.CollectBars | pipeline-trace-svg.py:86-88 | one 'tab:blue' bar per lane, in insertion order, carrying the lane's segments and slot |
| GanttEarly.GanttGraph.Draw | pipeline-trace-svg.py:86-91 | drawing the lanes of all rows gives `FigureOf` the rows |
| GanttEarly.GanttGraph.BuildGraph | pipeline-trace-svg.py:72-92 | succeeds iff the trace has at most `threadNum` distinct threads; then the figure is `FigureOf` the rows; otherwise `IndexError` at the first overflowing row |

## Left out

- Drawing is not modelled. This covers `plt.subplots`, `broken_barh`, figure sizing, `legend` and `savefig("gantt.svg")`. The model produces only the values handed to the plotting library: the bars (segments, slot, colours), the axis limits, and the ticks with their labels.
- `retrive_data` and the SQL text are not modelled; they are I/O through the ClickHouse client. The summary and the detail rows enter as a `PipelineTraceData` value. The rows may come in any order: the query's `ORDER BY start` adds nothing the layout relies on.
- The `qres.result_rows.count == 0` guards are not modelled. They compare a bound method with 0, so they never fire, and there is no "no data" path to model.
- `main` of both scripts (argument parsing, client connection, exit codes) and `opentelemetry-span-log/clickhouse-opentelemetry-trace.py` are not part of this model.
- `__taskAxis`, `__taskMap` and `__colorMap` are class attributes in both scripts, so two graphs in one process would share them. Each script builds one graph per process, and the model keeps this state in the fields of a fresh object. `BuildGraph` requires a freshly constructed object (`Unused`).
- Gantt.Channel: a channel is the exact fraction `rank / (count + 1)`. The floating-point rounding of `rank * (1.0 / (count + 1))` is not modelled.
- Gantt.GanttGraph.UpdateAx: the two appends to `x` and `color` become one store of the lane extended by both. They are equivalent because `__getColor` does not touch `__taskMap`.
- Gantt.GanttGraph.BuildGraph: the uncaught `IndexError` that ends the script is returned as `Err`. On failure the state is the layout of the rows before the failing row. Every earlier row was applied, and the failing lookup happens before any table is written.
- GanttEarly.GanttGraph.UpdateAxis: it returns the lane dict itself, and `buildGraph` appends to it in place. The model returns the lane as a value, and `LayOutRow` stores the extended lane back under the thread id. Aliasing is therefore not modelled.
- GanttEarly.GanttGraph.UpdateAxis: the processor name, processor id and stage type are accepted and ignored, as in the source. The early `__getColor` is never called by `buildGraph`, and it is modelled on its own.
- Python's dynamic typing is not modelled. Thread and processor ids are integers, and names and stage types are strings. The summary's distinct counts are natural numbers, as `countDistinct` gives.
