/**
  `json_to_table` and `json_to_hdf5`: the converter for a Nanometrics
  availability report. The report is an object whose `availability` member
  lists one entry per channel, each with an `id` and a list of `intervals`;
  `json_to_table` flattens it into a frame with one row per interval, and
  `json_to_hdf5` gives every distinct channel of the frame a group holding
  the end times of its intervals, the average latencies and the samples.
 */
module JsonToHdf5 {
  import opened PyValues
  import opened PyStrings
  import opened Frames
  import opened Hdf5
  import opened Timestamps

  /** The labels of the flattened frame, in the order the table dictionary
      lists them. */
  const TableColumns: seq<string> :=
    ["channel", "startTime", "endTime", "minLatency", "maxLatency", "avgLatency", "allPackets", "retxPackets"]

  /** One row of the flattened frame: the entry's `id` and the seven values
      unpacked from one of its intervals. */
  datatype Row = Row(channel: Value, startTime: Value, endTime: Value, minLatency: Value,
                     maxLatency: Value, avgLatency: Value, allPackets: Value, retxPackets: Value)

  /** The cell of `row` in column `k` of `TableColumns`. */
  function Cell(row: Row, k: nat): Value
    requires k < |TableColumns|
  {
    if k == 0 then row.channel
    else if k == 1 then row.startTime
    else if k == 2 then row.endTime
    else if k == 3 then row.minLatency
    else if k == 4 then row.maxLatency
    else if k == 5 then row.avgLatency
    else if k == 6 then row.allPackets
    else row.retxPackets
  }

  /** Column `k` of the rows. */
  function FieldColumn(rows: seq<Row>, k: nat): (col: seq<Value>)
    requires k < |TableColumns|
    ensures |col| == |rows|
    ensures forall i :: 0 <= i < |rows| ==> col[i] == Cell(rows[i], k)
  {
    seq(|rows|, i requires 0 <= i < |rows| => Cell(rows[i], k))
  }

  /** `pd.DataFrame(df_dict)`: the eight lists of the table dictionary, of
      equal length, as columns under their keys. */
  function DataFrame(dfDict: seq<seq<Value>>): (t: Table)
    requires |dfDict| == |TableColumns|
    requires forall k :: 0 <= k < |TableColumns| ==> |dfDict[k]| == |dfDict[0]|
    ensures t.names == TableColumns && t.columns == dfDict && Height(t) == |dfDict[0]|
  {
    Frame(TableColumns, dfDict)
  }

  /** The eight columns of `rows`, in key order. */
  function Columns(rows: seq<Row>): (cs: seq<seq<Value>>)
    ensures |cs| == |TableColumns|
    ensures forall k :: 0 <= k < |TableColumns| ==> cs[k] == FieldColumn(rows, k)
  {
    seq(|TableColumns|, k requires 0 <= k < |TableColumns| => FieldColumn(rows, k))
  }

  /** The frame of `rows`: one row per element, the cells under the eight
      labels. */
  function ToFrame(rows: seq<Row>): (t: Table)
    ensures t.names == TableColumns && |t.columns| == |TableColumns| && Height(t) == |rows|
    ensures forall k :: 0 <= k < |TableColumns| ==> t.columns[k] == FieldColumn(rows, k)
  {
    DataFrame(Columns(rows))
  }

  /** `init_dataframe`: a frame with the eight labels of the flattened
      table and no rows. */
  function InitDataframe(): (t: Table)
    ensures t.names == TableColumns && Height(t) == 0
    ensures forall k :: 0 <= k < |TableColumns| ==> t.columns[k] == []
  {
    Frame(TableColumns, [[], [], [], [], [], [], [], []])
  }

  /** `v[outer][inner]`. */
  function Nested(v: Value, outer: string, inner: string): (r: Result<Value>)
    ensures r.Ok? <==> Sub(v, outer).Ok? && Sub(Sub(v, outer).value, inner).Ok?
    ensures r.Ok? ==> r == Sub(Sub(v, outer).value, inner)
    ensures Sub(v, outer).Err? ==> r == Sub(v, outer)
  {
    var o :- Sub(v, outer);
    Sub(o, inner)
  }

  /** The interval holds every value a row needs: it is a dictionary with
      the two times, a `latency` dictionary with the minimum, maximum and
      average, and a `retx` dictionary with both packet counts. */
  predicate IntervalReady(interval: Value)
  {
    && Sub(interval, "startTime").Ok? && Sub(interval, "endTime").Ok?
    && Nested(interval, "latency", "minimum").Ok? && Nested(interval, "latency", "maximum").Ok?
    && Nested(interval, "latency", "average").Ok?
    && Nested(interval, "retx", "allPackets").Ok? && Nested(interval, "retx", "retxPackets").Ok?
  }

  /** The eight appends of the inner loop body, for entry `channel`: the
      values are looked up in the order the body reads them, so a missing
      key or a value that is not a dictionary raises on the first such
      lookup. */
  function IntervalRow(channel: Value, interval: Value): (r: Result<Row>)
    ensures r.Ok? <==> IntervalReady(interval)
    ensures r.Ok? ==> r.value == Row(channel, Sub(interval, "startTime").value, Sub(interval, "endTime").value,
      Nested(interval, "latency", "minimum").value, Nested(interval, "latency", "maximum").value,
      Nested(interval, "latency", "average").value,
      Nested(interval, "retx", "allPackets").value, Nested(interval, "retx", "retxPackets").value)
    ensures !interval.Dict? ==> r == Err(TypeError)
    ensures interval.Dict? && "startTime" !in Keys(interval.fields) ==> r == Err(KeyError("startTime"))
  {
    var startTime :- Sub(interval, "startTime");
    var endTime :- Sub(interval, "endTime");
    var minLatency :- Nested(interval, "latency", "minimum");
    var maxLatency :- Nested(interval, "latency", "maximum");
    var avgLatency :- Nested(interval, "latency", "average");
    var allPackets :- Nested(interval, "retx", "allPackets");
    var retxPackets :- Nested(interval, "retx", "retxPackets");
    Ok(Row(channel, startTime, endTime, minLatency, maxLatency, avgLatency, allPackets, retxPackets))
  }

  /** The rows of one entry: its `id`, then one row per element of its
      `intervals`, in order. */
  function EntryRows(entry: Value): (r: Result<seq<Row>>)
  {
    var channel :- Sub(entry, "id");
    var intervals :- Sub(entry, "intervals");
    var items :- Iter(intervals);
    IntervalsRows(channel, items)
  }

  /** The rows of the entries, an entry's rows after those of the entries
      before it; the first entry that raises aborts the whole. */
  function EntriesRows(entries: seq<Value>): (r: Result<seq<Row>>)
    decreases |entries|
  {
    if entries == [] then Ok([])
    else
      var before :- EntriesRows(entries[..|entries| - 1]);
      var last :- EntryRows(entries[|entries| - 1]);
      Ok(before + last)
  }

  /** The rows `json_to_table` collects from a loaded report; a report
      that is not an object, or has no `availability` member, raises before
      any row is read. */
  function ReportRows(doc: Value): (r: Result<seq<Row>>)
    ensures !doc.Dict? ==> r == Err(TypeError)
    ensures doc.Dict? && "availability" !in Keys(doc.fields) ==> r == Err(KeyError("availability"))
  {
    var entries :- Sub(doc, "availability");
    var items :- Iter(entries);
    EntriesRows(items)
  }

  /** `json_to_table`: the flattened frame, or the exception raised. */
  function JsonTable(doc: Value): (r: Result<Table>)
    ensures r.Ok? <==> ReportRows(doc).Ok?
    ensures r.Ok? ==> r.value == ToFrame(ReportRows(doc).value)
    ensures r.Err? ==> r.error == ReportRows(doc).error
  {
    var rows :- ReportRows(doc);
    Ok(ToFrame(rows))
  }

  /** The eight lists of the table dictionary hold, in key order, the
      columns of `rows`. */
  predicate Collected(dfDict: seq<seq<Value>>, rows: seq<Row>)
  {
    |dfDict| == |TableColumns| && forall k :: 0 <= k < |TableColumns| ==> dfDict[k] == FieldColumn(rows, k)
  }

  /** The appends of one inner loop pass: `row`'s cell at the end of each
      list. */
  function AppendRow(dfDict: seq<seq<Value>>, row: Row): (d: seq<seq<Value>>)
    requires |dfDict| == |TableColumns|
    ensures |d| == |TableColumns|
    ensures forall k :: 0 <= k < |TableColumns| ==> d[k] == dfDict[k] + [Cell(row, k)]
  {
    seq(|TableColumns|, k requires 0 <= k < |TableColumns| => dfDict[k] + [Cell(row, k)])
  }

  /** Appending a row's cells keeps the lists the columns of the rows. */
  lemma CollectedSnoc(dfDict: seq<seq<Value>>, rows: seq<Row>, row: Row)
    requires Collected(dfDict, rows)
    ensures Collected(AppendRow(dfDict, row), rows + [row])
  {
    forall k | 0 <= k < |TableColumns|
      ensures AppendRow(dfDict, row)[k] == FieldColumn(rows + [row], k)
    {
      var a, b := FieldColumn(rows, k) + [Cell(row, k)], FieldColumn(rows + [row], k);
      forall i | 0 <= i < |a|
        ensures a[i] == b[i]
      {
        if i < |rows| {
          assert (rows + [row])[i] == rows[i];
        }
      }
    }
  }

  /** The rows of a list of intervals of entry `channel`. */
  function IntervalsRows(channel: Value, items: seq<Value>): (r: Result<seq<Row>>)
  {
    MapList(items, (v: Value) => IntervalRow(channel, v))
  }

  /** `json_to_table`, statement by statement: `availability` is read and
      the loop over its entries, with `df_index` counting the rows, fills
      the table dictionary, kept as its eight lists in key order. */
  method JsonToTable(doc: Value) returns (r: Result<Table>)
    ensures r == JsonTable(doc)
  {
    var availability := Sub(doc, "availability");
    if availability.Err? {
      return Err(availability.error);
    }
    var entries := Iter(availability.value);
    if entries.Err? {
      return Err(entries.error);
    }
    r := CollectEntries(entries.value);
  }

  /** The outer loop of `json_to_table` over the entries `es`, and the frame
      built from the table dictionary it leaves. */
  method CollectEntries(es: seq<Value>) returns (r: Result<Table>)
    ensures EntriesRows(es).Ok? ==> r == Ok(ToFrame(EntriesRows(es).value))
    ensures EntriesRows(es).Err? ==> r == Err(EntriesRows(es).error)
  {
    var dfIndex := 0;
    var dfDict: seq<seq<Value>> := [[], [], [], [], [], [], [], []];
    ghost var rows: seq<Row> := [];
    var i := 0;
    while i < |es|
      invariant 0 <= i <= |es|
      invariant EntriesRows(es[..i]) == Ok(rows)
      invariant Counted(dfDict, dfIndex, rows)
    {
      var o;
      ghost var added;
      o, dfDict, dfIndex, added := CollectEntry(es[i], dfDict, dfIndex, rows);
      if o.Fail? {
        EntriesStop(es, i);
        return Err(o.error);
      }
      assert es[..i + 1][..i] == es[..i];
      rows := rows + added;
      i := i + 1;
    }
    assert es[..i] == es;
    assert dfDict == Columns(rows);
    r := Ok(DataFrame(dfDict));
  }

  /** One pass of the outer loop: the entry's `id` and `intervals` are
      read and the inner loop appends one row per interval. */
  method CollectEntry(entry: Value, dfDict: seq<seq<Value>>, dfIndex: nat, ghost rows: seq<Row>)
    returns (o: Outcome, dfDict': seq<seq<Value>>, dfIndex': nat, ghost added: seq<Row>)
    requires Counted(dfDict, dfIndex, rows)
    ensures EntryRows(entry).Err? <==> o.Fail?
    ensures o.Fail? ==> o.error == EntryRows(entry).error
    ensures o.Pass? ==> EntryRows(entry) == Ok(added) && Counted(dfDict', dfIndex', rows + added)
  {
    dfDict', dfIndex', added := dfDict, dfIndex, [];
    var channel := Sub(entry, "id");
    if channel.Err? {
      return Fail(channel.error), dfDict', dfIndex', added;
    }
    var intervals := Sub(entry, "intervals");
    if intervals.Err? {
      return Fail(intervals.error), dfDict', dfIndex', added;
    }
    var items := Iter(intervals.value);
    if items.Err? {
      return Fail(items.error), dfDict', dfIndex', added;
    }
    o, dfDict', dfIndex', added := CollectIntervals(channel.value, items.value, dfDict, dfIndex, rows);
  }

  /** The inner loop: one row per interval, each column's list appended to
      and `df_index` incremented. */
  method CollectIntervals(channel: Value, items: seq<Value>, dfDict: seq<seq<Value>>, dfIndex: nat, ghost rows: seq<Row>)
    returns (o: Outcome, dfDict': seq<seq<Value>>, dfIndex': nat, ghost added: seq<Row>)
    requires Counted(dfDict, dfIndex, rows)
    ensures IntervalsRows(channel, items).Err? <==> o.Fail?
    ensures o.Fail? ==> o.error == IntervalsRows(channel, items).error
    ensures o.Pass? ==> IntervalsRows(channel, items) == Ok(added) && Counted(dfDict', dfIndex', rows + added)
  {
    dfDict', dfIndex', added := dfDict, dfIndex, [];
    assert rows + added == rows;
    var j := 0;
    while j < |items|
      invariant 0 <= j <= |items|
      invariant IntervalsRows(channel, items[..j]) == Ok(added)
      invariant Counted(dfDict', dfIndex', rows + added)
    {
      var row := IntervalRow(channel, items[j]);
      IntervalsSnoc(channel, items, j);
      if row.Err? {
        return Fail(row.error), dfDict', dfIndex', added;
      }
      CountedSnoc(dfDict', dfIndex', rows, added, row.value);
      dfDict' := AppendRow(dfDict', row.value);
      dfIndex' := dfIndex' + 1;
      added := added + [row.value];
      j := j + 1;
    }
    assert items[..j] == items;
    o := Pass;
  }

  /** The lists hold the columns of `rows` and `df_index` counts them. */
  predicate Counted(dfDict: seq<seq<Value>>, dfIndex: nat, rows: seq<Row>)
  {
    Collected(dfDict, rows) && dfIndex == |rows|
  }

  /** One inner loop pass keeps the lists and the count in step with the
      rows. */
  lemma CountedSnoc(dfDict: seq<seq<Value>>, dfIndex: nat, rows: seq<Row>, added: seq<Row>, row: Row)
    requires Counted(dfDict, dfIndex, rows + added)
    ensures Counted(AppendRow(dfDict, row), dfIndex + 1, rows + (added + [row]))
  {
    assert rows + (added + [row]) == rows + added + [row];
    CollectedSnoc(dfDict, rows + added, row);
  }

  /** The rows of one more interval, or the exception it raises. */
  lemma IntervalsSnoc(channel: Value, items: seq<Value>, j: nat)
    requires j < |items| && IntervalsRows(channel, items[..j]).Ok?
    ensures IntervalRow(channel, items[j]).Ok? ==>
      IntervalsRows(channel, items[..j + 1]) == Ok(IntervalsRows(channel, items[..j]).value + [IntervalRow(channel, items[j]).value])
    ensures IntervalRow(channel, items[j]).Err? ==> IntervalsRows(channel, items) == Err(IntervalRow(channel, items[j]).error)
  {
    MapListSnoc(items, j, (v: Value) => IntervalRow(channel, v));
  }

  /** An entry that raises aborts the whole table with its exception. */
  lemma EntriesStop(es: seq<Value>, i: nat)
    requires i < |es| && EntriesRows(es[..i]).Ok? && EntryRows(es[i]).Err?
    ensures EntriesRows(es) == Err(EntryRows(es[i]).error)
  {
    assert es[..i + 1][..i] == es[..i];
    EntriesPrefixErr(es, i + 1);
  }

  /** A prefix of the entries that raises makes the whole raise the same. */
  lemma {:induction false} EntriesPrefixErr(es: seq<Value>, n: nat)
    requires n <= |es| && EntriesRows(es[..n]).Err?
    ensures EntriesRows(es) == EntriesRows(es[..n])
    decreases |es| - n
  {
    if n == |es| {
      assert es[..n] == es;
    } else {
      assert es[..n + 1][..n] == es[..n];
      EntriesPrefixErr(es, n + 1);
    }
  }

  /** The entry has an `id` and an iterable `intervals` whose every element
      holds the values a row needs. */
  predicate EntryReady(entry: Value)
  {
    && Sub(entry, "id").Ok? && Sub(entry, "intervals").Ok? && Iter(Sub(entry, "intervals").value).Ok?
    && var items := Iter(Sub(entry, "intervals").value).value;
       forall j :: 0 <= j < |items| ==> IntervalReady(items[j])
  }

  /** The report has an iterable `availability` whose every entry is ready. */
  predicate ReportReady(doc: Value)
  {
    && Sub(doc, "availability").Ok? && Iter(Sub(doc, "availability").value).Ok?
    && var entries := Iter(Sub(doc, "availability").value).value;
       forall i :: 0 <= i < |entries| ==> EntryReady(entries[i])
  }

  /** Interval `j` of an entry, as `for item in entry['intervals']` visits it. */
  function IntervalAt(entry: Value, j: nat): Value
    requires j < RowCount(entry)
  {
    Iter(Sub(entry, "intervals").value).value[j]
  }

  /** The number of intervals of an entry, none when they cannot be read. */
  function RowCount(entry: Value): nat
  {
    if Sub(entry, "intervals").Ok? && Iter(Sub(entry, "intervals").value).Ok?
    then |Iter(Sub(entry, "intervals").value).value| else 0
  }

  /** The intervals give rows exactly when every one holds the values a
      row needs, and then one row per interval, in order. */
  lemma IntervalsRowsSpec(channel: Value, items: seq<Value>)
    ensures IntervalsRows(channel, items).Ok? <==> forall j :: 0 <= j < |items| ==> IntervalReady(items[j])
    ensures IntervalsRows(channel, items).Ok? ==>
      forall j :: 0 <= j < |items| ==> IntervalsRows(channel, items).value[j] == IntervalRow(channel, items[j]).value
  {
    MapListSpec(items, (v: Value) => IntervalRow(channel, v));
  }

  /** An entry gives rows exactly when it is ready, and then one row per
      interval, in order, each holding the entry's `id` and the interval's
      values. */
  lemma EntryRowsSpec(entry: Value)
    ensures EntryRows(entry).Ok? <==> EntryReady(entry)
    ensures EntryRows(entry).Ok? ==> |EntryRows(entry).value| == RowCount(entry)
    ensures EntryRows(entry).Ok? ==> forall j :: 0 <= j < RowCount(entry) ==>
      EntryRows(entry).value[j] == IntervalRow(Sub(entry, "id").value, Iter(Sub(entry, "intervals").value).value[j]).value
  {
    if Sub(entry, "id").Ok? && Sub(entry, "intervals").Ok? && Iter(Sub(entry, "intervals").value).Ok? {
      IntervalsRowsSpec(Sub(entry, "id").value, Iter(Sub(entry, "intervals").value).value);
    }
  }

  /** The entries give rows exactly when each entry gives its rows. */
  lemma {:induction false} EntriesRowsOk(es: seq<Value>)
    ensures EntriesRows(es).Ok? <==> forall i :: 0 <= i < |es| ==> EntryRows(es[i]).Ok?
    decreases |es|
  {
    if es != [] {
      var n := |es| - 1;
      var pre := es[..n];
      EntriesRowsOk(pre);
      assert EntriesRows(es).Ok? <==> EntriesRows(pre).Ok? && EntryRows(es[n]).Ok?;
      if forall i :: 0 <= i < |es| ==> EntryRows(es[i]).Ok? {
        assert forall i :: 0 <= i < n ==> EntryRows(pre[i]).Ok? by {
          assert forall i :: 0 <= i < n ==> pre[i] == es[i];
        }
      }
      if EntriesRows(es).Ok? {
        forall i | 0 <= i < |es|
          ensures EntryRows(es[i]).Ok?
        {
          assert EntriesRows(pre).Ok? && EntryRows(es[n]).Ok?;
          if i < n {
            assert EntryRows(pre[i]).Ok?;
            assert es[i] == pre[i];
            assert EntryRows(es[i]).Ok?;
          } else {
            assert i == n;
            assert EntryRows(es[i]).Ok?;
          }
        }
      }
    }
  }

  /** The rows an entry gives, none when it raises. */
  function RowsOf(entry: Value): seq<Row>
  {
    if EntryRows(entry).Ok? then EntryRows(entry).value else []
  }

  /** The rows of each entry, entry by entry. */
  function Chunks(es: seq<Value>): (cs: seq<seq<Row>>)
    ensures |cs| == |es|
    ensures forall i :: 0 <= i < |es| ==> cs[i] == RowsOf(es[i])
  {
    seq(|es|, i requires 0 <= i < |es| => RowsOf(es[i]))
  }

  /** The chunks, one after the other. */
  function Concat(cs: seq<seq<Row>>): seq<Row>
  {
    if cs == [] then [] else Concat(cs[..|cs| - 1]) + cs[|cs| - 1]
  }

  /** Where chunk `i` starts in the concatenation. */
  function Start(cs: seq<seq<Row>>, i: nat): nat
    requires i <= |cs|
  {
    if i == 0 then 0 else Start(cs, i - 1) + |cs[i - 1]|
  }

  /** The rows of the entries are their chunks one after the other: document
      order. */
  lemma {:induction false} EntriesRowsConcat(es: seq<Value>)
    requires EntriesRows(es).Ok?
    ensures EntriesRows(es).value == Concat(Chunks(es))
    decreases |es|
  {
    if es != [] {
      var n := |es| - 1;
      var pre := es[..n];
      EntriesRowsConcat(pre);
      ChunksSnoc(es);
      ConcatSnoc(Chunks(pre), RowsOf(es[n]));
    }
  }

  /** One more entry adds its rows as one more chunk. */
  lemma ChunksSnoc(es: seq<Value>)
    requires es != []
    ensures Chunks(es) == Chunks(es[..|es| - 1]) + [RowsOf(es[|es| - 1])]
  {
    var n := |es| - 1;
    var pre := es[..n];
    var a, p := Chunks(es), Chunks(pre);
    forall i | 0 <= i < n
      ensures a[i] == p[i]
    {
      assert pre[i] == es[i];
      assert a[i] == RowsOf(es[i]) && p[i] == RowsOf(pre[i]);
    }
    SnocEqual(a, p, RowsOf(es[n]));
  }

  /** A sequence that agrees with `p` and then ends with `x` is `p + [x]`. */
  lemma SnocEqual<T>(a: seq<T>, p: seq<T>, x: T)
    requires |a| == |p| + 1 && a[|p|] == x
    requires forall i :: 0 <= i < |p| ==> a[i] == p[i]
    ensures a == p + [x]
  {
  }

  /** One more chunk at the end. */
  lemma ConcatSnoc(cs: seq<seq<Row>>, c: seq<Row>)
    ensures Concat(cs + [c]) == Concat(cs) + c
  {
    assert (cs + [c])[..|cs|] == cs;
  }

  /** Chunk `i` sits in the concatenation at its start, right after the
      chunks before it. */
  lemma {:induction false} ConcatSlice(cs: seq<seq<Row>>, i: nat)
    requires i < |cs|
    ensures |Concat(cs)| == Start(cs, |cs|)
    ensures Start(cs, i + 1) <= |Concat(cs)|
    ensures Concat(cs)[Start(cs, i)..Start(cs, i + 1)] == cs[i]
    decreases |cs|
  {
    var n := |cs| - 1;
    var pre := cs[..n];
    StartPrefix(cs, n);
    if n > 0 {
      ConcatLength(pre);
    }
    if i < n {
      ConcatSlice(pre, i);
      assert Concat(cs) == Concat(pre) + cs[n];
      assert Concat(cs)[Start(cs, i)..Start(cs, i + 1)] == Concat(pre)[Start(pre, i)..Start(pre, i + 1)];
    }
  }

  /** The concatenation is as long as all the chunks. */
  lemma {:induction false} ConcatLength(cs: seq<seq<Row>>)
    ensures |Concat(cs)| == Start(cs, |cs|)
    decreases |cs|
  {
    if cs != [] {
      var n := |cs| - 1;
      ConcatLength(cs[..n]);
      StartPrefix(cs, n);
    }
  }

  /** The starts within a prefix of the chunks are those of the whole. */
  lemma {:induction false} StartPrefix(cs: seq<seq<Row>>, n: nat)
    requires n <= |cs|
    ensures forall i :: 0 <= i <= n ==> Start(cs[..n], i) == Start(cs, i)
    decreases n
  {
    if n > 0 {
      StartPrefix(cs, n - 1);
      forall i | 0 <= i <= n
        ensures Start(cs[..n], i) == Start(cs, i)
      {
        StartStep(cs, n, i);
      }
    }
  }

  lemma {:induction false} StartStep(cs: seq<seq<Row>>, n: nat, i: nat)
    requires i <= n <= |cs|
    ensures Start(cs[..n], i) == Start(cs, i)
    decreases i
  {
    if i > 0 {
      StartStep(cs, n, i - 1);
      assert cs[..n][i - 1] == cs[i - 1];
    }
  }

  /** The report gives a table exactly when it is ready. */
  lemma ReportRowsSpec(doc: Value)
    ensures ReportRows(doc).Ok? <==> ReportReady(doc)
  {
    if Sub(doc, "availability").Ok? && Iter(Sub(doc, "availability").value).Ok? {
      var entries := Iter(Sub(doc, "availability").value).value;
      EntriesRowsOk(entries);
      forall i | 0 <= i < |entries|
        ensures EntryRows(entries[i]).Ok? <==> EntryReady(entries[i])
      {
        EntryRowsSpec(entries[i]);
      }
    }
  }

  /** Column `k` of the frame of `rows` is found under its label. */
  lemma FrameColumn(rows: seq<Row>, k: nat)
    requires k < |TableColumns|
    ensures Column(ToFrame(rows), TableColumns[k]) == Ok(FieldColumn(rows, k))
  {
    var t := ToFrame(rows);
    var c := Column(t, TableColumns[k]);
    var i :| 0 <= i < |t.names| && t.names[i] == TableColumns[k] && t.columns[i] == c.value;
    assert i == k;
  }

  /** The frame has the eight labels only: no `sample rate`, `samples`,
      `timestamp` or `latency` column. */
  lemma FrameLabels(rows: seq<Row>)
    ensures !HasColumn(ToFrame(rows), "sample rate") && !HasColumn(ToFrame(rows), "samples")
    ensures !HasColumn(ToFrame(rows), "timestamp") && !HasColumn(ToFrame(rows), "latency")
  {
    assert ToFrame(rows).names == TableColumns;
  }

  /** Row `j` of entry `i` of the entries `es` of a report: the frame
      holds, at the row after the intervals of the entries before `i` and
      the first `j` intervals of `i`, the entry's `id` as its channel and
      the interval's end time and average latency. */
  lemma TableRow(es: seq<Value>, i: nat, j: nat)
    requires EntriesRows(es).Ok? && i < |es| && j < RowCount(es[i])
    ensures Sub(es[i], "id").Ok? && Sub(es[i], "intervals").Ok? && Iter(Sub(es[i], "intervals").value).Ok?
    ensures var t, k := ToFrame(EntriesRows(es).value), Start(Chunks(es), i) + j;
      var item := IntervalAt(es[i], j);
      && k < Height(t) && IntervalReady(item)
      && Column(t, "channel").value[k] == Sub(es[i], "id").value
      && Column(t, "endTime").value[k] == Sub(item, "endTime").value
      && Column(t, "avgLatency").value[k] == Nested(item, "latency", "average").value
  {
    EntryIntervalRow(es, i, j);
    FrameCells(EntriesRows(es).value, Start(Chunks(es), i) + j);
  }

  /** Row `j` of entry `i` among the rows of the entries. */
  lemma EntryIntervalRow(es: seq<Value>, i: nat, j: nat)
    requires EntriesRows(es).Ok? && i < |es| && j < RowCount(es[i])
    ensures Sub(es[i], "id").Ok? && Sub(es[i], "intervals").Ok? && Iter(Sub(es[i], "intervals").value).Ok?
    ensures var k, item := Start(Chunks(es), i) + j, Iter(Sub(es[i], "intervals").value).value[j];
      && k < |EntriesRows(es).value| && IntervalReady(item)
      && EntriesRows(es).value[k] == IntervalRow(Sub(es[i], "id").value, item).value
  {
    var cs := Chunks(es);
    assert EntryRows(es[i]).Ok? by {
      EntriesRowsOk(es);
    }
    EntryRowAt(es[i], j);
    assert cs[i] == RowsOf(es[i]);
    EntriesRowsConcat(es);
    ConcatAt(cs, i, j);
  }

  /** Row `j` of an entry that gives rows is the row of its `j`-th interval. */
  lemma EntryRowAt(entry: Value, j: nat)
    requires EntryRows(entry).Ok? && j < RowCount(entry)
    ensures Sub(entry, "id").Ok? && Sub(entry, "intervals").Ok? && Iter(Sub(entry, "intervals").value).Ok?
    ensures var item := Iter(Sub(entry, "intervals").value).value[j];
      && IntervalReady(item) && j < |RowsOf(entry)|
      && RowsOf(entry)[j] == IntervalRow(Sub(entry, "id").value, item).value
  {
    EntryRowsSpec(entry);
    IntervalsRowsSpec(Sub(entry, "id").value, Iter(Sub(entry, "intervals").value).value);
  }

  /** Row `j` of chunk `i` in the concatenation. */
  lemma ConcatAt(cs: seq<seq<Row>>, i: nat, j: nat)
    requires i < |cs| && j < |cs[i]|
    ensures Start(cs, i) + j < |Concat(cs)| && Concat(cs)[Start(cs, i) + j] == cs[i][j]
  {
    ConcatSlice(cs, i);
    assert Concat(cs)[Start(cs, i)..Start(cs, i + 1)][j] == cs[i][j];
  }

  /** The cells of row `k` of the frame of `rows` are those of `rows[k]`. */
  lemma FrameCells(rows: seq<Row>, k: nat)
    requires k < |rows|
    ensures Column(ToFrame(rows), "channel").value[k] == rows[k].channel
    ensures Column(ToFrame(rows), "endTime").value[k] == rows[k].endTime
    ensures Column(ToFrame(rows), "avgLatency").value[k] == rows[k].avgLatency
  {
    FrameColumn(rows, 0);
    FrameColumn(rows, 2);
    FrameColumn(rows, 5);
  }

  /** A report without intervals gives the frame `init_dataframe` builds:
      the eight labels and no rows. */
  lemma NoRowsFrame()
    ensures ToFrame([]) == InitDataframe()
  {
    assert Columns([]) == [[], [], [], [], [], [], [], []];
  }

  /** An entry whose `intervals` list is empty adds no row to the table. */
  lemma EmptyEntry(es: seq<Value>, entry: Value)
    requires Sub(entry, "id").Ok? && Sub(entry, "intervals") == Ok(List([]))
    ensures EntriesRows(es + [entry]) == EntriesRows(es)
  {
    assert (es + [entry])[..|es|] == es;
    assert EntryRows(entry) == Ok([]);
    if EntriesRows(es).Ok? {
      assert EntriesRows(es).value + [] == EntriesRows(es).value;
    }
  }

  /** A report with one entry `id` holding one interval. */
  function OneIntervalReport(id: string, interval: Value): Value
  {
    Dict([("availability", List([Dict([("id", Str(id)), ("intervals", List([interval]))])]))])
  }

  /** The table of a one-interval report has one row, whose channel is the
      entry's `id` and whose average latency is the interval's. */
  lemma OneIntervalTable(id: string, interval: Value)
    requires IntervalReady(interval)
    ensures JsonTable(OneIntervalReport(id, interval)).Ok?
    ensures var t := JsonTable(OneIntervalReport(id, interval)).value;
      && Column(t, "channel") == Ok([Str(id)])
      && Column(t, "avgLatency") == Ok([Nested(interval, "latency", "average").value])
  {
    OneIntervalRows(id, interval);
    var row := IntervalRow(Str(id), interval).value;
    assert JsonTable(OneIntervalReport(id, interval)) == Ok(ToFrame([row]));
    SingleRowColumns(row);
  }

  /** The frame of one row holds that row's channel and average latency. */
  lemma SingleRowColumns(row: Row)
    ensures Column(ToFrame([row]), "channel") == Ok([row.channel])
    ensures Column(ToFrame([row]), "avgLatency") == Ok([row.avgLatency])
  {
    FrameColumn([row], 0);
    FrameColumn([row], 5);
    assert FieldColumn([row], 0) == [row.channel];
    assert FieldColumn([row], 5) == [row.avgLatency];
  }

  /** The rows of a one-interval report: the interval's row. */
  lemma OneIntervalRows(id: string, interval: Value)
    requires IntervalReady(interval)
    ensures ReportRows(OneIntervalReport(id, interval)) == Ok([IntervalRow(Str(id), interval).value])
  {
    var entry := Dict([("id", Str(id)), ("intervals", List([interval]))]);
    OneIntervalEntry(id, interval);
    var row := IntervalRow(Str(id), interval).value;
    var doc := OneIntervalReport(id, interval);
    assert Sub(doc, "availability") == Ok(List([entry]));
    assert [entry][..0] == [];
    assert EntriesRows([entry]) == Ok([] + [row]);
    assert [] + [row] == [row];
  }

  /** The one entry of a one-interval report gives the interval's row. */
  lemma OneIntervalEntry(id: string, interval: Value)
    requires IntervalReady(interval)
    ensures EntryRows(Dict([("id", Str(id)), ("intervals", List([interval]))])) == Ok([IntervalRow(Str(id), interval).value])
  {
    var fs := [("id", Str(id)), ("intervals", List([interval]))];
    EntryFields(fs, Str(id), [interval]);
    EntryRowsRead(Dict(fs), Str(id), [interval]);
    MapListOne(interval, (v: Value) => IntervalRow(Str(id), v));
  }

  /** The members of an entry written as `id` then `intervals`. */
  lemma EntryFields(fs: seq<(string, Value)>, channel: Value, items: seq<Value>)
    requires |fs| == 2 && fs[0] == ("id", channel) && fs[1] == ("intervals", List(items))
    ensures Sub(Dict(fs), "id") == Ok(channel) && Sub(Dict(fs), "intervals") == Ok(List(items))
  {
    assert "id"[0] == 'i' && "intervals"[1] == 'n';
    assert Lookup(fs[1..], "intervals") == Ok(List(items));
  }

  /** An entry whose `id` is `channel` and whose `intervals` is the list
      `items` gives the rows of those intervals. */
  lemma EntryRowsRead(entry: Value, channel: Value, items: seq<Value>)
    requires Sub(entry, "id") == Ok(channel) && Sub(entry, "intervals") == Ok(List(items))
    ensures EntryRows(entry) == IntervalsRows(channel, items)
  {
  }

  // The archive writer `json_to_hdf5`.

  /** The `sample rate` attribute's value: `df['sample rate'][0]`, the
      first cell of the WHOLE frame's column, when the frame has one, and
      the text `100` otherwise; an empty column raises KeyError for the
      label 0. */
  function JsonRate(df: Table): (r: Result<Value>)
    ensures !HasColumn(df, "sample rate") ==> r == Ok(Str("100"))
    ensures HasColumn(df, "sample rate") ==> (r.Ok? <==> Height(df) > 0)
    ensures HasColumn(df, "sample rate") && r.Ok? ==> r.value == Column(df, "sample rate").value[0]
    ensures r.Err? ==> r.error == KeyError("0")
  {
    if HasColumn(df, "sample rate") then FirstCell(Column(df, "sample rate").value) else Ok(Str("100"))
  }

  /** The samples dataset's data: the WHOLE frame's `samples` column when
      it has one, and nothing otherwise. */
  function JsonSamplesData(df: Table): (data: seq<Value>)
    ensures HasColumn(df, "samples") ==> data == Column(df, "samples").value
    ensures !HasColumn(df, "samples") ==> data == []
  {
    if HasColumn(df, "samples") then Column(df, "samples").value else []
  }

  /** What one pass of the loop body leaves in the group `name`, given the
      channel's rows `rows` of the whole frame `df`, and whether it ran to
      the end. The steps, in the order the converter takes them: the
      `sample rate` attribute is set; the end times of the channel's rows
      are truncated, parsed and stored; the average latency column of the
      WHOLE frame is stored; the samples are stored. */
  function JsonGroup(df: Table, epoch: string -> Option<real>, name: string, rows: Table): (r: (Group, Outcome))
    ensures r.0.name == name
  {
    var g := Group(name, [], []);
    match JsonRate(df)
    case Err(e) => (g, Fail(e))
    case Ok(rate) =>
      var g1 := SetAttribute(g, Attribute("sample rate", rate, UInt16));
      var times := JsonTimes(g1, rows, epoch);
      if times.1.Fail? then times
      else
        var lat := JsonLatency(times.0, df);
        if lat.1.Fail? then lat else JsonSamples(lat.0, df)
  }

  /** The end-time step of the loop body. */
  function JsonTimes(g: Group, rows: Table, epoch: string -> Option<real>): (r: (Group, Outcome))
    ensures r.0.name == g.name && r.0.attrs == g.attrs
  {
    match Column(rows, "endTime")
    case Err(e) => (g, Fail(e))
    case Ok(ends) =>
      match EndEpochs(ends, epoch)
      case Err(e) => (g, Fail(e))
      case Ok(ts) =>
        match AddDataset(g, Dataset("timestamp", ts, Float64, Gzip(9)))
        case Err(e) => (g, Fail(e))
        case Ok(g1) => (g1, Pass)
  }

  /** The latency step of the loop body: the average latency column of the
      whole frame, not of the channel's rows, stored as int32. */
  function JsonLatency(g: Group, df: Table): (r: (Group, Outcome))
    ensures r.0.name == g.name && r.0.attrs == g.attrs
  {
    match Column(df, "avgLatency")
    case Err(e) => (g, Fail(e))
    case Ok(lat) =>
      match AddDataset(g, Dataset("network latency", lat, Int32, Gzip(9)))
      case Err(e) => (g, Fail(e))
      case Ok(g2) => (g2, Pass)
  }

  /** The samples step of the loop body: uint16, without compression. */
  function JsonSamples(g: Group, df: Table): (r: (Group, Outcome))
    ensures r.0.name == g.name && r.0.attrs == g.attrs
  {
    match AddDataset(g, Dataset("samples", JsonSamplesData(df), UInt16, Uncompressed))
    case Err(e) => (g, Fail(e))
    case Ok(g3) => (g3, Pass)
  }

  /** The loop body as a function of the channel name and its rows. */
  function JsonBody(df: Table, epoch: string -> Option<real>): (body: (string, Table) -> (Group, Outcome))
    ensures forall n, t :: body(n, t).0.name == n
  {
    (n: string, t: Table) => JsonGroup(df, epoch, n, t)
  }

  /** The groups `json_to_hdf5` leaves in the file and how it ended: a
      frame without a `channel` column, or with a channel cell `unique()`
      cannot hash, raises before any group exists. */
  function JsonArchive(df: Table, epoch: string -> Option<real>): (seq<Group>, Outcome)
  {
    match Column(df, "channel")
    case Err(e) => ([], Fail(e))
    case Ok(chan) =>
      if !Hashable(chan) then ([], Fail(TypeError))
      else WriteChannels(df, chan, Unique(chan), JsonBody(df, epoch))
  }

  /** `json_to_hdf5`: a fresh file, one loop pass per distinct channel. */
  method JsonToHdf5(df: Table, epoch: string -> Option<real>) returns (file: File, o: Outcome)
    ensures fresh(file) && file.Valid()
    ensures (file.groups, o) == JsonArchive(df, epoch)
  {
    file := new File.Create();
    var chan := Column(df, "channel");
    if chan.Err? {
      return file, Fail(chan.error);
    }
    if !Hashable(chan.value) {
      return file, Fail(TypeError);
    }
    o := WriteJsonChannels(file, df, chan.value, Unique(chan.value), epoch);
  }

  /** The loop over the distinct channels `cs`, on an empty file. */
  method WriteJsonChannels(file: File, df: Table, chan: seq<Value>, cs: seq<Value>, epoch: string -> Option<real>)
    returns (o: Outcome)
    requires |chan| == Height(df) && file.Valid() && file.groups == []
    modifies file
    ensures file.Valid()
    ensures file.groups == WriteChannels(df, chan, cs, JsonBody(df, epoch)).0
    ensures o == WriteChannels(df, chan, cs, JsonBody(df, epoch)).1
  {
    ghost var body := JsonBody(df, epoch);
    var i := 0;
    o := Pass;
    while i < |cs| && o.Pass?
      invariant 0 <= i <= |cs|
      invariant file.Valid()
      invariant file.groups == WriteChannels(df, chan, cs[..i], body).0
      invariant o == WriteChannels(df, chan, cs[..i], body).1
    {
      WriteChannelsSnoc(df, chan, cs, i, body);
      o := WriteJsonChannel(file, df, chan, cs[i], epoch);
      i := i + 1;
    }
    if i < |cs| {
      WriteChannelsStops(df, chan, cs, i, body);
    } else {
      assert cs[..i] == cs;
    }
  }

  /** One pass of the loop: the channel's rows are selected, its group is
      created and filled. */
  method WriteJsonChannel(file: File, df: Table, chan: seq<Value>, c: Value, epoch: string -> Option<real>)
    returns (o: Outcome)
    requires |chan| == Height(df) && file.Valid()
    modifies file
    ensures file.Valid()
    ensures file.groups == WriteChannel(df, chan, old(file.groups), c, JsonBody(df, epoch)).0
    ensures o == WriteChannel(df, chan, old(file.groups), c, JsonBody(df, epoch)).1
  {
    var rows := Rows(df, chan, c);
    if c.Null? {
      // `create_group(None)`: an anonymous group, kept in a scratch file
      // that nothing links to `file`; the body still runs on it.
      var anon := new File.Create();
      var created := anon.CreateGroup("");
      o := FillJsonGroup(anon, 0, df, epoch, "", rows);
      return;
    }
    if !c.Str? {
      return Fail(TypeError);
    }
    o := file.CreateGroup(c.s);
    if o.Pass? {
      o := FillJsonGroup(file, |file.groups| - 1, df, epoch, c.s, rows);
      ghost var out := JsonGroup(df, epoch, c.s, rows);
      assert JsonBody(df, epoch)(c.s, rows) == out;
      assert file.groups == old(file.groups) + [out.0];
    }
  }

  /** The loop body, statement by statement, on group `k` of the file. */
  method FillJsonGroup(file: File, k: nat, df: Table, epoch: string -> Option<real>, name: string, rows: Table)
    returns (o: Outcome)
    requires file.Valid() && k < |file.groups| && file.groups[k] == Group(name, [], [])
    modifies file
    ensures file.Valid()
    ensures file.groups == old(file.groups)[k := JsonGroup(df, epoch, name, rows).0]
    ensures o == JsonGroup(df, epoch, name, rows).1
  {
    var rate := JsonRate(df);
    if rate.Err? {
      return Fail(rate.error);
    }
    file.CreateAttribute(k, Attribute("sample rate", rate.value, UInt16));
    ghost var g1 := SetAttribute(Group(name, [], []), Attribute("sample rate", rate.value, UInt16));
    o := FillJsonTimes(file, k, g1, rows, epoch);
    if o.Fail? {
      return;
    }
    ghost var times := JsonTimes(g1, rows, epoch);
    o := FillJsonLatency(file, k, times.0, df);
    if o.Fail? {
      return;
    }
    o := FillJsonSamples(file, k, JsonLatency(times.0, df).0, df);
  }

  /** The end-time statements of the loop body, on group `k`, which is `g`. */
  method FillJsonTimes(file: File, k: nat, ghost g: Group, rows: Table, epoch: string -> Option<real>) returns (o: Outcome)
    requires file.Valid() && k < |file.groups| && file.groups[k] == g
    modifies file
    ensures file.Valid()
    ensures file.groups == old(file.groups)[k := JsonTimes(g, rows, epoch).0]
    ensures o == JsonTimes(g, rows, epoch).1
  {
    var ends := Column(rows, "endTime");
    if ends.Err? {
      return Fail(ends.error);
    }
    var ts := EndEpochs(ends.value, epoch);
    if ts.Err? {
      return Fail(ts.error);
    }
    o := file.CreateDataset(k, Dataset("timestamp", ts.value, Float64, Gzip(9)));
  }

  /** The latency statements of the loop body, on group `k`, which is `g`. */
  method FillJsonLatency(file: File, k: nat, ghost g: Group, df: Table) returns (o: Outcome)
    requires file.Valid() && k < |file.groups| && file.groups[k] == g
    modifies file
    ensures file.Valid()
    ensures file.groups == old(file.groups)[k := JsonLatency(g, df).0]
    ensures o == JsonLatency(g, df).1
  {
    var lat := Column(df, "avgLatency");
    if lat.Err? {
      return Fail(lat.error);
    }
    o := file.CreateDataset(k, Dataset("network latency", lat.value, Int32, Gzip(9)));
  }

  /** The samples statements of the loop body, on group `k`, which is `g`. */
  method FillJsonSamples(file: File, k: nat, ghost g: Group, df: Table) returns (o: Outcome)
    requires file.Valid() && k < |file.groups| && file.groups[k] == g
    modifies file
    ensures file.Valid()
    ensures file.groups == old(file.groups)[k := JsonSamples(g, df).0]
    ensures o == JsonSamples(g, df).1
  {
    if HasColumn(df, "samples") {
      var samples := Column(df, "samples");
      o := file.CreateDataset(k, Dataset("samples", samples.value, UInt16, Uncompressed));
    } else {
      o := file.CreateDataset(k, Dataset("samples", [], UInt16, Uncompressed));
    }
  }

  /** Every cell is a text whose first 26 characters the parse accepts. */
  predicate EndTimesReady(cells: seq<Value>, epoch: string -> Option<real>)
  {
    forall i :: 0 <= i < |cells| ==> cells[i].Str? && epoch(Prefix(cells[i].s, EndTimeWidth)).Some?
  }

  /** What the loop body needs to run to the end on a channel's rows `rows`:
      a non-empty `sample rate` column in the frame if it has one at all,
      an end-time column in the rows whose times parse, and an average
      latency column in the frame. */
  predicate JsonReady(df: Table, epoch: string -> Option<real>, rows: Table)
  {
    && (HasColumn(df, "sample rate") ==> Height(df) > 0)
    && HasColumn(rows, "endTime") && EndTimesReady(Column(rows, "endTime").value, epoch)
    && HasColumn(df, "avgLatency")
  }

  /** The end-time step runs to the end exactly when the rows have an
      end-time column whose truncated times parse, and then appends them. */
  lemma JsonTimesStep(g: Group, rows: Table, epoch: string -> Option<real>)
    requires "timestamp" !in DatasetNames(g.datasets)
    ensures JsonTimes(g, rows, epoch).1.Pass? <==>
      HasColumn(rows, "endTime") && EndTimesReady(Column(rows, "endTime").value, epoch)
    ensures JsonTimes(g, rows, epoch).1.Pass? ==>
      JsonTimes(g, rows, epoch).0 == g.(datasets := g.datasets + [Dataset("timestamp", EndEpochs(Column(rows, "endTime").value, epoch).value, Float64, Gzip(9))])
  {
    if HasColumn(rows, "endTime") {
      EndEpochsSpec(Column(rows, "endTime").value, epoch);
    }
  }

  /** The latency step runs to the end exactly when the frame has an
      average latency column, and then appends the whole column. */
  lemma JsonLatencyStep(g: Group, df: Table)
    requires "network latency" !in DatasetNames(g.datasets)
    ensures JsonLatency(g, df).1.Pass? <==> HasColumn(df, "avgLatency")
    ensures JsonLatency(g, df).1.Pass? ==>
      JsonLatency(g, df).0 == g.(datasets := g.datasets + [Dataset("network latency", Column(df, "avgLatency").value, Int32, Gzip(9))])
  {
  }

  /** The samples step always runs to the end on a group without samples. */
  lemma JsonSamplesStep(g: Group, df: Table)
    requires "samples" !in DatasetNames(g.datasets)
    ensures JsonSamples(g, df) == (g.(datasets := g.datasets + [Dataset("samples", JsonSamplesData(df), UInt16, Uncompressed)]), Pass)
  {
  }

  /** The loop body runs to the end exactly when the rows are ready; no
      dataset name clashes in the fresh group. */
  lemma JsonGroupPass(df: Table, epoch: string -> Option<real>, name: string, rows: Table)
    ensures JsonGroup(df, epoch, name, rows).1.Pass? <==> JsonReady(df, epoch, rows)
  {
    var rate := JsonRate(df);
    if rate.Ok? {
      var g1 := SetAttribute(Group(name, [], []), Attribute("sample rate", rate.value, UInt16));
      assert DatasetNames(g1.datasets) == [];
      JsonTimesStep(g1, rows, epoch);
      var t := JsonTimes(g1, rows, epoch);
      if t.1.Pass? {
        assert DatasetNames(t.0.datasets) == ["timestamp"];
        JsonLatencyStep(t.0, df);
        var l := JsonLatency(t.0, df);
        if l.1.Pass? {
          assert DatasetNames(l.0.datasets) == ["timestamp", "network latency"];
          JsonSamplesStep(l.0, df);
        }
      }
    }
  }

  /** A group the body finished holds the `sample rate` attribute, taken
      from the first row of the WHOLE frame or `100` by default; the channel's
      truncated end times (float64, gzip 9); the average latency column of
      the WHOLE frame (int32, gzip 9); and the whole frame's samples column or
      nothing (uint16, uncompressed), in that order. */
  lemma JsonGroupContents(df: Table, epoch: string -> Option<real>, name: string, rows: Table)
    requires JsonReady(df, epoch, rows)
    ensures var g := JsonGroup(df, epoch, name, rows).0;
      var ends := Column(rows, "endTime").value;
      && g.name == name
      && g.attrs == [Attribute("sample rate", if HasColumn(df, "sample rate") then Column(df, "sample rate").value[0] else Str("100"), UInt16)]
      && |g.datasets| == 3
      && g.datasets[0].name == "timestamp" && g.datasets[0].dtype == Float64 && g.datasets[0].compression == Gzip(9)
      && |g.datasets[0].data| == Height(rows)
      && (forall i :: 0 <= i < Height(rows) ==> g.datasets[0].data[i] == Num(epoch(Prefix(ends[i].s, EndTimeWidth)).value))
      && g.datasets[1] == Dataset("network latency", Column(df, "avgLatency").value, Int32, Gzip(9))
      && g.datasets[2] == Dataset("samples", if HasColumn(df, "samples") then Column(df, "samples").value else [], UInt16, Uncompressed)
  {
    var ends := Column(rows, "endTime").value;
    var rate := JsonRate(df);
    var g1 := SetAttribute(Group(name, [], []), Attribute("sample rate", rate.value, UInt16));
    assert g1.attrs == [Attribute("sample rate", rate.value, UInt16)];
    assert DatasetNames(g1.datasets) == [];
    JsonTimesStep(g1, rows, epoch);
    var t := JsonTimes(g1, rows, epoch);
    assert DatasetNames(t.0.datasets) == ["timestamp"];
    JsonLatencyStep(t.0, df);
    var l := JsonLatency(t.0, df);
    assert DatasetNames(l.0.datasets) == ["timestamp", "network latency"];
    JsonSamplesStep(l.0, df);
    EndEpochsSpec(ends, epoch);
  }

  /** Channel `c` of the channel column `chan` is a string or `None` whose
      rows are ready; `None` selects no row, so only the frame's columns
      matter for it. */
  predicate JsonChannelReady(df: Table, epoch: string -> Option<real>, chan: seq<Value>, c: Value)
  {
    |chan| == Height(df) && (c.Str? || c.Null?) && JsonReady(df, epoch, Rows(df, chan, c))
  }

  /** The body runs to the end on a string or `None` channel exactly when
      the channel is ready. */
  lemma JsonBodyPass(df: Table, epoch: string -> Option<real>, chan: seq<Value>)
    requires |chan| == Height(df)
    ensures forall c: Value :: c.Str? || c.Null? ==>
      (BodyOf(df, chan, c, JsonBody(df, epoch)).1.Pass? <==> JsonChannelReady(df, epoch, chan, c))
  {
    forall c: Value | c.Str? || c.Null?
      ensures BodyOf(df, chan, c, JsonBody(df, epoch)).1.Pass? <==> JsonChannelReady(df, epoch, chan, c)
    {
      JsonGroupPass(df, epoch, if c.Str? then c.s else "", Rows(df, chan, c));
    }
  }

  /** The frame has a channel column and every distinct channel is a
      string or `None` whose rows are ready. */
  predicate JsonArchiveReady(df: Table, epoch: string -> Option<real>)
  {
    && HasColumn(df, "channel")
    && var chan := Column(df, "channel").value;
       forall i :: 0 <= i < |Unique(chan)| ==> JsonChannelReady(df, epoch, chan, Unique(chan)[i])
  }

  /** The archive is written to the end exactly when the frame has a channel
      column and every distinct channel is a string or `None` whose rows are
      ready. */
  lemma JsonArchivePass(df: Table, epoch: string -> Option<real>)
    ensures JsonArchive(df, epoch).1.Pass? <==> JsonArchiveReady(df, epoch)
  {
    if HasColumn(df, "channel") {
      var chan := Column(df, "channel").value;
      if JsonArchiveReady(df, epoch) {
        forall i | 0 <= i < |Unique(chan)| ensures Unique(chan)[i].Str? || Unique(chan)[i].Null? {
          assert JsonChannelReady(df, epoch, chan, Unique(chan)[i]);
        }
        UniqueHashable(chan);
      }
      if Hashable(chan) {
        var cs, ready := Unique(chan), (c: Value) => JsonChannelReady(df, epoch, chan, c);
        JsonBodyPass(df, epoch, chan);
        WriteChannelsPassWhen(df, chan, cs, JsonBody(df, epoch), ready);
        assert forall i :: 0 <= i < |cs| ==> ready(cs[i]) == JsonChannelReady(df, epoch, chan, cs[i]);
      }
    }
  }

  /** The groups of the archive: none, with TypeError, when a channel cell
      cannot be hashed; otherwise, for the distinct channels other than
      `None` (whose group is anonymous) in order of first appearance, the
      group each loop pass left, named after its channel; one per such
      channel when the loop ran to the end. */
  lemma JsonArchiveGroups(df: Table, epoch: string -> Option<real>)
    requires HasColumn(df, "channel")
    ensures var chan := Column(df, "channel").value; var cs := Linked(Unique(chan)); var r := JsonArchive(df, epoch);
      && (!Hashable(chan) ==> r == ([], Fail(TypeError)))
      && |r.0| <= |cs|
      && (r.1.Pass? ==> |r.0| == |cs|)
      && (forall i :: 0 <= i < |r.0| ==>
            cs[i].Str? && r.0[i].name == cs[i].s && r.0[i] == JsonGroup(df, epoch, cs[i].s, Rows(df, chan, cs[i])).0)
      && (forall i, j :: 0 <= i < j < |r.0| ==> First(chan, cs[i]) < First(chan, cs[j]))
  {
    var chan := Column(df, "channel").value;
    WriteChannelsGroups(df, chan, Unique(chan), JsonBody(df, epoch));
    UniqueOrder(chan);
    LinkedOrder(chan, Unique(chan));
  }

  /** Every row of the frame has a `None` channel, or a string channel and
      an end time whose first 26 characters the parse accepts. */
  predicate EndTimeRowsReady(df: Table, epoch: string -> Option<real>)
  {
    && HasColumn(df, "channel") && HasColumn(df, "endTime")
    && var chan, ends := Column(df, "channel").value, Column(df, "endTime").value;
       forall r :: 0 <= r < Height(df) ==>
         chan[r].Null? || (chan[r].Str? && ends[r].Str? && epoch(Prefix(ends[r].s, EndTimeWidth)).Some?)
  }

  /** On a frame with channel, end-time and average latency columns and no
      `sample rate` column, every channel is ready exactly when every row
      is. */
  lemma ArchiveReadyByRows(df: Table, epoch: string -> Option<real>)
    requires HasColumn(df, "channel") && HasColumn(df, "endTime") && HasColumn(df, "avgLatency")
    requires !HasColumn(df, "sample rate")
    ensures JsonArchiveReady(df, epoch) <==> EndTimeRowsReady(df, epoch)
  {
    var chan, ends := Column(df, "channel").value, Column(df, "endTime").value;
    var cs := Unique(chan);
    if JsonArchiveReady(df, epoch) {
      forall r | 0 <= r < Height(df) && !chan[r].Null?
        ensures chan[r].Str? && ends[r].Str? && epoch(Prefix(ends[r].s, EndTimeWidth)).Some?
      {
        assert chan[r] in cs;
        RowReadyOfChannel(df, epoch, chan[r], r);
      }
    }
    if EndTimeRowsReady(df, epoch) {
      forall i | 0 <= i < |cs| ensures JsonChannelReady(df, epoch, chan, cs[i]) {
        assert cs[i] in chan by { assert cs[i] in cs; }
        ChannelReadyOfRows(df, epoch, cs[i]);
      }
    }
  }

  /** A row of a ready channel other than `None` is a string channel with an
      end time that parses. */
  lemma RowReadyOfChannel(df: Table, epoch: string -> Option<real>, c: Value, r: nat)
    requires HasColumn(df, "channel") && HasColumn(df, "endTime")
    requires JsonChannelReady(df, epoch, Column(df, "channel").value, c)
    requires r < Height(df) && Column(df, "channel").value[r] == c && !c.Null?
    ensures var ends := Column(df, "endTime").value;
      c.Str? && ends[r].Str? && epoch(Prefix(ends[r].s, EndTimeWidth)).Some?
  {
    var chan, ends := Column(df, "channel").value, Column(df, "endTime").value;
    ChannelRows(df, chan, c, "endTime");
    var m := Mask(chan, c);
    KeepHas(ends, m, r);
    var kept := Keep(ends, m);
    var k :| 0 <= k < |kept| && kept[k] == ends[r];
    assert EndTimesReady(kept, epoch);
  }

  /** When every row is ready, so is every channel of the frame. */
  lemma ChannelReadyOfRows(df: Table, epoch: string -> Option<real>, c: Value)
    requires HasColumn(df, "channel") && HasColumn(df, "endTime") && HasColumn(df, "avgLatency")
    requires !HasColumn(df, "sample rate")
    requires EndTimeRowsReady(df, epoch) && c in Column(df, "channel").value
    ensures JsonChannelReady(df, epoch, Column(df, "channel").value, c)
  {
    var chan, ends := Column(df, "channel").value, Column(df, "endTime").value;
    assert c.Str? || c.Null? by { assert chan[First(chan, c)] == c; }
    ChannelRows(df, chan, c, "endTime");
    var m := Mask(chan, c);
    var ps, kept := Positions(m), Keep(ends, m);
    if !c.Null? {
      forall k | 0 <= k < |kept| ensures kept[k].Str? && epoch(Prefix(kept[k].s, EndTimeWidth)).Some? {
        assert kept[k] == ends[ps[k]] && chan[ps[k]] == c;
      }
    }
    assert EndTimesReady(kept, epoch);
  }

  /** In a finished archive, the group of the `i`-th distinct channel other
      than `None` is named after it and holds the default or whole-frame
      `sample rate`, the truncated end times of exactly the rows of that
      channel in row order, the whole frame's average latency column and the
      whole frame's samples or nothing. */
  lemma JsonChannelGroup(df: Table, epoch: string -> Option<real>, i: nat)
    requires HasColumn(df, "channel") && HasColumn(df, "endTime")
    requires JsonArchive(df, epoch).1.Pass?
    requires i < |Linked(Unique(Column(df, "channel").value))|
    ensures i < |JsonArchive(df, epoch).0|
    ensures ChannelGroupOnFrame(df, epoch, Linked(Unique(Column(df, "channel").value))[i], JsonArchive(df, epoch).0[i])
  {
    var chan, ends := Column(df, "channel").value, Column(df, "endTime").value;
    var c := Linked(Unique(chan))[i];
    var rows := Rows(df, chan, c);
    LinkedGroup(df, epoch, i);
    JsonGroupContents(df, epoch, c.s, rows);
    ChannelRows(df, chan, c, "endTime");
    var ps, kept := Positions(Mask(chan, c)), Keep(ends, Mask(chan, c));
    assert Column(rows, "endTime").value == kept;
    var g := JsonArchive(df, epoch).0[i];
    forall k | 0 <= k < |ps|
      ensures chan[ps[k]] == c && ends[ps[k]].Str? && epoch(Prefix(ends[ps[k]].s, EndTimeWidth)).Some?
      ensures g.datasets[0].data[k] == Num(epoch(Prefix(ends[ps[k]].s, EndTimeWidth)).value)
    {
      assert kept[k] == ends[ps[k]];
    }
  }

  /** `g` is the finished group of the string channel `c`, described on the
      whole frame: it is named after `c`, has the default or whole-frame
      `sample rate`, the truncated end times of exactly the rows of `c` in
      row order (one per occurrence), the whole frame's average latency
      column and the whole frame's samples or nothing. */
  predicate ChannelGroupOnFrame(df: Table, epoch: string -> Option<real>, c: Value, g: Group)
    requires HasColumn(df, "channel") && HasColumn(df, "endTime")
  {
    var chan, ends := Column(df, "channel").value, Column(df, "endTime").value;
    var ps := Positions(Mask(chan, c));
    && HasColumn(df, "avgLatency") && (HasColumn(df, "sample rate") ==> Height(df) > 0)
    && c.Str? && g.name == c.s
    && g.attrs == [Attribute("sample rate", if HasColumn(df, "sample rate") then Column(df, "sample rate").value[0] else Str("100"), UInt16)]
    && |g.datasets| == 3
    && g.datasets[0].name == "timestamp" && g.datasets[0].dtype == Float64 && g.datasets[0].compression == Gzip(9)
    && |g.datasets[0].data| == |ps| == multiset(chan)[c]
    && (forall k :: 0 <= k < |ps| ==> chan[ps[k]] == c && ends[ps[k]].Str?)
    && (forall k :: 0 <= k < |ps| ==> (epoch(Prefix(ends[ps[k]].s, EndTimeWidth)).Some? &&
          g.datasets[0].data[k] == Num(epoch(Prefix(ends[ps[k]].s, EndTimeWidth)).value)))
    && g.datasets[1] == Dataset("network latency", Column(df, "avgLatency").value, Int32, Gzip(9))
    && g.datasets[2] == Dataset("samples", if HasColumn(df, "samples") then Column(df, "samples").value else [], UInt16, Uncompressed)
  }

  /** In a finished archive, group `i` is the body's group for the `i`-th
      distinct channel other than `None`, which is a ready string. */
  lemma LinkedGroup(df: Table, epoch: string -> Option<real>, i: nat)
    requires HasColumn(df, "channel")
    requires JsonArchive(df, epoch).1.Pass?
    requires i < |Linked(Unique(Column(df, "channel").value))|
    ensures var chan := Column(df, "channel").value; var c := Linked(Unique(chan))[i];
      && i < |JsonArchive(df, epoch).0|
      && c.Str? && JsonChannelReady(df, epoch, chan, c)
      && JsonArchive(df, epoch).0[i] == JsonGroup(df, epoch, c.s, Rows(df, chan, c)).0
  {
    var chan := Column(df, "channel").value;
    var cs := Unique(chan);
    var c := Linked(cs)[i];
    JsonArchivePass(df, epoch);
    JsonArchiveGroups(df, epoch);
    assert c in cs by { assert c in Linked(cs); }
    var j :| 0 <= j < |cs| && cs[j] == c;
    assert JsonChannelReady(df, epoch, chan, cs[j]);
  }

  /** The archive of a converted report is written to the end exactly when
      every interval row has a `None` channel, or a string channel and an
      end time whose first 26 characters the parse accepts. */
  lemma TableArchivePass(rows: seq<Row>, epoch: string -> Option<real>)
    ensures JsonArchive(ToFrame(rows), epoch).1.Pass? <==> RowTimesReady(rows, epoch)
  {
    var t := ToFrame(rows);
    FrameColumn(rows, 0);
    FrameColumn(rows, 2);
    FrameColumn(rows, 5);
    FrameLabels(rows);
    JsonArchivePass(t, epoch);
    ArchiveReadyByRows(t, epoch);
    RowTimesReadyFrame(rows, epoch);
  }

  /** Every row has a `None` channel, or a string channel and an end time
      whose first 26 characters the parse accepts. */
  predicate RowTimesReady(rows: seq<Row>, epoch: string -> Option<real>)
  {
    forall r :: 0 <= r < |rows| ==>
      rows[r].channel.Null? || (rows[r].channel.Str? && rows[r].endTime.Str? && epoch(Prefix(rows[r].endTime.s, EndTimeWidth)).Some?)
  }

  /** Readiness of the rows, read on the frame built from them. */
  lemma RowTimesReadyFrame(rows: seq<Row>, epoch: string -> Option<real>)
    ensures EndTimeRowsReady(ToFrame(rows), epoch) <==> RowTimesReady(rows, epoch)
  {
    FrameColumn(rows, 0);
    FrameColumn(rows, 2);
    var chan, ends := FieldColumn(rows, 0), FieldColumn(rows, 2);
    assert forall r :: 0 <= r < |rows| ==> chan[r] == rows[r].channel && ends[r] == rows[r].endTime;
  }

  /** In the finished archive of a converted report, which has neither a
      `sample rate` nor a `samples` column, every group carries the default
      rate `100`, the timestamps of its own channel's intervals, the average
      latency of EVERY interval of the report, and an empty samples dataset;
      the `i`-th group is that of the `i`-th distinct channel other than
      `None`. */
  lemma TableArchiveGroups(rows: seq<Row>, epoch: string -> Option<real>, i: nat)
    requires JsonArchive(ToFrame(rows), epoch).1.Pass?
    requires i < |Linked(Unique(FieldColumn(rows, 0)))|
    ensures i < |JsonArchive(ToFrame(rows), epoch).0|
    ensures ReportGroup(rows, epoch, Linked(Unique(FieldColumn(rows, 0)))[i], JsonArchive(ToFrame(rows), epoch).0[i])
  {
    var t := ToFrame(rows);
    FrameColumn(rows, 0);
    FrameColumn(rows, 2);
    JsonChannelGroup(t, epoch, i);
    ReportGroupOnFrame(rows, epoch, Linked(Unique(FieldColumn(rows, 0)))[i], JsonArchive(t, epoch).0[i]);
  }

  /** `g` is the finished group of the string channel `c` in the archive of
      the interval rows `rows`: rate `100`, the parsed end times of exactly
      the rows of `c` in row order, the average latency of every row, and
      an empty samples dataset. */
  predicate ReportGroup(rows: seq<Row>, epoch: string -> Option<real>, c: Value, g: Group)
  {
    var chan := FieldColumn(rows, 0);
    var ps := Positions(Mask(chan, c));
    && c.Str? && g.name == c.s
    && g.attrs == [Attribute("sample rate", Str("100"), UInt16)]
    && |g.datasets| == 3
    && g.datasets[0].name == "timestamp" && g.datasets[0].dtype == Float64 && g.datasets[0].compression == Gzip(9)
    && |g.datasets[0].data| == |ps| == multiset(chan)[c]
    && (forall k :: 0 <= k < |ps| ==> rows[ps[k]].channel == c && rows[ps[k]].endTime.Str?)
    && (forall k :: 0 <= k < |ps| ==> (epoch(Prefix(rows[ps[k]].endTime.s, EndTimeWidth)).Some? &&
          g.datasets[0].data[k] == Num(epoch(Prefix(rows[ps[k]].endTime.s, EndTimeWidth)).value)))
    && g.datasets[1].name == "network latency" && g.datasets[1].dtype == Int32 && g.datasets[1].compression == Gzip(9)
    && |g.datasets[1].data| == |rows|
    && (forall r :: 0 <= r < |rows| ==> g.datasets[1].data[r] == rows[r].avgLatency)
    && g.datasets[2] == Dataset("samples", [], UInt16, Uncompressed)
  }

  /** A channel's group described on the frame of the rows, read back on
      the rows themselves. */
  lemma ReportGroupOnFrame(rows: seq<Row>, epoch: string -> Option<real>, c: Value, g: Group)
    requires HasColumn(ToFrame(rows), "channel") && HasColumn(ToFrame(rows), "endTime")
    requires ChannelGroupOnFrame(ToFrame(rows), epoch, c, g)
    ensures ReportGroup(rows, epoch, c, g)
  {
    FrameColumn(rows, 0);
    FrameColumn(rows, 2);
    FrameColumn(rows, 5);
    FrameLabels(rows);
    var chan, ends, lat := FieldColumn(rows, 0), FieldColumn(rows, 2), FieldColumn(rows, 5);
    var ps := Positions(Mask(chan, c));
    forall k | 0 <= k < |ps|
      ensures rows[ps[k]].channel == c && rows[ps[k]].endTime.Str? && epoch(Prefix(rows[ps[k]].endTime.s, EndTimeWidth)).Some?
      ensures g.datasets[0].data[k] == Num(epoch(Prefix(rows[ps[k]].endTime.s, EndTimeWidth)).value)
    {
      assert chan[ps[k]] == rows[ps[k]].channel && ends[ps[k]] == rows[ps[k]].endTime;
    }
    assert forall r :: 0 <= r < |rows| ==> lat[r] == rows[r].avgLatency;
  }
}
