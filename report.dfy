/**
  The availability report as typed records, the shape the converter's
  sample reports have: a list of channel entries, each with an `id` and a
  list of intervals holding the two times, the latency statistics and the
  retransmission counts. A typed report is written out as the JSON value
  `json.load` would return for it, and its rows are flattened directly,
  entry by entry and interval by interval; `json_to_table` on the written
  value gives the frame of exactly those rows.
 */
module Reports {
  import opened PyValues
  import opened Frames
  import opened JsonToHdf5

  /** The `latency` member of an interval. */
  datatype Latency = Latency(minimum: Value, maximum: Value, average: Value)

  /** The `retx` member of an interval. */
  datatype Retx = Retx(allPackets: Value, retxPackets: Value)

  /** One interval of a channel entry. */
  datatype Interval = Interval(startTime: Value, endTime: Value, latency: Latency, retx: Retx)

  /** One element of `availability`. */
  datatype ChannelEntry = ChannelEntry(id: Value, intervals: seq<Interval>)

  /** The latency statistics as a JSON object. */
  function EncodeLatency(l: Latency): Value
  {
    Dict([("minimum", l.minimum), ("maximum", l.maximum), ("average", l.average)])
  }

  /** The retransmission counts as a JSON object. */
  function EncodeRetx(r: Retx): Value
  {
    Dict([("allPackets", r.allPackets), ("retxPackets", r.retxPackets)])
  }

  /** An interval as a JSON object. */
  function EncodeInterval(iv: Interval): Value
  {
    Dict([("startTime", iv.startTime), ("endTime", iv.endTime), ("latency", EncodeLatency(iv.latency)), ("retx", EncodeRetx(iv.retx))])
  }

  /** The intervals as JSON objects, in order. */
  function EncodeIntervals(ivs: seq<Interval>): (vs: seq<Value>)
    ensures |vs| == |ivs|
    ensures forall j :: 0 <= j < |ivs| ==> vs[j] == EncodeInterval(ivs[j])
  {
    seq(|ivs|, j requires 0 <= j < |ivs| => EncodeInterval(ivs[j]))
  }

  /** An entry as a JSON object. */
  function EncodeEntry(e: ChannelEntry): Value
  {
    Dict([("id", e.id), ("intervals", List(EncodeIntervals(e.intervals)))])
  }

  /** The entries as JSON objects, in order. */
  function EncodeEntries(es: seq<ChannelEntry>): (vs: seq<Value>)
    ensures |vs| == |es|
    ensures forall i :: 0 <= i < |es| ==> vs[i] == EncodeEntry(es[i])
  {
    seq(|es|, i requires 0 <= i < |es| => EncodeEntry(es[i]))
  }

  /** A report as the object `json.load` returns. */
  function EncodeReport(es: seq<ChannelEntry>): Value
  {
    Dict([("availability", List(EncodeEntries(es)))])
  }

  /** The row of interval `iv` of the entry whose id is `id`. */
  function RowOf(id: Value, iv: Interval): Row
  {
    Row(id, iv.startTime, iv.endTime, iv.latency.minimum, iv.latency.maximum, iv.latency.average,
        iv.retx.allPackets, iv.retx.retxPackets)
  }

  /** The rows of one entry, one per interval, in order. */
  function EntryFlat(e: ChannelEntry): (rows: seq<Row>)
    ensures |rows| == |e.intervals|
    ensures forall j :: 0 <= j < |e.intervals| ==> rows[j] == RowOf(e.id, e.intervals[j])
  {
    seq(|e.intervals|, j requires 0 <= j < |e.intervals| => RowOf(e.id, e.intervals[j]))
  }

  /** The rows of a report: each entry's rows after those of the entries
      before it. */
  function Flatten(es: seq<ChannelEntry>): seq<Row>
    decreases |es|
  {
    if es == [] then [] else Flatten(es[..|es| - 1]) + EntryFlat(es[|es| - 1])
  }

  /** The number of intervals of a report. */
  function IntervalCount(es: seq<ChannelEntry>): nat
    decreases |es|
  {
    if es == [] then 0 else IntervalCount(es[..|es| - 1]) + |es[|es| - 1].intervals|
  }

  /** A written interval yields its row. */
  lemma EncodeIntervalRow(id: Value, iv: Interval)
    ensures IntervalRow(id, EncodeInterval(iv)) == Ok(RowOf(id, iv))
  {
    IntervalLookups(iv);
    LatencyLookups(iv.latency);
    RetxLookups(iv.retx);
  }

  /** The members of a written interval. */
  lemma IntervalLookups(iv: Interval)
    ensures var v := EncodeInterval(iv);
      && Sub(v, "startTime") == Ok(iv.startTime) && Sub(v, "endTime") == Ok(iv.endTime)
      && Sub(v, "latency") == Ok(EncodeLatency(iv.latency)) && Sub(v, "retx") == Ok(EncodeRetx(iv.retx))
  {
    var fs := EncodeInterval(iv).fields;
    IntervalTimes(fs, iv.startTime, iv.endTime);
    IntervalMembers(fs, EncodeLatency(iv.latency), EncodeRetx(iv.retx));
  }

  /** The time members of the member list of a written interval. */
  lemma IntervalTimes(fs: seq<(string, Value)>, start: Value, end: Value)
    requires |fs| == 4 && fs[0] == ("startTime", start) && fs[1] == ("endTime", end)
    ensures Lookup(fs, "startTime") == Ok(start) && Lookup(fs, "endTime") == Ok(end)
  {
    assert "startTime"[0] == 's' && "endTime"[0] == 'e';
    assert Lookup(fs[1..], "endTime") == Ok(end);
  }

  /** The nested members of the member list of a written interval. */
  lemma IntervalMembers(fs: seq<(string, Value)>, lat: Value, retx: Value)
    requires |fs| == 4 && fs[0].0 == "startTime" && fs[1].0 == "endTime"
    requires fs[2] == ("latency", lat) && fs[3] == ("retx", retx)
    ensures Lookup(fs, "latency") == Ok(lat) && Lookup(fs, "retx") == Ok(retx)
  {
    assert "startTime"[0] == 's' && "endTime"[0] == 'e' && "latency"[0] == 'l' && "retx"[0] == 'r';
    assert Lookup(fs[2..], "latency") == Ok(lat);
    assert Lookup(fs[3..], "retx") == Ok(retx);
    assert Lookup(fs, "latency") == Lookup(fs[1..], "latency") == Lookup(fs[2..], "latency");
    assert Lookup(fs, "retx") == Lookup(fs[1..], "retx") == Lookup(fs[2..], "retx") == Lookup(fs[3..], "retx");
  }

  /** The members of written latency statistics. */
  lemma LatencyLookups(l: Latency)
    ensures var v := EncodeLatency(l);
      Sub(v, "minimum") == Ok(l.minimum) && Sub(v, "maximum") == Ok(l.maximum) && Sub(v, "average") == Ok(l.average)
  {
    var fs := EncodeLatency(l).fields;
    assert "minimum"[1] == 'i' && "maximum"[1] == 'a' && "average"[0] == 'a';
    assert Lookup(fs[1..], "maximum") == Ok(l.maximum);
    assert Lookup(fs[2..], "average") == Ok(l.average);
  }

  /** The members of written retransmission counts. */
  lemma RetxLookups(r: Retx)
    ensures var v := EncodeRetx(r);
      Sub(v, "allPackets") == Ok(r.allPackets) && Sub(v, "retxPackets") == Ok(r.retxPackets)
  {
    var fs := EncodeRetx(r).fields;
    assert "allPackets"[0] == 'a' && "retxPackets"[0] == 'r';
    assert Lookup(fs[1..], "retxPackets") == Ok(r.retxPackets);
  }

  /** A written entry yields its rows. */
  lemma EncodeEntryRows(e: ChannelEntry)
    ensures EntryRows(EncodeEntry(e)) == Ok(EntryFlat(e))
  {
    EntryLookups(e);
    EncodeIntervalsRows(e.id, e.intervals);
  }

  /** The members of a written entry. */
  lemma EntryLookups(e: ChannelEntry)
    ensures Sub(EncodeEntry(e), "id") == Ok(e.id)
    ensures Sub(EncodeEntry(e), "intervals") == Ok(List(EncodeIntervals(e.intervals)))
  {
    EntryFields(EncodeEntry(e).fields, e.id, EncodeIntervals(e.intervals));
  }

  /** Written intervals yield their rows, in order. */
  lemma EncodeIntervalsRows(id: Value, ivs: seq<Interval>)
    ensures IntervalsRows(id, EncodeIntervals(ivs)) == Ok(EntryFlat(ChannelEntry(id, ivs)))
  {
    var items := EncodeIntervals(ivs);
    var f := (x: Value) => IntervalRow(id, x);
    forall j | 0 <= j < |items| ensures f(items[j]) == Ok(RowOf(id, ivs[j])) {
      EncodeIntervalRow(id, ivs[j]);
    }
    MapListSpec(items, f);
    var rows := MapList(items, f).value;
    assert rows == EntryFlat(ChannelEntry(id, ivs));
  }

  /** Written entries yield the flattened rows. */
  lemma {:induction false} EncodeEntriesRows(es: seq<ChannelEntry>)
    ensures EntriesRows(EncodeEntries(es)) == Ok(Flatten(es))
    decreases |es|
  {
    if es != [] {
      var init := es[..|es| - 1];
      EncodeEntriesRows(init);
      assert EncodeEntries(es)[..|es| - 1] == EncodeEntries(init);
      EncodeEntryRows(es[|es| - 1]);
    }
  }

  /** `json_to_table` on a written report is the frame of the report's
      flattened rows: one row per interval, entries and intervals in order,
      each row's channel the id of its entry. */
  lemma ReportTable(es: seq<ChannelEntry>)
    ensures JsonTable(EncodeReport(es)) == Ok(ToFrame(Flatten(es)))
  {
    var doc := EncodeReport(es);
    assert Sub(doc, "availability") == Ok(List(EncodeEntries(es)));
    EncodeEntriesRows(es);
  }

  /** The flattened rows number the intervals of the report. */
  lemma {:induction false} FlattenCount(es: seq<ChannelEntry>)
    ensures |Flatten(es)| == IntervalCount(es)
    decreases |es|
  {
    if es != [] {
      FlattenCount(es[..|es| - 1]);
    }
  }

  /** Flattening two reports one after the other gives the rows of their
      concatenation. */
  lemma {:induction false} FlattenAppend(a: seq<ChannelEntry>, b: seq<ChannelEntry>)
    ensures Flatten(a + b) == Flatten(a) + Flatten(b)
    decreases |b|
  {
    if b == [] {
      assert a + b == a;
    } else {
      var init := b[..|b| - 1];
      assert (a + b)[..|a + b| - 1] == a + init;
      assert (a + b)[|a + b| - 1] == b[|b| - 1];
      FlattenAppend(a, init);
    }
  }

  /** An entry without intervals adds no rows. */
  lemma NoIntervals(a: seq<ChannelEntry>, id: Value, b: seq<ChannelEntry>)
    ensures Flatten(a + [ChannelEntry(id, [])] + b) == Flatten(a) + Flatten(b)
  {
    var e := ChannelEntry(id, []);
    assert Flatten([e]) == [] by {
      assert [e][..0] == [];
    }
    FlattenAppend(a, [e]);
    assert Flatten(a + [e]) == Flatten(a);
    FlattenAppend(a + [e], b);
  }

  /** Every flattened row is the row of some interval of some entry, and
      carries that entry's id as its channel. */
  lemma {:induction false} FlattenRowsFromEntries(es: seq<ChannelEntry>, r: nat)
    requires r < |Flatten(es)|
    ensures exists i, j :: 0 <= i < |es| && 0 <= j < |es[i].intervals| && Flatten(es)[r] == RowOf(es[i].id, es[i].intervals[j])
    decreases |es|
  {
    var init := es[..|es| - 1];
    var last := es[|es| - 1];
    if r < |Flatten(init)| {
      FlattenRowsFromEntries(init, r);
      var i, j :| 0 <= i < |init| && 0 <= j < |init[i].intervals| && Flatten(init)[r] == RowOf(init[i].id, init[i].intervals[j]);
      assert es[i] == init[i];
    } else {
      var j := r - |Flatten(init)|;
      assert Flatten(es)[r] == EntryFlat(last)[j];
      assert es[|es| - 1] == last;
    }
  }
}
