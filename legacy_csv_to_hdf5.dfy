/**
  The first version of `csv_to_h5py`, kept in the repository's top-level
  `utilities` package. It walks the channels exactly as the current writer
  does and differs from it in one statement only: the network-latency column
  is stored with element type int32 instead of float32.
 */
module LegacyCsvToHdf5 {
  import opened PyValues
  import opened Frames
  import opened Hdf5
  import opened DataLatency
  import opened CsvToHdf5

  /** The legacy `csv_to_h5py`: a fresh file, one loop pass per distinct
      channel, the latency column stored as int32. */
  method CsvToH5py(df: Table, epoch: string -> Option<real>) returns (file: File, o: Outcome)
    ensures fresh(file) && file.Valid()
    ensures (file.groups, o) == CsvArchive(df, epoch, Int32)
  {
    file, o := WriteCsv(df, epoch, Int32);
  }

  /** `ds` with the element type of every dataset named `network latency`
      set to `t`. */
  function RetypeLatency(ds: seq<Dataset>, t: DType): (r: seq<Dataset>)
    ensures |r| == |ds|
    ensures forall i :: 0 <= i < |ds| ==> r[i] == if ds[i].name == "network latency" then ds[i].(dtype := t) else ds[i]
  {
    seq(|ds|, i requires 0 <= i < |ds| => if ds[i].name == "network latency" then ds[i].(dtype := t) else ds[i])
  }

  /** A group with its latency dataset retyped to `t`. */
  function WithLatencyType(t: DType): (f: Group -> Group)
    ensures forall g :: f(g).name == g.name
  {
    (g: Group) => g.(datasets := RetypeLatency(g.datasets, t))
  }

  /** Retyping keeps the dataset names. */
  lemma RetypeNames(ds: seq<Dataset>, t: DType)
    ensures DatasetNames(RetypeLatency(ds, t)) == DatasetNames(ds)
  {
  }

  /** Retyping works dataset by dataset, so it commutes with appending. */
  lemma RetypeAppend(ds: seq<Dataset>, d: Dataset, t: DType)
    ensures RetypeLatency(ds + [d], t) == RetypeLatency(ds, t) + RetypeLatency([d], t)
  {
  }

  /** The rate and samples steps do not look at the latency dataset: on a
      retyped group they leave the retyped result. */
  lemma RatesRetype(g: Group, rows: Table, t: DType)
    ensures CsvRates(WithLatencyType(t)(g), rows) == (WithLatencyType(t)(CsvRates(g, rows).0), CsvRates(g, rows).1)
  {
    RetypeNames(g.datasets, t);
    var cells := Column(rows, "data latency");
    if cells.Ok? && RatesOf(cells.value).Ok? && SamplesOf(cells.value).Ok? {
      var d := Dataset("samples", SamplesOf(cells.value).value, UInt16, Gzip(9));
      RetypeAppend(g.datasets, d, t);
      assert RetypeLatency([d], t) == [d];
    }
  }

  /** The loop body with latency type `t1` leaves the group it leaves with
      `t2`, retyped to `t1`, and ends the same way. */
  lemma GroupRetype(df: Table, epoch: string -> Option<real>, t1: DType, t2: DType, name: string, rows: Table)
    ensures CsvGroup(df, epoch, t1, name, rows) ==
      (WithLatencyType(t1)(CsvGroup(df, epoch, t2, name, rows).0), CsvGroup(df, epoch, t2, name, rows).1)
  {
    var times := CsvTimes(Group(name, [], []), rows, epoch);
    TimesUntyped(name, rows, epoch, t1);
    if times.1.Pass? {
      LatencyRetype(times.0, df, t1, t2);
      var l2 := CsvLatency(times.0, df, t2);
      if l2.1.Pass? {
        RatesRetype(l2.0, rows, t1);
      }
    }
  }

  /** The timestamp step leaves no latency dataset to retype. */
  lemma TimesUntyped(name: string, rows: Table, epoch: string -> Option<real>, t: DType)
    ensures WithLatencyType(t)(CsvTimes(Group(name, [], []), rows, epoch).0) == CsvTimes(Group(name, [], []), rows, epoch).0
  {
    var g := CsvTimes(Group(name, [], []), rows, epoch).0;
    assert g.datasets == [] || g.datasets == [g.datasets[0]];
    assert RetypeLatency(g.datasets, t) == g.datasets;
  }

  /** On a group without a latency dataset, the latency step with type `t1`
      leaves what it leaves with `t2`, retyped to `t1`. */
  lemma LatencyRetype(g: Group, df: Table, t1: DType, t2: DType)
    requires WithLatencyType(t1)(g) == g
    ensures CsvLatency(g, df, t1) == (WithLatencyType(t1)(CsvLatency(g, df, t2).0), CsvLatency(g, df, t2).1)
  {
    if HasColumn(df, "network latency") {
      var d := Dataset("network latency", Column(df, "network latency").value, t2, Gzip(9));
      RetypeAppend(g.datasets, d, t1);
      assert RetypeLatency([d], t1) == [d.(dtype := t1)];
    }
  }

  /** The legacy archive is the current one with every latency dataset
      stored as int32 instead of float32: the same groups in the same order,
      ending the same way. */
  lemma LegacyIsRetyped(df: Table, epoch: string -> Option<real>)
    ensures CsvArchive(df, epoch, Int32).1 == CsvArchive(df, epoch, Float32).1
    ensures CsvArchive(df, epoch, Int32).0 == MapGroups(CsvArchive(df, epoch, Float32).0, WithLatencyType(Int32))
  {
    if HasColumn(df, "channel") {
      var chan := Column(df, "channel").value;
      var b1, b2 := CsvBody(df, epoch, Int32), CsvBody(df, epoch, Float32);
      forall n, t ensures b1(n, t) == (WithLatencyType(Int32)(b2(n, t).0), b2(n, t).1) {
        GroupRetype(df, epoch, Int32, Float32, n, t);
      }
      WriteChannelsMap(df, chan, Unique(chan), b1, b2, WithLatencyType(Int32));
    }
  }
}
