/**
  `csv_to_h5py`: the archive writer for a Guralp latency export. The frame
  has the columns `timestamp`, `channel`, `network latency` and
  `data latency`; the writer gives every distinct channel, in order of first
  appearance, a group holding the channel's timestamps, the network latency
  column, the sample rate of the channel's first row and the channel's
  sample counts.
 */
module CsvToHdf5 {
  import opened PyValues
  import opened PyStrings
  import opened Frames
  import opened Hdf5
  import opened DataLatency
  import opened Timestamps

  /** What one pass of the loop body leaves in the group `name`, given the
      channel's rows `rows` of the whole frame `df`, and whether it ran to the
      end. The steps, in the order the converter takes them: the channel's
      timestamps are parsed and stored; the latency column of the WHOLE frame
      is stored with element type `latency`; the rate texts of the channel's
      cells are decoded and the first becomes the `sample rate` attribute;
      the samples texts are stored. A raised exception leaves the group as
      the earlier steps made it. */
  function CsvGroup(df: Table, epoch: string -> Option<real>, latency: DType, name: string, rows: Table): (r: (Group, Outcome))
    ensures r.0.name == name
  {
    var times := CsvTimes(Group(name, [], []), rows, epoch);
    if times.1.Fail? then times
    else
      var lat := CsvLatency(times.0, df, latency);
      if lat.1.Fail? then lat else CsvRates(lat.0, rows)
  }

  /** The timestamp step of the loop body. */
  function CsvTimes(g: Group, rows: Table, epoch: string -> Option<real>): (r: (Group, Outcome))
    ensures r.0.name == g.name
  {
    match Column(rows, "timestamp")
    case Err(e) => (g, Fail(e))
    case Ok(times) =>
      match Epochs(times, epoch)
      case Err(e) => (g, Fail(e))
      case Ok(ts) =>
        match AddDataset(g, Dataset("timestamp", ts, Float64, Gzip(9)))
        case Err(e) => (g, Fail(e))
        case Ok(g1) => (g1, Pass)
  }

  /** The network-latency step of the loop body: the column of the whole
      frame, not of the channel's rows. */
  function CsvLatency(g: Group, df: Table, latency: DType): (r: (Group, Outcome))
    ensures r.0.name == g.name
  {
    match Column(df, "network latency")
    case Err(e) => (g, Fail(e))
    case Ok(lat) =>
      match AddDataset(g, Dataset("network latency", lat, latency, Gzip(9)))
      case Err(e) => (g, Fail(e))
      case Ok(g2) => (g2, Pass)
  }

  /** The sample-rate and samples steps of the loop body. */
  function CsvRates(g2: Group, rows: Table): (r: (Group, Outcome))
    ensures r.0.name == g2.name
  {
    match Column(rows, "data latency")
    case Err(e) => (g2, Fail(e))
    case Ok(cells) =>
      match RatesOf(cells)
      case Err(e) => (g2, Fail(e))
      case Ok(rates) =>
        if rates == [] then (g2, Fail(IndexError))
        else
          var g3 := SetAttribute(g2, Attribute("sample rate", Str(rates[0]), UInt16));
          match SamplesOf(cells)
          case Err(e) => (g3, Fail(e))
          case Ok(samples) =>
            match AddDataset(g3, Dataset("samples", samples, UInt16, Gzip(9)))
            case Err(e) => (g3, Fail(e))
            case Ok(g4) => (g4, Pass)
  }

  /** The loop body as a function of the channel name and its rows. */
  function CsvBody(df: Table, epoch: string -> Option<real>, latency: DType): (body: (string, Table) -> (Group, Outcome))
    ensures forall n, t :: body(n, t).0.name == n
  {
    (n: string, t: Table) => CsvGroup(df, epoch, latency, n, t)
  }

  /** The groups the writer leaves in the file and how it ended: a frame
      without a `channel` column, or with a channel cell `unique()` cannot
      hash, raises before any group exists. */
  function CsvArchive(df: Table, epoch: string -> Option<real>, latency: DType): (seq<Group>, Outcome)
  {
    match Column(df, "channel")
    case Err(e) => ([], Fail(e))
    case Ok(chan) =>
      if !Hashable(chan) then ([], Fail(TypeError))
      else WriteChannels(df, chan, Unique(chan), CsvBody(df, epoch, latency))
  }

  /** The loop body, statement by statement, on group `k` of the file. */
  method FillCsvGroup(file: File, k: nat, df: Table, epoch: string -> Option<real>, latency: DType, name: string, rows: Table)
    returns (o: Outcome)
    requires file.Valid() && k < |file.groups| && file.groups[k] == Group(name, [], [])
    modifies file
    ensures file.Valid()
    ensures file.groups == old(file.groups)[k := CsvGroup(df, epoch, latency, name, rows).0]
    ensures o == CsvGroup(df, epoch, latency, name, rows).1
  {
    ghost var g := Group(name, [], []);
    o := FillCsvTimes(file, k, g, rows, epoch);
    if o.Fail? {
      return;
    }
    ghost var times := CsvTimes(g, rows, epoch);
    o := FillCsvLatency(file, k, times.0, df, latency);
    if o.Fail? {
      return;
    }
    o := FillCsvRates(file, k, CsvLatency(times.0, df, latency).0, rows);
  }

  /** The timestamp statements of the loop body, on group `k`, which is `g`. */
  method FillCsvTimes(file: File, k: nat, ghost g: Group, rows: Table, epoch: string -> Option<real>) returns (o: Outcome)
    requires file.Valid() && k < |file.groups| && file.groups[k] == g
    modifies file
    ensures file.Valid()
    ensures file.groups == old(file.groups)[k := CsvTimes(g, rows, epoch).0]
    ensures o == CsvTimes(g, rows, epoch).1
  {
    var times := Column(rows, "timestamp");
    if times.Err? {
      return Fail(times.error);
    }
    var ts := Epochs(times.value, epoch);
    if ts.Err? {
      return Fail(ts.error);
    }
    o := file.CreateDataset(k, Dataset("timestamp", ts.value, Float64, Gzip(9)));
  }

  /** The network-latency statements of the loop body, on group `k`, which
      is `g`. */
  method FillCsvLatency(file: File, k: nat, ghost g: Group, df: Table, latency: DType) returns (o: Outcome)
    requires file.Valid() && k < |file.groups| && file.groups[k] == g
    modifies file
    ensures file.Valid()
    ensures file.groups == old(file.groups)[k := CsvLatency(g, df, latency).0]
    ensures o == CsvLatency(g, df, latency).1
  {
    var lat := Column(df, "network latency");
    if lat.Err? {
      return Fail(lat.error);
    }
    o := file.CreateDataset(k, Dataset("network latency", lat.value, latency, Gzip(9)));
  }

  /** The sample-rate and samples statements of the loop body, on group `k`,
      which is `g`. */
  method FillCsvRates(file: File, k: nat, ghost g: Group, rows: Table) returns (o: Outcome)
    requires file.Valid() && k < |file.groups| && file.groups[k] == g
    modifies file
    ensures file.Valid()
    ensures file.groups == old(file.groups)[k := CsvRates(g, rows).0]
    ensures o == CsvRates(g, rows).1
  {
    var cells := Column(rows, "data latency");
    if cells.Err? {
      return Fail(cells.error);
    }
    var rates := RatesOf(cells.value);
    if rates.Err? {
      return Fail(rates.error);
    }
    if rates.value == [] {
      return Fail(IndexError);
    }
    file.CreateAttribute(k, Attribute("sample rate", Str(rates.value[0]), UInt16));
    RatesThenSamples(cells.value);
    var samples := SamplesOf(cells.value);
    o := file.CreateDataset(k, Dataset("samples", samples.value, UInt16, Gzip(9)));
  }

  /** `csv_to_h5py` with the latency column stored as `latency`: a fresh
      file, one loop pass per distinct channel. */
  method WriteCsv(df: Table, epoch: string -> Option<real>, latency: DType) returns (file: File, o: Outcome)
    ensures fresh(file) && file.Valid()
    ensures (file.groups, o) == CsvArchive(df, epoch, latency)
  {
    file := new File.Create();
    var chan := Column(df, "channel");
    if chan.Err? {
      return file, Fail(chan.error);
    }
    if !Hashable(chan.value) {
      return file, Fail(TypeError);
    }
    o := WriteCsvChannels(file, df, chan.value, Unique(chan.value), epoch, latency);
  }

  /** The loop over the distinct channels `cs`, on an empty file. */
  method WriteCsvChannels(file: File, df: Table, chan: seq<Value>, cs: seq<Value>, epoch: string -> Option<real>, latency: DType)
    returns (o: Outcome)
    requires |chan| == Height(df) && file.Valid() && file.groups == []
    modifies file
    ensures file.Valid()
    ensures file.groups == WriteChannels(df, chan, cs, CsvBody(df, epoch, latency)).0
    ensures o == WriteChannels(df, chan, cs, CsvBody(df, epoch, latency)).1
  {
    ghost var body := CsvBody(df, epoch, latency);
    var i := 0;
    o := Pass;
    while i < |cs| && o.Pass?
      invariant 0 <= i <= |cs|
      invariant file.Valid()
      invariant file.groups == WriteChannels(df, chan, cs[..i], body).0
      invariant o == WriteChannels(df, chan, cs[..i], body).1
    {
      WriteChannelsSnoc(df, chan, cs, i, body);
      o := WriteCsvChannel(file, df, chan, cs[i], epoch, latency);
      i := i + 1;
    }
    if i < |cs| {
      WriteChannelsStops(df, chan, cs, i, body);
    } else {
      assert cs[..i] == cs;
    }
  }

  /** One pass of the loop: the channel's rows are selected, its group is
      created and filled. */
  method WriteCsvChannel(file: File, df: Table, chan: seq<Value>, c: Value, epoch: string -> Option<real>, latency: DType)
    returns (o: Outcome)
    requires |chan| == Height(df) && file.Valid()
    modifies file
    ensures file.Valid()
    ensures file.groups == WriteChannel(df, chan, old(file.groups), c, CsvBody(df, epoch, latency)).0
    ensures o == WriteChannel(df, chan, old(file.groups), c, CsvBody(df, epoch, latency)).1
  {
    var rows := Rows(df, chan, c);
    if c.Null? {
      // `create_group(None)`: an anonymous group, kept in a scratch file
      // that nothing links to `file`; the body still runs on it.
      var anon := new File.Create();
      var created := anon.CreateGroup("");
      o := FillCsvGroup(anon, 0, df, epoch, latency, "", rows);
      return;
    }
    if !c.Str? {
      return Fail(TypeError);
    }
    o := file.CreateGroup(c.s);
    if o.Pass? {
      o := FillCsvGroup(file, |file.groups| - 1, df, epoch, latency, c.s, rows);
      ghost var out := CsvGroup(df, epoch, latency, c.s, rows);
      assert CsvBody(df, epoch, latency)(c.s, rows) == out;
      assert file.groups == old(file.groups) + [out.0];
    }
  }

  /** `csv_to_h5py` of the current converter: latency stored as float32. */
  method CsvToH5py(df: Table, epoch: string -> Option<real>) returns (file: File, o: Outcome)
    ensures fresh(file) && file.Valid()
    ensures (file.groups, o) == CsvArchive(df, epoch, Float32)
  {
    file, o := WriteCsv(df, epoch, Float32);
  }

  /** What the loop body needs to run to the end on a channel's rows `rows`:
      the timestamp and data-latency columns in the rows and the latency
      column in the frame, at least one row, timestamps the parse accepts and
      data-latency texts holding `/`. */
  predicate CsvReady(df: Table, epoch: string -> Option<real>, rows: Table)
  {
    && HasColumn(rows, "timestamp") && HasColumn(df, "network latency") && HasColumn(rows, "data latency")
    && TimesReady(Column(rows, "timestamp").value, epoch)
    && RatesReady(Column(rows, "data latency").value)
  }

  /** The timestamp step runs to the end exactly when the rows have a
      timestamp column that parses, and then appends the parsed times. */
  lemma CsvTimesStep(g: Group, rows: Table, epoch: string -> Option<real>)
    requires "timestamp" !in DatasetNames(g.datasets)
    ensures CsvTimes(g, rows, epoch).1.Pass? <==>
      HasColumn(rows, "timestamp") && TimesReady(Column(rows, "timestamp").value, epoch)
    ensures CsvTimes(g, rows, epoch).1.Pass? ==>
      CsvTimes(g, rows, epoch).0 == g.(datasets := g.datasets + [Dataset("timestamp", Epochs(Column(rows, "timestamp").value, epoch).value, Float64, Gzip(9))])
  {
    if HasColumn(rows, "timestamp") {
      EpochsSpec(Column(rows, "timestamp").value, epoch);
    }
  }

  /** Every cell is a time text the parse accepts. */
  predicate TimesReady(cells: seq<Value>, epoch: string -> Option<real>)
  {
    forall i :: 0 <= i < |cells| ==> cells[i].Str? && epoch(cells[i].s).Some?
  }

  /** Every cell is a text holding `/`, and there is at least one. */
  predicate RatesReady(cells: seq<Value>)
  {
    |cells| > 0 && forall i :: 0 <= i < |cells| ==> cells[i].Str? && '/' in cells[i].s
  }

  /** The latency step runs to the end exactly when the frame has a latency
      column, and then appends that column. */
  lemma CsvLatencyStep(g: Group, df: Table, latency: DType)
    requires "network latency" !in DatasetNames(g.datasets)
    ensures CsvLatency(g, df, latency).1.Pass? <==> HasColumn(df, "network latency")
    ensures CsvLatency(g, df, latency).1.Pass? ==>
      CsvLatency(g, df, latency).0 == g.(datasets := g.datasets + [Dataset("network latency", Column(df, "network latency").value, latency, Gzip(9))])
  {
  }

  /** The rates step runs to the end exactly when the rows have a
      data-latency column of texts holding `/`, at least one, and then sets
      the rate of the first row and appends the samples texts. */
  lemma CsvRatesStep(g: Group, rows: Table)
    requires "samples" !in DatasetNames(g.datasets)
    ensures CsvRates(g, rows).1.Pass? <==> HasColumn(rows, "data latency") && RatesReady(Column(rows, "data latency").value)
    ensures CsvRates(g, rows).1.Pass? ==>
      var dl := Column(rows, "data latency").value;
      CsvRates(g, rows).0 == Group(g.name, Put(g.attrs, Attribute("sample rate", Str(RateText(dl[0].s).value), UInt16)),
        g.datasets + [Dataset("samples", SamplesOf(dl).value, UInt16, Gzip(9))])
  {
    if HasColumn(rows, "data latency") {
      var cells := Column(rows, "data latency").value;
      RatesOfSpec(cells);
      if RatesOf(cells).Ok? {
        RatesThenSamples(cells);
      }
    }
  }

  /** The loop body runs to the end exactly when the rows are ready; no
      dataset name clashes in the fresh group. */
  lemma CsvGroupPass(df: Table, epoch: string -> Option<real>, latency: DType, name: string, rows: Table)
    ensures CsvGroup(df, epoch, latency, name, rows).1.Pass? <==> CsvReady(df, epoch, rows)
  {
    var g0 := Group(name, [], []);
    CsvTimesStep(g0, rows, epoch);
    var t := CsvTimes(g0, rows, epoch);
    if t.1.Pass? {
      assert DatasetNames(t.0.datasets) == ["timestamp"];
      CsvLatencyStep(t.0, df, latency);
      var l := CsvLatency(t.0, df, latency);
      if l.1.Pass? {
        assert DatasetNames(l.0.datasets) == ["timestamp", "network latency"];
        CsvRatesStep(l.0, rows);
      }
    }
  }

  /** A group the body finished holds the `sample rate` attribute taken from
      the channel's first row, the channel's timestamps (float64), the
      latency column of the whole frame (element type `latency`) and the
      channel's samples texts (uint16), the datasets gzip-compressed at
      level 9, in that order. */
  lemma CsvGroupContents(df: Table, epoch: string -> Option<real>, latency: DType, name: string, rows: Table)
    requires CsvReady(df, epoch, rows)
    ensures var g := CsvGroup(df, epoch, latency, name, rows).0;
      var ts, dl := Column(rows, "timestamp").value, Column(rows, "data latency").value;
      && g.name == name
      && g.attrs == [Attribute("sample rate", Str(RateText(dl[0].s).value), UInt16)]
      && |g.datasets| == 3
      && g.datasets[0].name == "timestamp" && g.datasets[0].dtype == Float64 && g.datasets[0].compression == Gzip(9)
      && |g.datasets[0].data| == Height(rows)
      && (forall i :: 0 <= i < Height(rows) ==> g.datasets[0].data[i] == Num(epoch(ts[i].s).value))
      && g.datasets[1] == Dataset("network latency", Column(df, "network latency").value, latency, Gzip(9))
      && g.datasets[2].name == "samples" && g.datasets[2].dtype == UInt16 && g.datasets[2].compression == Gzip(9)
      && |g.datasets[2].data| == Height(rows)
      && (forall i :: 0 <= i < Height(rows) ==> g.datasets[2].data[i] == Str(SamplesText(dl[i].s)))
  {
    var ts, dl := Column(rows, "timestamp").value, Column(rows, "data latency").value;
    CsvGroupResult(df, epoch, latency, name, rows);
    ReadyEpochs(ts, epoch);
    ReadySamples(dl);
  }

  /** Parseable time texts give one epoch each, in order. */
  lemma ReadyEpochs(ts: seq<Value>, epoch: string -> Option<real>)
    requires TimesReady(ts, epoch)
    ensures Epochs(ts, epoch).Ok? && |Epochs(ts, epoch).value| == |ts|
    ensures forall i :: 0 <= i < |ts| ==> Epochs(ts, epoch).value[i] == Num(epoch(ts[i].s).value)
  {
    EpochsSpec(ts, epoch);
  }

  /** Ready data-latency cells give one samples text each, in order. */
  lemma ReadySamples(dl: seq<Value>)
    requires RatesReady(dl)
    ensures SamplesOf(dl).Ok? && |SamplesOf(dl).value| == |dl|
    ensures forall i :: 0 <= i < |dl| ==> SamplesOf(dl).value[i] == Str(SamplesText(dl[i].s))
  {
    SamplesOfSpec(dl);
  }

  /** The group a pass over ready rows leaves, dataset by dataset. */
  lemma CsvGroupResult(df: Table, epoch: string -> Option<real>, latency: DType, name: string, rows: Table)
    requires CsvReady(df, epoch, rows)
    ensures var ts, dl := Column(rows, "timestamp").value, Column(rows, "data latency").value;
      && Epochs(ts, epoch).Ok? && SamplesOf(dl).Ok? && RateText(dl[0].s).Ok?
      && CsvGroup(df, epoch, latency, name, rows) ==
         (Group(name, [Attribute("sample rate", Str(RateText(dl[0].s).value), UInt16)],
                [Dataset("timestamp", Epochs(ts, epoch).value, Float64, Gzip(9)),
                 Dataset("network latency", Column(df, "network latency").value, latency, Gzip(9)),
                 Dataset("samples", SamplesOf(dl).value, UInt16, Gzip(9))]), Pass)
  {
    var ts := Column(rows, "timestamp").value;
    CsvGroupFront(df, epoch, latency, name, rows);
    ReadyRates(name, Dataset("timestamp", Epochs(ts, epoch).value, Float64, Gzip(9)),
      Dataset("network latency", Column(df, "network latency").value, latency, Gzip(9)), rows);
  }

  /** On ready rows the timestamp and latency steps run to the end and the
      body goes on with the rates step. */
  lemma CsvGroupFront(df: Table, epoch: string -> Option<real>, latency: DType, name: string, rows: Table)
    requires CsvReady(df, epoch, rows)
    ensures Epochs(Column(rows, "timestamp").value, epoch).Ok?
    ensures CsvGroup(df, epoch, latency, name, rows) ==
      CsvRates(Group(name, [], [Dataset("timestamp", Epochs(Column(rows, "timestamp").value, epoch).value, Float64, Gzip(9)),
                                Dataset("network latency", Column(df, "network latency").value, latency, Gzip(9))]), rows)
  {
    ReadyTimes(name, rows, epoch);
    var d0 := Dataset("timestamp", Epochs(Column(rows, "timestamp").value, epoch).value, Float64, Gzip(9));
    var d1 := Dataset("network latency", Column(df, "network latency").value, latency, Gzip(9));
    var g1, g2 := Group(name, [], [d0]), Group(name, [], [d0, d1]);
    assert DatasetNames(g1.datasets) == ["timestamp"];
    CsvLatencyStep(g1, df, latency);
    assert [d0] + [d1] == [d0, d1];
    CsvGroupThrough(df, epoch, latency, name, rows, g1, g2);
  }

  /** On parseable timestamps, the timestamp step on a fresh group stores
      the parsed times. */
  lemma ReadyTimes(name: string, rows: Table, epoch: string -> Option<real>)
    requires HasColumn(rows, "timestamp") && TimesReady(Column(rows, "timestamp").value, epoch)
    ensures var ts := Column(rows, "timestamp").value;
      && Epochs(ts, epoch).Ok?
      && CsvTimes(Group(name, [], []), rows, epoch) == (Group(name, [], [Dataset("timestamp", Epochs(ts, epoch).value, Float64, Gzip(9))]), Pass)
  {
    CsvTimesStep(Group(name, [], []), rows, epoch);
    var d0 := Dataset("timestamp", Epochs(Column(rows, "timestamp").value, epoch).value, Float64, Gzip(9));
    assert [] + [d0] == [d0];
  }

  /** On ready cells, the rates step on the group holding the timestamp and
      latency datasets sets the first row's rate and appends the samples
      texts. */
  lemma ReadyRates(name: string, d0: Dataset, d1: Dataset, rows: Table)
    requires d0.name == "timestamp" && d1.name == "network latency"
    requires HasColumn(rows, "data latency") && RatesReady(Column(rows, "data latency").value)
    ensures var dl := Column(rows, "data latency").value;
      && RateText(dl[0].s).Ok? && SamplesOf(dl).Ok?
      && CsvRates(Group(name, [], [d0, d1]), rows) ==
         (Group(name, [Attribute("sample rate", Str(RateText(dl[0].s).value), UInt16)],
                [d0, d1, Dataset("samples", SamplesOf(dl).value, UInt16, Gzip(9))]), Pass)
  {
    var dl := Column(rows, "data latency").value;
    var g := Group(name, [], [d0, d1]);
    assert DatasetNames(g.datasets) == ["timestamp", "network latency"];
    ReadyCells(dl);
    CsvRatesStep(g, rows);
    var a := Attribute("sample rate", Str(RateText(dl[0].s).value), UInt16);
    var d2 := Dataset("samples", SamplesOf(dl).value, UInt16, Gzip(9));
    assert Put([], a) == [a];
    assert [d0, d1] + [d2] == [d0, d1, d2];
  }

  /** Data-latency cells that are ready yield their rates, their samples
      and the first cell's rate text. */
  lemma ReadyCells(cells: seq<Value>)
    requires RatesReady(cells)
    ensures RatesOf(cells).Ok? && SamplesOf(cells).Ok? && RateText(cells[0].s).Ok?
  {
    RatesOfSpec(cells);
    RatesThenSamples(cells);
    CellRateOk(cells[0]);
  }

  /** Channel `c` of the channel column `chan` is a string whose rows are
      ready. */
  predicate ChannelReady(df: Table, epoch: string -> Option<real>, chan: seq<Value>, c: Value)
  {
    |chan| == Height(df) && c.Str? && CsvReady(df, epoch, Rows(df, chan, c))
  }

  /** The body runs to the end on a string or `None` channel exactly when
      the channel is ready, which `None` never is. */
  lemma CsvBodyPass(df: Table, epoch: string -> Option<real>, latency: DType, chan: seq<Value>)
    requires |chan| == Height(df)
    ensures forall c: Value :: c.Str? || c.Null? ==>
      (BodyOf(df, chan, c, CsvBody(df, epoch, latency)).1.Pass? <==> ChannelReady(df, epoch, chan, c))
  {
    forall c: Value | c.Str? || c.Null?
      ensures BodyOf(df, chan, c, CsvBody(df, epoch, latency)).1.Pass? <==> ChannelReady(df, epoch, chan, c)
    {
      if c.Null? {
        CsvNoneRaises(df, epoch, latency, chan);
      } else {
        CsvGroupPass(df, epoch, latency, c.s, Rows(df, chan, c));
      }
    }
  }

  /** On the anonymous group of a `None` channel the body raises: the
      selection `df['channel'] == None` has no row, so there is no first
      sample rate to read. */
  lemma CsvNoneRaises(df: Table, epoch: string -> Option<real>, latency: DType, chan: seq<Value>)
    requires |chan| == Height(df)
    ensures BodyOf(df, chan, Null, CsvBody(df, epoch, latency)).1.Fail?
  {
    var rows := Rows(df, chan, Null);
    CsvGroupPass(df, epoch, latency, "", rows);
    if HasColumn(df, "data latency") {
      NoneSelectsNothing(df, chan, "data latency");
    } else {
      SelectColumn(df, Mask(chan, Null), "data latency");
    }
  }

  /** The frame has a channel column and every distinct channel is a
      string whose rows are ready. */
  predicate ArchiveReady(df: Table, epoch: string -> Option<real>)
  {
    && HasColumn(df, "channel")
    && var chan := Column(df, "channel").value;
       forall i :: 0 <= i < |Unique(chan)| ==> ChannelReady(df, epoch, chan, Unique(chan)[i])
  }

  /** The archive is written to the end exactly when the frame has a channel
      column and every distinct channel is a string whose rows are ready. */
  lemma CsvArchivePass(df: Table, epoch: string -> Option<real>, latency: DType)
    ensures CsvArchive(df, epoch, latency).1.Pass? <==> ArchiveReady(df, epoch)
  {
    if HasColumn(df, "channel") {
      var chan := Column(df, "channel").value;
      if ArchiveReady(df, epoch) {
        forall i | 0 <= i < |Unique(chan)| ensures Unique(chan)[i].Str? {
          assert ChannelReady(df, epoch, chan, Unique(chan)[i]);
        }
        UniqueHashable(chan);
      }
      if Hashable(chan) {
        var cs, ready := Unique(chan), (c: Value) => ChannelReady(df, epoch, chan, c);
        CsvBodyPass(df, epoch, latency, chan);
        WriteChannelsPassWhen(df, chan, cs, CsvBody(df, epoch, latency), ready);
        assert forall i :: 0 <= i < |cs| ==> ready(cs[i]) == ChannelReady(df, epoch, chan, cs[i]);
      }
    }
  }

  /** The groups of the archive: none, with TypeError, when a channel cell
      cannot be hashed; otherwise, for the distinct channels in order of
      first appearance, the group each loop pass left, named after its
      channel; one per distinct channel when the loop ran to the end. */
  lemma CsvArchiveGroups(df: Table, epoch: string -> Option<real>, latency: DType)
    requires HasColumn(df, "channel")
    ensures var chan := Column(df, "channel").value; var cs := Unique(chan); var r := CsvArchive(df, epoch, latency);
      && (!Hashable(chan) ==> r == ([], Fail(TypeError)))
      && |r.0| <= |cs|
      && (r.1.Pass? ==> |r.0| == |cs|)
      && (forall i :: 0 <= i < |r.0| ==>
            cs[i].Str? && r.0[i].name == cs[i].s && r.0[i] == CsvGroup(df, epoch, latency, cs[i].s, Rows(df, chan, cs[i])).0)
      && (forall i, j :: 0 <= i < j < |r.0| ==> First(chan, cs[i]) < First(chan, cs[j]))
  {
    var chan := Column(df, "channel").value;
    CsvNoneRaises(df, epoch, latency, chan);
    WriteChannelsAligned(df, chan, Unique(chan), CsvBody(df, epoch, latency));
    UniqueOrder(chan);
  }

  /** Group `g` is what the body leaves for channel `c` of the channel column
      `chan`, described on the columns of the whole frame. */
  ghost predicate ChannelGroupShape(df: Table, epoch: string -> Option<real>, latency: DType, chan: seq<Value>, c: Value, g: Group)
  {
    ChannelGroupLayout(df, latency, chan, c, g) && ChannelGroupData(df, epoch, chan, c, g)
  }

  /** The group is named after `c`, carries the rate text of the row where
      `c` first appears as its `sample rate`, and holds a float64 timestamp
      dataset, the latency column of the whole frame and a uint16 samples
      dataset, in that order, all gzip-compressed at level 9. */
  ghost predicate ChannelGroupLayout(df: Table, latency: DType, chan: seq<Value>, c: Value, g: Group)
  {
    && |chan| == Height(df) && c in chan && c.Str?
    && HasColumn(df, "data latency") && HasColumn(df, "network latency")
    && var dl, f := Column(df, "data latency").value, First(chan, c);
    && g.name == c.s
    && dl[f].Str? && '/' in dl[f].s
    && g.attrs == [Attribute("sample rate", Str(RateText(dl[f].s).value), UInt16)]
    && |g.datasets| == 3
    && g.datasets[0].name == "timestamp" && g.datasets[0].dtype == Float64 && g.datasets[0].compression == Gzip(9)
    && g.datasets[1] == Dataset("network latency", Column(df, "network latency").value, latency, Gzip(9))
    && g.datasets[2].name == "samples" && g.datasets[2].dtype == UInt16 && g.datasets[2].compression == Gzip(9)
  }

  /** The timestamp and samples datasets hold one entry per row of `c`, taken
      from those rows in order: the row's parsed timestamp and the samples
      text of its data latency. */
  ghost predicate ChannelGroupData(df: Table, epoch: string -> Option<real>, chan: seq<Value>, c: Value, g: Group)
  {
    && |chan| == Height(df) && |g.datasets| == 3
    && HasColumn(df, "timestamp") && HasColumn(df, "data latency")
    && var ts, dl := Column(df, "timestamp").value, Column(df, "data latency").value;
       var ps := Positions(Mask(chan, c));
    && |g.datasets[0].data| == |g.datasets[2].data| == |ps| == (if c.Null? then 0 else multiset(chan)[c])
    && (forall k :: 0 <= k < |ps| ==> chan[ps[k]] == c && ts[ps[k]].Str? && dl[ps[k]].Str?)
    && (forall k :: 0 <= k < |ps| ==>
          epoch(ts[ps[k]].s).Some? && g.datasets[0].data[k] == Num(epoch(ts[ps[k]].s).value))
    && (forall k :: 0 <= k < |ps| ==> g.datasets[2].data[k] == Str(SamplesText(dl[ps[k]].s)))
  }

  /** The body's group for a ready channel, restated on the whole frame. */
  lemma ChannelGroupContents(df: Table, epoch: string -> Option<real>, latency: DType, chan: seq<Value>, c: Value)
    requires c in chan && ChannelReady(df, epoch, chan, c)
    ensures ChannelGroupShape(df, epoch, latency, chan, c, CsvGroup(df, epoch, latency, c.s, Rows(df, chan, c)).0)
  {
    ChannelGroupLayoutHolds(df, epoch, latency, chan, c);
    ChannelGroupDataHolds(df, epoch, latency, chan, c);
  }

  lemma ChannelGroupLayoutHolds(df: Table, epoch: string -> Option<real>, latency: DType, chan: seq<Value>, c: Value)
    requires c in chan && ChannelReady(df, epoch, chan, c)
    ensures ChannelGroupLayout(df, latency, chan, c, CsvGroup(df, epoch, latency, c.s, Rows(df, chan, c)).0)
  {
    var rows := Rows(df, chan, c);
    assert HasColumn(df, "data latency");
    ChannelRows(df, chan, c, "data latency");
    ChannelFirstRow(df, chan, c, "data latency");
    CsvGroupContents(df, epoch, latency, c.s, rows);
  }

  lemma ChannelGroupDataHolds(df: Table, epoch: string -> Option<real>, latency: DType, chan: seq<Value>, c: Value)
    requires c in chan && ChannelReady(df, epoch, chan, c)
    ensures ChannelGroupData(df, epoch, chan, c, CsvGroup(df, epoch, latency, c.s, Rows(df, chan, c)).0)
  {
    var rows := Rows(df, chan, c);
    assert HasColumn(df, "timestamp") && HasColumn(df, "data latency");
    var m := Mask(chan, c);
    var rts, rdl := Keep(Column(df, "timestamp").value, m), Keep(Column(df, "data latency").value, m);
    var g := CsvGroup(df, epoch, latency, c.s, rows).0;
    assert KeptData(epoch, rts, rdl, g) by {
      ChannelRows(df, chan, c, "timestamp");
      ChannelRows(df, chan, c, "data latency");
      assert Column(rows, "timestamp").value == rts && Column(rows, "data latency").value == rdl;
      CsvGroupContents(df, epoch, latency, c.s, rows);
    }
    DataAtPositions(df, epoch, chan, c, g);
  }

  /** The timestamp and samples datasets of `g` are computed from the cells
      `rts` and `rdl`, one entry per cell. */
  ghost predicate KeptData(epoch: string -> Option<real>, rts: seq<Value>, rdl: seq<Value>, g: Group)
  {
    && |g.datasets| == 3 && |g.datasets[0].data| == |g.datasets[2].data| == |rts| == |rdl|
    && (forall i :: 0 <= i < |rts| ==>
          rts[i].Str? && epoch(rts[i].s).Some? && g.datasets[0].data[i] == Num(epoch(rts[i].s).value))
    && (forall i :: 0 <= i < |rdl| ==> rdl[i].Str? && g.datasets[2].data[i] == Str(SamplesText(rdl[i].s)))
  }

  /** Datasets computed from the kept rows of `c` are, entry by entry, the
      values computed from the frame rows where `c` occurs. */
  lemma DataAtPositions(df: Table, epoch: string -> Option<real>, chan: seq<Value>, c: Value, g: Group)
    requires |chan| == Height(df) && HasColumn(df, "timestamp") && HasColumn(df, "data latency")
    requires KeptData(epoch, Keep(Column(df, "timestamp").value, Mask(chan, c)),
                      Keep(Column(df, "data latency").value, Mask(chan, c)), g)
    ensures ChannelGroupData(df, epoch, chan, c, g)
  {
    var ts, dl := Column(df, "timestamp").value, Column(df, "data latency").value;
    var m := Mask(chan, c);
    var ps := Positions(m);
    ChannelRows(df, chan, c, "timestamp");
    ChannelRows(df, chan, c, "data latency");
    var rts, rdl := Keep(ts, m), Keep(dl, m);
    forall k | 0 <= k < |ps|
      ensures chan[ps[k]] == c && ts[ps[k]].Str? && dl[ps[k]].Str?
      ensures epoch(ts[ps[k]].s).Some? && g.datasets[0].data[k] == Num(epoch(ts[ps[k]].s).value)
      ensures g.datasets[2].data[k] == Str(SamplesText(dl[ps[k]].s))
    {
      assert rts[k] == ts[ps[k]] && rdl[k] == dl[ps[k]];
    }
  }

  /** In a finished archive, the group of the `i`-th distinct channel is the
      body's group for that channel. */
  lemma CsvChannelGroup(df: Table, epoch: string -> Option<real>, latency: DType, i: nat)
    requires HasColumn(df, "channel")
    requires CsvArchive(df, epoch, latency).1.Pass?
    requires i < |Unique(Column(df, "channel").value)|
    ensures i < |CsvArchive(df, epoch, latency).0|
    ensures var chan := Column(df, "channel").value;
      ChannelGroupShape(df, epoch, latency, chan, Unique(chan)[i], CsvArchive(df, epoch, latency).0[i])
  {
    var chan := Column(df, "channel").value;
    var cs := Unique(chan);
    CsvArchivePass(df, epoch, latency);
    CsvArchiveGroups(df, epoch, latency);
    assert cs[i] in chan by { assert cs[i] in cs; }
    ChannelGroupContents(df, epoch, latency, chan, cs[i]);
  }

  /** A data-latency text without `/` anywhere in the frame aborts the
      archive: the rate of its row cannot be read. */
  lemma MissingSlashAborts(df: Table, epoch: string -> Option<real>, latency: DType, row: nat)
    requires HasColumn(df, "channel") && HasColumn(df, "data latency") && row < Height(df)
    requires Column(df, "data latency").value[row].Str? && '/' !in Column(df, "data latency").value[row].s
    ensures CsvArchive(df, epoch, latency).1.Fail?
  {
    CsvArchivePass(df, epoch, latency);
    var chan := Column(df, "channel").value;
    var dl := Column(df, "data latency").value;
    var cs, c := Unique(chan), chan[row];
    if CsvArchive(df, epoch, latency).1.Pass? {
      assert c in cs;
      var i :| 0 <= i < |cs| && cs[i] == c;
      var rows := Rows(df, chan, c);
      assert CsvReady(df, epoch, rows);
      ChannelRows(df, chan, c, "data latency");
      KeepHas(dl, Mask(chan, c), row);
    }
  }

  /** A frame with the writer's four columns and the single row `t`, `n`,
      `l`, `d`. */
  function OneRowFrame(t: Value, n: Value, l: Value, d: Value): Table
  {
    Frame(["timestamp", "channel", "network latency", "data latency"], [[t], [n], [l], [d]])
  }

  /** The columns of a one-row frame. */
  lemma OneRowColumns(t: Value, n: Value, l: Value, d: Value)
    ensures Column(OneRowFrame(t, n, l, d), "timestamp") == Ok([t])
    ensures Column(OneRowFrame(t, n, l, d), "channel") == Ok([n])
    ensures Column(OneRowFrame(t, n, l, d), "network latency") == Ok([l])
    ensures Column(OneRowFrame(t, n, l, d), "data latency") == Ok([d])
  {
    var names := OneRowFrame(t, n, l, d).names;
    assert LabelIndex(names, "timestamp") == 0;
    assert LabelIndex(names, "channel") == 1 by { assert names[0] != "channel"; }
    assert LabelIndex(names, "network latency") == 2 by { assert names[0] != "network latency" && names[1] != "network latency"; }
    assert LabelIndex(names, "data latency") == 3 by {
      assert names[0] != "data latency" && names[1] != "data latency" && names[2] != "data latency";
    }
  }

  /** The group the writer leaves for the single row of a one-row frame:
      named after the channel, its `sample rate` the row's rate text, its
      datasets the row's parsed time, latency cell and samples text. */
  function OneRowGroup(epoch: string -> Option<real>, latency: DType, t: string, n: string, l: Value, d: string): Group
    requires epoch(t).Some? && '/' in d
  {
    Group(n,
          [Attribute("sample rate", Str(RateText(d).value), UInt16)],
          [Dataset("timestamp", [Num(epoch(t).value)], Float64, Gzip(9)),
           Dataset("network latency", [l], latency, Gzip(9)),
           Dataset("samples", [Str(SamplesText(d))], UInt16, Gzip(9))])
  }

  /** The single row of a one-row frame: the time text `t`, the channel
      `n`, the latency cell `l` and the data-latency text `d`. */
  predicate OneRow(df: Table, t: string, n: string, l: Value, d: string)
  {
    && Column(df, "timestamp") == Ok([Str(t)])
    && Column(df, "channel") == Ok([Str(n)])
    && Column(df, "network latency") == Ok([l])
    && Column(df, "data latency") == Ok([Str(d)])
  }

  /** On a one-row frame whose time text parses and whose data-latency text
      holds `/`, the writer runs to the end and leaves exactly one group. */
  lemma OneRowArchive(df: Table, epoch: string -> Option<real>, latency: DType, t: string, n: string, l: Value, d: string)
    requires OneRow(df, t, n, l, d) && epoch(t).Some? && '/' in d
    ensures CsvArchive(df, epoch, latency) == ([OneRowGroup(epoch, latency, t, n, l, d)], Pass)
  {
    var c := Str(n);
    assert Hashable([c]);
    assert Unique([c]) == [c];
    assert Mask([c], c) == [true];
    SelectAll(df, [true]);
    assert Rows(df, [c], c) == df;
    OneRowGroupSteps(df, epoch, latency, t, n, l, d);
    OneRowLoop(df, CsvBody(df, epoch, latency), n, OneRowGroup(epoch, latency, t, n, l, d));
  }

  /** The loop over a single string channel leaves the one group its pass
      writes. */
  lemma OneRowLoop(df: Table, body: (string, Table) -> (Group, Outcome), n: string, g: Group)
    requires Height(df) == 1
    requires body(n, Rows(df, [Str(n)], Str(n))) == (g, Pass)
    ensures WriteChannels(df, [Str(n)], [Str(n)], body) == ([g], Pass)
  {
    var c := Str(n);
    assert [c][..0] == [];
    assert WriteChannels(df, [c], [c], body) == WriteChannel(df, [c], [], c, body);
    assert [] + [g] == [g];
  }

  /** The loop body on the single row, step by step. */
  lemma OneRowGroupSteps(df: Table, epoch: string -> Option<real>, latency: DType, t: string, n: string, l: Value, d: string)
    requires OneRow(df, t, n, l, d) && epoch(t).Some? && '/' in d
    ensures CsvGroup(df, epoch, latency, n, df) == (OneRowGroup(epoch, latency, t, n, l, d), Pass)
  {
    OneRowPrefix(df, epoch, latency, t, n, l);
    OneRowFinish(df, epoch, latency, t, n, l, d);
  }

  /** The rates step on the single row completes the group. */
  lemma OneRowFinish(df: Table, epoch: string -> Option<real>, latency: DType, t: string, n: string, l: Value, d: string)
    requires Column(df, "data latency") == Ok([Str(d)]) && epoch(t).Some? && '/' in d
    ensures CsvRates(OneRowLatencyGroup(epoch, latency, t, n, l), df) == (OneRowGroup(epoch, latency, t, n, l, d), Pass)
  {
    var g2 := OneRowLatencyGroup(epoch, latency, t, n, l);
    assert DatasetNames(g2.datasets) == ["timestamp", "network latency"];
    var ds := Dataset("samples", [Str(SamplesText(d))], UInt16, Gzip(9));
    var want := OneRowGroup(epoch, latency, t, n, l, d);
    assert want.datasets == [g2.datasets[0], g2.datasets[1], ds];
    assert g2.datasets + [ds] == want.datasets;
    OneRowRates(g2, df, d);
  }

  /** The group after the timestamp and latency steps on the single row. */
  function OneRowLatencyGroup(epoch: string -> Option<real>, latency: DType, t: string, n: string, l: Value): Group
    requires epoch(t).Some?
  {
    Group(n, [], [Dataset("timestamp", [Num(epoch(t).value)], Float64, Gzip(9)), Dataset("network latency", [l], latency, Gzip(9))])
  }

  /** The timestamp and latency steps on the single row run to the end and
      leave the rates step to do. */
  lemma OneRowPrefix(df: Table, epoch: string -> Option<real>, latency: DType, t: string, n: string, l: Value)
    requires Column(df, "timestamp") == Ok([Str(t)]) && Column(df, "network latency") == Ok([l]) && epoch(t).Some?
    ensures CsvGroup(df, epoch, latency, n, df) == CsvRates(OneRowLatencyGroup(epoch, latency, t, n, l), df)
  {
    var dt := Dataset("timestamp", [Num(epoch(t).value)], Float64, Gzip(9));
    var dn := Dataset("network latency", [l], latency, Gzip(9));
    var g1, g2 := Group(n, [], [dt]), Group(n, [], [dt, dn]);
    OneRowTimes(df, epoch, t, n);
    assert DatasetNames([dt]) == ["timestamp"];
    OneRowLatency(g1, df, latency, l);
    assert [dt] + [dn] == [dt, dn];
    CsvGroupThrough(df, epoch, latency, n, df, g1, g2);
  }

  /** Once the timestamp and latency steps have run to the end, the body is
      the rates step on the group they left. */
  lemma CsvGroupThrough(df: Table, epoch: string -> Option<real>, latency: DType, name: string, rows: Table, g1: Group, g2: Group)
    requires CsvTimes(Group(name, [], []), rows, epoch) == (g1, Pass)
    requires CsvLatency(g1, df, latency) == (g2, Pass)
    ensures CsvGroup(df, epoch, latency, name, rows) == CsvRates(g2, rows)
  {
  }

  lemma OneRowTimes(df: Table, epoch: string -> Option<real>, t: string, n: string)
    requires Column(df, "timestamp") == Ok([Str(t)]) && epoch(t).Some?
    ensures CsvTimes(Group(n, [], []), df, epoch) ==
      (Group(n, [], [Dataset("timestamp", [Num(epoch(t).value)], Float64, Gzip(9))]), Pass)
  {
    var cells := [Str(t)];
    EpochsSpec(cells, epoch);
    var d := Dataset("timestamp", [Num(epoch(t).value)], Float64, Gzip(9));
    assert cells[0] == Str(t);
    assert Epochs(cells, epoch).Ok?;
    var ts := Epochs(cells, epoch).value;
    assert |ts| == 1 && ts[0] == Num(epoch(t).value);
    assert ts == [Num(epoch(t).value)];
    assert [] + [d] == [d];
  }

  lemma OneRowLatency(g: Group, df: Table, latency: DType, l: Value)
    requires "network latency" !in DatasetNames(g.datasets) && Column(df, "network latency") == Ok([l])
    ensures CsvLatency(g, df, latency) == (g.(datasets := g.datasets + [Dataset("network latency", [l], latency, Gzip(9))]), Pass)
  {
  }

  lemma OneRowRates(g: Group, df: Table, d: string)
    requires g.attrs == [] && "samples" !in DatasetNames(g.datasets)
    requires Column(df, "data latency") == Ok([Str(d)]) && '/' in d
    ensures CsvRates(g, df) ==
      (Group(g.name, [Attribute("sample rate", Str(RateText(d).value), UInt16)],
             g.datasets + [Dataset("samples", [Str(SamplesText(d))], UInt16, Gzip(9))]), Pass)
  {
    MapListOne(Str(d), CellSamples);
    MapListOne(Str(d), CellRate);
    CellRateOk(Str(d));
    var a := Attribute("sample rate", Str(RateText(d).value), UInt16);
    assert Put([], a) == [a];
  }

  /** The unit test's frame: one row of the channel `QW.QCN08.9J.HNZ`,
      with a latency text `2.3` and the data latency `=556/100+2.3`. On it
      the writer leaves one group, named after the channel, whose
      `sample rate` is "100", whose first timestamp is the epoch of the
      row's time text, and which holds the samples text "556". */
  lemma TestFrameArchive(epoch: string -> Option<real>, e: real)
    requires epoch("2022/02/13 00:00:05.430000") == Some(e)
    ensures var df := OneRowFrame(Str("2022/02/13 00:00:05.430000"), Str("QW.QCN08.9J.HNZ"), Str("2.3"), Str("=556/100+2.3"));
      CsvArchive(df, epoch, Float32) ==
      ([Group("QW.QCN08.9J.HNZ",
              [Attribute("sample rate", Str("100"), UInt16)],
              [Dataset("timestamp", [Num(e)], Float64, Gzip(9)),
               Dataset("network latency", [Str("2.3")], Float32, Gzip(9)),
               Dataset("samples", [Str("556")], UInt16, Gzip(9))])],
       Pass)
  {
    ExampleCell();
    var df := OneRowFrame(Str("2022/02/13 00:00:05.430000"), Str("QW.QCN08.9J.HNZ"), Str("2.3"), Str("=556/100+2.3"));
    OneRowColumns(Str("2022/02/13 00:00:05.430000"), Str("QW.QCN08.9J.HNZ"), Str("2.3"), Str("=556/100+2.3"));
    OneRowArchive(df, epoch, Float32, "2022/02/13 00:00:05.430000", "QW.QCN08.9J.HNZ", Str("2.3"), "=556/100+2.3");
  }
}
