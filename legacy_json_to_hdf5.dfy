/**
  The first version of `json_to_hdf5`, kept in the repository's top-level
  `utilities` package. Its `json_to_table` is the current one, line for
  line. Its writer walks the distinct channels like the current one, creates
  each channel's group and then converts the channel's `timestamp` column
  with the format `%Y-%m-%dT%H:%M:%S.%fZ` and prints the result; it stores
  nothing in the group. The table `json_to_table` builds has no `timestamp`
  column, so on any report with an interval the writer raises KeyError right
  after creating the first group.
 */
module LegacyJsonToHdf5 {
  import opened PyValues
  import opened Frames
  import opened Hdf5
  import opened Timestamps
  import opened JsonToHdf5

  /** `list(map(strptime(...).timestamp(), channel_df['timestamp'].tolist()))`
      with the parse of the `Z`-suffixed format as `epoch`. */
  function StartTimes(rows: Table, epoch: string -> Option<real>): (r: Result<seq<Value>>)
    ensures !HasColumn(rows, "timestamp") ==> r == Err(KeyError("timestamp"))
    ensures r.Ok? ==> |r.value| == Height(rows)
  {
    var ts :- Column(rows, "timestamp");
    Epochs(ts, epoch)
  }

  /** The start times exist exactly when the rows have a timestamp column
      of texts the parse accepts, and then they are the parsed times in row
      order. */
  lemma StartTimesSpec(rows: Table, epoch: string -> Option<real>)
    ensures StartTimes(rows, epoch).Ok? <==> (HasColumn(rows, "timestamp") &&
      forall i :: 0 <= i < Height(rows) ==> Column(rows, "timestamp").value[i].Str? && epoch(Column(rows, "timestamp").value[i].s).Some?)
    ensures StartTimes(rows, epoch).Ok? ==> forall i :: 0 <= i < Height(rows) ==>
      StartTimes(rows, epoch).value[i] == Num(epoch(Column(rows, "timestamp").value[i].s).value)
  {
    if HasColumn(rows, "timestamp") {
      EpochsSpec(Column(rows, "timestamp").value, epoch);
    }
  }

  /** The loop body: the group is created and stays empty; the converted
      times are only printed, so what matters of them is whether they raise. */
  function LegacyGroup(name: string, rows: Table, epoch: string -> Option<real>): (r: (Group, Outcome))
    ensures r.0 == Group(name, [], [])
    ensures r.1.Pass? <==> StartTimes(rows, epoch).Ok?
    ensures r.1.Fail? ==> r.1.error == StartTimes(rows, epoch).error
  {
    match StartTimes(rows, epoch)
    case Err(e) => (Group(name, [], []), Fail(e))
    case Ok(_) => (Group(name, [], []), Pass)
  }

  /** The loop body as a function of the channel name and its rows. */
  function LegacyBody(epoch: string -> Option<real>): (body: (string, Table) -> (Group, Outcome))
    ensures forall n, t :: body(n, t).0.name == n
  {
    (n: string, t: Table) => LegacyGroup(n, t, epoch)
  }

  /** The groups the legacy `json_to_hdf5` leaves in the file and how it
      ended: a frame without a `channel` column, or with a channel cell
      `unique()` cannot hash, raises before any group exists. */
  function LegacyArchive(df: Table, epoch: string -> Option<real>): (seq<Group>, Outcome)
  {
    match Column(df, "channel")
    case Err(e) => ([], Fail(e))
    case Ok(chan) =>
      if !Hashable(chan) then ([], Fail(TypeError))
      else WriteChannels(df, chan, Unique(chan), LegacyBody(epoch))
  }

  /** The legacy `json_to_hdf5`: a fresh file, one loop pass per distinct
      channel. */
  method LegacyJsonToHdf5(df: Table, epoch: string -> Option<real>) returns (file: File, o: Outcome)
    ensures fresh(file) && file.Valid()
    ensures (file.groups, o) == LegacyArchive(df, epoch)
  {
    file := new File.Create();
    var chan := Column(df, "channel");
    if chan.Err? {
      return file, Fail(chan.error);
    }
    if !Hashable(chan.value) {
      return file, Fail(TypeError);
    }
    o := WriteLegacyChannels(file, df, chan.value, Unique(chan.value), epoch);
  }

  /** The loop over the distinct channels `cs`, on an empty file. */
  method WriteLegacyChannels(file: File, df: Table, chan: seq<Value>, cs: seq<Value>, epoch: string -> Option<real>)
    returns (o: Outcome)
    requires |chan| == Height(df) && file.Valid() && file.groups == []
    modifies file
    ensures file.Valid()
    ensures file.groups == WriteChannels(df, chan, cs, LegacyBody(epoch)).0
    ensures o == WriteChannels(df, chan, cs, LegacyBody(epoch)).1
  {
    ghost var body := LegacyBody(epoch);
    var i := 0;
    o := Pass;
    while i < |cs| && o.Pass?
      invariant 0 <= i <= |cs|
      invariant file.Valid()
      invariant file.groups == WriteChannels(df, chan, cs[..i], body).0
      invariant o == WriteChannels(df, chan, cs[..i], body).1
    {
      WriteChannelsSnoc(df, chan, cs, i, body);
      o := WriteLegacyChannel(file, df, chan, cs[i], epoch);
      i := i + 1;
    }
    if i < |cs| {
      WriteChannelsStops(df, chan, cs, i, body);
    } else {
      assert cs[..i] == cs;
    }
  }

  /** One pass of the loop: the channel's rows are selected, its group is
      created and its start times are converted. */
  method WriteLegacyChannel(file: File, df: Table, chan: seq<Value>, c: Value, epoch: string -> Option<real>)
    returns (o: Outcome)
    requires |chan| == Height(df) && file.Valid()
    modifies file
    ensures file.Valid()
    ensures file.groups == WriteChannel(df, chan, old(file.groups), c, LegacyBody(epoch)).0
    ensures o == WriteChannel(df, chan, old(file.groups), c, LegacyBody(epoch)).1
  {
    var rows := Rows(df, chan, c);
    if c.Null? {
      // `create_group(None)`: an anonymous group, linked nowhere in `file`;
      // the start times of the (no) selected rows are still converted.
      var ts := StartTimes(rows, epoch);
      o := if ts.Err? then Fail(ts.error) else Pass;
      assert LegacyBody(epoch)("", rows) == LegacyGroup("", rows, epoch);
      return;
    }
    if !c.Str? {
      return Fail(TypeError);
    }
    o := file.CreateGroup(c.s);
    if o.Pass? {
      var ts := StartTimes(rows, epoch);
      if ts.Err? {
        o := Fail(ts.error);
      }
      assert LegacyBody(epoch)(c.s, rows) == LegacyGroup(c.s, rows, epoch);
    }
  }

  /** The groups of the archive: none, with TypeError, when a channel cell
      cannot be hashed; otherwise empty groups named after the distinct
      channels other than `None` (whose group is anonymous), in order of
      first appearance. */
  lemma LegacyArchiveGroups(df: Table, epoch: string -> Option<real>)
    requires HasColumn(df, "channel")
    ensures var chan := Column(df, "channel").value; var cs := Linked(Unique(chan)); var r := LegacyArchive(df, epoch);
      && (!Hashable(chan) ==> r == ([], Fail(TypeError)))
      && |r.0| <= |cs|
      && (r.1.Pass? ==> |r.0| == |cs|)
      && (forall i :: 0 <= i < |r.0| ==> cs[i].Str? && r.0[i] == Group(cs[i].s, [], []))
  {
    var chan := Column(df, "channel").value;
    WriteChannelsGroups(df, chan, Unique(chan), LegacyBody(epoch));
  }

  /** Channel `c` of the channel column `chan` is a string or `None` whose
      rows have start times that parse; `None` selects no row, so it only
      needs the `timestamp` column. */
  predicate LegacyChannelReady(df: Table, epoch: string -> Option<real>, chan: seq<Value>, c: Value)
  {
    |chan| == Height(df) && (c.Str? || c.Null?) && StartTimes(Rows(df, chan, c), epoch).Ok?
  }

  /** The frame has a channel column and every distinct channel is ready. */
  predicate LegacyArchiveReady(df: Table, epoch: string -> Option<real>)
  {
    && HasColumn(df, "channel")
    && var chan := Column(df, "channel").value;
       forall i :: 0 <= i < |Unique(chan)| ==> LegacyChannelReady(df, epoch, chan, Unique(chan)[i])
  }

  /** The archive is written to the end exactly when the frame has a channel
      column and every distinct channel is a string or `None` whose rows
      have start times that parse. */
  lemma LegacyArchivePass(df: Table, epoch: string -> Option<real>)
    ensures LegacyArchive(df, epoch).1.Pass? <==> LegacyArchiveReady(df, epoch)
  {
    if HasColumn(df, "channel") {
      var chan := Column(df, "channel").value;
      if LegacyArchiveReady(df, epoch) {
        forall i | 0 <= i < |Unique(chan)| ensures Unique(chan)[i].Str? || Unique(chan)[i].Null? {
          assert LegacyChannelReady(df, epoch, chan, Unique(chan)[i]);
        }
        UniqueHashable(chan);
      }
      if Hashable(chan) {
        var cs, body := Unique(chan), LegacyBody(epoch);
        var ready := (c: Value) => LegacyChannelReady(df, epoch, chan, c);
        forall c: Value | c.Str? || c.Null? ensures BodyOf(df, chan, c, body).1.Pass? <==> ready(c) {
          assert BodyOf(df, chan, c, body) == LegacyGroup(if c.Str? then c.s else "", Rows(df, chan, c), epoch);
        }
        WriteChannelsPassWhen(df, chan, cs, body, ready);
        assert forall i :: 0 <= i < |cs| ==> ready(cs[i]) == LegacyChannelReady(df, epoch, chan, cs[i]);
      }
    }
  }

  /** On the table `json_to_table` builds from interval rows `rows`, the
      legacy writer never gets past the first channel: with no rows it
      writes nothing; when some channel is a list or a dictionary, `unique()`
      raises TypeError before any group exists; otherwise, when the first
      row's channel is a string it creates that channel's empty group and
      raises KeyError for `timestamp`; when it is `None` the group is
      anonymous, so the file stays empty, and the same KeyError is raised;
      and when it is anything else, `create_group` rejects the channel with
      TypeError. */
  lemma LegacyOnTable(rows: seq<Row>, epoch: string -> Option<real>)
    ensures |rows| == 0 ==> LegacyArchive(ToFrame(rows), epoch) == ([], Pass)
    ensures |rows| > 0 && HashableChannels(rows) && rows[0].channel.Str? ==>
      LegacyArchive(ToFrame(rows), epoch) == ([Group(rows[0].channel.s, [], [])], Fail(KeyError("timestamp")))
    ensures |rows| > 0 && HashableChannels(rows) && rows[0].channel.Null? ==>
      LegacyArchive(ToFrame(rows), epoch) == ([], Fail(KeyError("timestamp")))
    ensures |rows| > 0 && (!HashableChannels(rows) || (!rows[0].channel.Str? && !rows[0].channel.Null?)) ==>
      LegacyArchive(ToFrame(rows), epoch) == ([], Fail(TypeError))
  {
    var t := ToFrame(rows);
    FrameColumn(rows, 0);
    var chan := FieldColumn(rows, 0);
    assert Hashable(chan) <==> HashableChannels(rows);
    if |rows| > 0 && Hashable(chan) {
      LegacyFirstChannel(rows, epoch);
      var c := rows[0].channel;
      var sel := Rows(t, chan, c);
      if c.Str? {
        FrameLabels(rows);
        assert !HasColumn(sel, "timestamp");
        assert LegacyBody(epoch)(c.s, sel) == LegacyGroup(c.s, sel, epoch);
        assert GroupNames([]) == [];
        assert [] + [Group(c.s, [], [])] == [Group(c.s, [], [])];
      } else if c.Null? {
        FrameLabels(rows);
        assert !HasColumn(sel, "timestamp");
        assert LegacyBody(epoch)("", sel) == LegacyGroup("", sel, epoch);
      }
    } else if |rows| == 0 {
      assert Unique(chan) == [];
    }
  }

  /** No row's channel is a list or a dictionary. */
  predicate HashableChannels(rows: seq<Row>)
  {
    forall i :: 0 <= i < |rows| ==> !rows[i].channel.List? && !rows[i].channel.Dict?
  }

  /** On a table with rows, the legacy archive is what the loop leaves after
      the first distinct channel, which is the first row's channel, as soon
      as that pass raises. */
  lemma LegacyFirstChannel(rows: seq<Row>, epoch: string -> Option<real>)
    requires |rows| > 0 && Hashable(FieldColumn(rows, 0))
    ensures var t, chan := ToFrame(rows), FieldColumn(rows, 0);
      && |chan| == Height(t)
      && (WriteChannel(t, chan, [], rows[0].channel, LegacyBody(epoch)).1.Fail? ==>
            LegacyArchive(t, epoch) == WriteChannel(t, chan, [], rows[0].channel, LegacyBody(epoch)))
  {
    var t := ToFrame(rows);
    FrameColumn(rows, 0);
    var chan := FieldColumn(rows, 0);
    assert Column(t, "channel") == Ok(chan);
    var cs, body := Unique(chan), LegacyBody(epoch);
    UniqueHead(chan);
    assert cs[0] == rows[0].channel;
    assert WriteChannels(t, chan, cs[..1], body) == WriteChannel(t, chan, [], cs[0], body) by {
      assert cs[..1][..0] == [];
    }
    if WriteChannel(t, chan, [], cs[0], body).1.Fail? {
      WriteChannelsStops(t, chan, cs, 1, body);
    }
  }
}
