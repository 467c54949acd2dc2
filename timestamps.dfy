/**
  The conversion of a column of time texts to Unix timestamps,
  `list(map(lambda item: datetime.strptime(item, fmt).timestamp(), cells))`.
  Parsing against the format and the local time zone are outside the model:
  the parse is a parameter `epoch` giving the timestamp of a text, or None
  when the text does not match the format (strptime raises ValueError).
 */
module Timestamps {
  import opened PyValues
  import opened PyStrings

  /** The timestamp of one cell: strptime rejects a value that is not a
      string with TypeError. */
  function EpochOf(v: Value, epoch: string -> Option<real>): Result<Value>
  {
    if !v.Str? then Err(TypeError)
    else if epoch(v.s).None? then Err(ValueError)
    else Ok(Num(epoch(v.s).value))
  }

  /** The timestamps of a column, converted left to right: the first cell
      that fails raises. */
  function Epochs(cells: seq<Value>, epoch: string -> Option<real>): (r: Result<seq<Value>>)
    ensures r.Ok? ==> |r.value| == |cells|
  {
    MapList(cells, (v: Value) => EpochOf(v, epoch))
  }

  /** The timestamps of a column exist exactly when every cell is a string
      the parse accepts, and then they are the parsed times in order;
      otherwise the exception is that of the first cell that fails. */
  lemma EpochsSpec(cells: seq<Value>, epoch: string -> Option<real>)
    ensures Epochs(cells, epoch).Ok? <==> forall i :: 0 <= i < |cells| ==> cells[i].Str? && epoch(cells[i].s).Some?
    ensures Epochs(cells, epoch).Ok? ==> forall i :: 0 <= i < |cells| ==> Epochs(cells, epoch).value[i] == Num(epoch(cells[i].s).value)
    ensures Epochs(cells, epoch).Err? ==> FirstFailure(cells, (v: Value) => EpochOf(v, epoch), Epochs(cells, epoch).error)
  {
    MapListSpec(cells, (v: Value) => EpochOf(v, epoch));
  }

  /** `item[:26]`: the first 26 characters of an ISO 8601 time, which keep
      the microseconds and drop the nanosecond digits and the zone letter
      that strptime's `%f` cannot read. */
  const EndTimeWidth: nat := 26

  /** The timestamp of one cell after truncation; slicing a value that is
      not a string raises TypeError, and a slice the parse rejects raises
      ValueError. */
  function EndEpochOf(v: Value, epoch: string -> Option<real>): Result<Value>
  {
    if !v.Str? then Err(TypeError)
    else EpochOf(Str(Prefix(v.s, EndTimeWidth)), epoch)
  }

  /** The timestamps of a column of end times, each truncated first. */
  function EndEpochs(cells: seq<Value>, epoch: string -> Option<real>): (r: Result<seq<Value>>)
    ensures r.Ok? ==> |r.value| == |cells|
  {
    MapList(cells, (v: Value) => EndEpochOf(v, epoch))
  }

  /** The end timestamps of a column exist exactly when every cell is a
      string whose first 26 characters the parse accepts, and then they are
      those parsed times in order; otherwise the exception is that of the
      first cell that fails. */
  lemma EndEpochsSpec(cells: seq<Value>, epoch: string -> Option<real>)
    ensures EndEpochs(cells, epoch).Ok? <==> forall i :: 0 <= i < |cells| ==> cells[i].Str? && epoch(Prefix(cells[i].s, EndTimeWidth)).Some?
    ensures EndEpochs(cells, epoch).Ok? ==> forall i :: 0 <= i < |cells| ==> EndEpochs(cells, epoch).value[i] == Num(epoch(Prefix(cells[i].s, EndTimeWidth)).value)
    ensures EndEpochs(cells, epoch).Err? ==> FirstFailure(cells, (v: Value) => EndEpochOf(v, epoch), EndEpochs(cells, epoch).error)
  {
    MapListSpec(cells, (v: Value) => EndEpochOf(v, epoch));
  }

  /** Truncation keeps a time that is already short, and cuts a longer one
      to its first 26 characters. */
  lemma TruncationShape(s: string)
    ensures |s| <= EndTimeWidth ==> Prefix(s, EndTimeWidth) == s
    ensures |s| > EndTimeWidth ==> |Prefix(s, EndTimeWidth)| == EndTimeWidth && StartsWith(s, Prefix(s, EndTimeWidth))
  {
  }

  /** The end time of the converter's own sample report loses its last three
      nanosecond digits and its zone letter. */
  lemma TruncationExample()
    ensures Prefix("2022-02-13T00:00:00.999988426Z", EndTimeWidth) == "2022-02-13T00:00:00.999988"
  {
  }
}
