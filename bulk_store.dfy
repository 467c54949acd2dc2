/**
  `bulk_store`: every file of a list is handed to the CSV or the JSON
  converter according to its name, and a name that is neither is reported
  with a warning. The converters themselves and the logging call are
  outside this module: what the loop does is recorded as a trace of
  actions, one per file, in list order.
 */
module BulkStore {
  import opened PyStrings

  /** What the loop does for one file: `store_csv(filename, destination)`,
      `store_json(filename, destination)`, or `logging.warning(message)`. */
  datatype Action =
    | StoreCsv(filename: string, destination: string)
    | StoreJson(filename: string, destination: string)
    | Warning(message: string)

  /** The warning logged for a file that is neither CSV nor JSON. */
  function WarningText(filename: string): (m: string)
    ensures StartsWith(m, "Non csv/json file in list of files: ")
    ensures m[|"Non csv/json file in list of files: "|..] == filename
  {
    "Non csv/json file in list of files: " + filename
  }

  /** The branch the loop body takes for `filename`: `'.csv' in filename`
      is tested first, then `'.json' in filename`; both are substring tests
      anywhere in the name. */
  function Dispatch(filename: string, destination: string): (a: Action)
    ensures a.StoreCsv? || a.StoreJson? ==> a.filename == filename && a.destination == destination
  {
    if Contains(filename, ".csv") then StoreCsv(filename, destination)
    else if Contains(filename, ".json") then StoreJson(filename, destination)
    else Warning(WarningText(filename))
  }

  /** The actions of the whole loop, one per file, in list order. */
  function Trace(files: seq<string>, destination: string): (t: seq<Action>)
    ensures |t| == |files|
  {
    if files == [] then [] else Trace(files[..|files| - 1], destination) + [Dispatch(files[|files| - 1], destination)]
  }

  /** `bulk_store(files, destination)`: the loop over the files. */
  method BulkStore(files: seq<string>, destination: string) returns (trace: seq<Action>)
    ensures trace == Trace(files, destination)
    ensures |trace| == |files|
    ensures forall i :: 0 <= i < |files| ==> trace[i] == Dispatch(files[i], destination)
  {
    trace := [];
    var i := 0;
    while i < |files|
      invariant 0 <= i <= |files|
      invariant trace == Trace(files[..i], destination)
    {
      assert files[..i + 1][..i] == files[..i];
      trace := trace + [Dispatch(files[i], destination)];
      i := i + 1;
    }
    assert files[..i] == files;
    TraceAt(files, destination);
  }

  /** The trace holds, at position `i`, the action for the `i`-th file. */
  lemma {:induction false} TraceAt(files: seq<string>, destination: string)
    ensures forall i :: 0 <= i < |files| ==> Trace(files, destination)[i] == Dispatch(files[i], destination)
  {
    if files != [] {
      var init := files[..|files| - 1];
      TraceAt(init, destination);
      assert forall i :: 0 <= i < |init| ==> init[i] == files[i];
    }
  }

  /** Storing two lists one after the other does what storing their
      concatenation does. */
  lemma {:induction false} TraceAppend(a: seq<string>, b: seq<string>, destination: string)
    ensures Trace(a + b, destination) == Trace(a, destination) + Trace(b, destination)
    decreases |b|
  {
    if b != [] {
      var init := b[..|b| - 1];
      assert (a + b)[..|a + b| - 1] == a + init;
      assert (a + b)[|a + b| - 1] == b[|b| - 1];
      TraceAppend(a, init, destination);
    } else {
      assert a + b == a;
    }
  }

  /** A name holding `.csv` goes to the CSV converter, even when it holds
      `.json` too. */
  lemma CsvFirst(filename: string, destination: string)
    requires Contains(filename, ".csv")
    ensures Dispatch(filename, destination) == StoreCsv(filename, destination)
  {
  }

  /** A name holding `.json` and not `.csv` goes to the JSON converter. */
  lemma JsonSecond(filename: string, destination: string)
    requires Contains(filename, ".json") && !Contains(filename, ".csv")
    ensures Dispatch(filename, destination) == StoreJson(filename, destination)
  {
  }

  /** Exactly the names holding neither `.csv` nor `.json` are reported, with
      the name in the message. */
  lemma OtherWarns(filename: string, destination: string)
    ensures Dispatch(filename, destination).Warning? <==> !Contains(filename, ".csv") && !Contains(filename, ".json")
    ensures Dispatch(filename, destination).Warning? ==>
      Dispatch(filename, destination).message == "Non csv/json file in list of files: " + filename
  {
  }

  /** The test is for the extension anywhere in the name, not at its end:
      `a + ".csv" + b` goes to the CSV converter whatever `b` is. */
  lemma ExtensionAnywhere(a: string, b: string, destination: string)
    ensures Dispatch(a + ".csv" + b, destination) == StoreCsv(a + ".csv" + b, destination)
  {
    var f := a + ".csv" + b;
    assert f[|a|..|a| + 4] == ".csv";
    assert OccursAt(f, ".csv", |a|);
  }

  /** A list without a CSV or JSON name produces only warnings, one per
      file and naming it. */
  lemma OnlyWarnings(files: seq<string>, destination: string)
    requires forall i :: 0 <= i < |files| ==> !Contains(files[i], ".csv") && !Contains(files[i], ".json")
    ensures forall i :: 0 <= i < |files| ==> Trace(files, destination)[i] == Warning(WarningText(files[i]))
  {
    TraceAt(files, destination);
  }
}
