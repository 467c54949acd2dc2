/**
  The decoder for the `data latency` cell of a Guralp CSV export, a text shaped
  like the spreadsheet formula `=<samples>/<rate>+<overhead>`. The converter
  takes it apart with Python string operations only: it strips `=` from both
  ends, the samples text is the piece before the first `/`, and the rate text
  is the piece after it, cut at the first `+`. The overhead is never parsed.
 */
module DataLatency {
  import opened PyValues
  import opened PyStrings

  /** `cell.strip('=').split('/')[0]`: the longest prefix of the stripped cell
      free of `/`. */
  function SamplesText(cell: string): (r: string)
    ensures '/' !in r
    ensures StartsWith(Strip(cell, '='), r)
    ensures r == Strip(cell, '=') || Strip(cell, '=')[|r|] == '/'
  {
    var s := Strip(cell, '=');
    SplitHeadIsMaximalPrefix(s, '/');
    Split(s, '/')[0]
  }

  /** The text after the first `/` of `s`. */
  function AfterSlash(s: string): string
    requires '/' in s
  {
    s[IndexOf(s, '/') + 1..]
  }

  /** `cell.strip('=').split('/')[1].split('+')[0]`. A cell without `/` has a
      one-piece split, so `[1]` raises IndexError; otherwise the rate text is
      the longest prefix of what follows the first `/` of the stripped cell
      that holds neither `/` nor `+`. */
  function RateText(cell: string): (r: Result<string>)
    ensures r.Err? <==> '/' !in cell
    ensures r.Err? ==> r.error == IndexError
  {
    var s := Strip(cell, '=');
    var parts := Split(s, '/');
    SplitSecond(s, '/');
    StripKeeps(cell, '=', '/');
    if |parts| < 2 then
      Err(IndexError)
    else
      Ok(Split(parts[1], '+')[0])
  }

  /** The rate text is the longest prefix of what follows the first `/` of
      the stripped cell that holds neither `/` nor `+`. */
  lemma RateTextShape(cell: string)
    requires '/' in cell
    ensures RateText(cell).Ok?
    ensures var rate := RateText(cell).value; var rest := AfterSlash(Strip(cell, '='));
      && '/' !in rate && '+' !in rate
      && StartsWith(rest, rate)
      && (rate == rest || rest[|rate|] == '/' || rest[|rate|] == '+')
  {
    StripKeeps(cell, '=', '/');
    RateShape(Strip(cell, '='));
  }

  lemma RateShape(s: string)
    requires '/' in s
    ensures var rate := Split(Split(s, '/')[1], '+')[0];
      && '/' !in rate && '+' !in rate
      && StartsWith(AfterSlash(s), rate)
      && (rate == AfterSlash(s) || AfterSlash(s)[|rate|] == '/' || AfterSlash(s)[|rate|] == '+')
  {
    SplitSecond(s, '/');
    var rest := AfterSlash(s);
    var segment := Split(s, '/')[1];
    assert segment == Split(rest, '/')[0];
    SplitHeadIsMaximalPrefix(rest, '/');
    var rate := Split(segment, '+')[0];
    SplitHeadIsMaximalPrefix(segment, '+');
    assert forall k :: 0 <= k < |rate| ==> rate[k] == segment[k];
    PrefixTrans(rest, segment, rate);
    if rate != segment {
      assert rest[|rate|] == segment[|rate|] == '+';
    }
  }

  /** The cell the device writes for `samples`, `rate` and `overhead`. */
  function Encode(samples: string, rate: string, overhead: string): string
  {
    "=" + samples + "/" + rate + "+" + overhead
  }

  /** Decoding an encoded cell gives back its samples and rate texts, for any
      samples free of `/` and `=`, any rate free of `/` and `+`, and any
      overhead free of `=` (digit strings and decimals all qualify). */
  lemma DecodeEncoded(samples: string, rate: string, overhead: string)
    requires '/' !in samples && '=' !in samples
    requires '/' !in rate && '+' !in rate
    requires '=' !in overhead
    ensures SamplesText(Encode(samples, rate, overhead)) == samples
    ensures RateText(Encode(samples, rate, overhead)) == Ok(rate)
  {
    StripEncoded(samples, rate, overhead);
    DecodeStripped(samples, rate, overhead);
  }

  /** The pieces of an encoded cell once its `=` is gone. */
  lemma DecodeStripped(samples: string, rate: string, overhead: string)
    requires '/' !in samples && '/' !in rate && '+' !in rate
    ensures var t := samples + "/" + rate + "+" + overhead;
      && Split(t, '/')[0] == samples
      && |Split(t, '/')| >= 2
      && Split(Split(t, '/')[1], '+')[0] == rate
  {
    var t := samples + "/" + rate + "+" + overhead;
    var tail := rate + "+" + overhead;
    assert t == samples + ['/'] + tail;
    SplitAfterFirst(samples, tail, '/');
    RateSegment(rate, overhead);
  }

  /** Splitting `a + [sep] + b`, with `a` free of `sep`, gives `a` and then
      the first piece of `b`. */
  lemma SplitAfterFirst(a: string, b: string, sep: char)
    requires sep !in a
    ensures |Split(a + [sep] + b, sep)| >= 2
    ensures Split(a + [sep] + b, sep)[0] == a
    ensures Split(a + [sep] + b, sep)[1] == Split(b, sep)[0]
  {
    var t := a + [sep] + b;
    FirstSeparator(a, b, sep);
    SplitSecond(t, sep);
    assert t[IndexOf(t, sep) + 1..] == b;
  }

  /** The piece of `rate + "+" + overhead` before any `/`, cut at its first
      `+`, is `rate`. */
  lemma RateSegment(rate: string, overhead: string)
    requires '/' !in rate && '+' !in rate
    ensures Split(Split(rate + "+" + overhead, '/')[0], '+')[0] == rate
  {
    var tail := rate + "+" + overhead;
    var segment := Split(tail, '/')[0];
    SplitHeadIsMaximalPrefix(tail, '/');
    assert |segment| > |rate| by {
      assert tail[|rate|] == '+';
      assert forall k :: 0 <= k < |rate| ==> tail[k] == rate[k];
    }
    assert segment == tail[..|segment|];
    assert segment[..|rate|] == tail[..|rate|] == rate;
    assert segment[|rate|] == tail[|rate|] == '+';
    assert segment == segment[..|rate|] + [segment[|rate|]] + segment[|rate| + 1..];
    FirstSeparator(rate, segment[|rate| + 1..], '+');
  }

  /** The `=` of an encoded cell is the only character stripping removes. */
  lemma StripEncoded(samples: string, rate: string, overhead: string)
    requires '=' !in samples && '=' !in overhead
    ensures Strip(Encode(samples, rate, overhead), '=') == samples + "/" + rate + "+" + overhead
  {
    var t := samples + "/" + rate + "+" + overhead;
    assert t[0] != '=' by {
      if samples == [] { assert t[0] == '/'; } else { assert t[0] == samples[0]; }
    }
    assert t[|t| - 1] != '=' by {
      if overhead == [] { assert t[|t| - 1] == '+'; } else { assert t[|t| - 1] == overhead[|overhead| - 1]; }
    }
    assert Encode(samples, rate, overhead) == Rep('=', 1) + t + Rep('=', 0);
    StripExact(1, t, 0, '=');
  }

  /** The cell of the converter's own test: 556 samples at rate 100. */
  lemma ExampleCell()
    ensures SamplesText("=556/100+2.3") == "556"
    ensures RateText("=556/100+2.3") == Ok("100")
  {
    assert "=556/100+2.3" == Encode("556", "100", "2.3");
    DecodeEncoded("556", "100", "2.3");
  }

  /** A cell that does not start with `=` is not rejected: stripping leaves
      it alone and it decodes as if the `=` were there. */
  lemma MissingEqualsAccepted(samples: string, rate: string, overhead: string)
    requires '/' !in samples && '=' !in samples
    requires '/' !in rate && '+' !in rate
    requires '=' !in overhead
    ensures SamplesText(samples + "/" + rate + "+" + overhead) == samples
    ensures RateText(samples + "/" + rate + "+" + overhead) == Ok(rate)
  {
    var cell := samples + "/" + rate + "+" + overhead;
    assert cell[0] != '=' by {
      if samples == [] { assert cell[0] == '/'; } else { assert cell[0] == samples[0]; }
    }
    assert cell[|cell| - 1] != '=' by {
      if overhead == [] { assert cell[|cell| - 1] == '+'; } else { assert cell[|cell| - 1] == overhead[|overhead| - 1]; }
    }
    StripUnpadded(cell, '=');
    DecodeStripped(samples, rate, overhead);
  }

  /** A cell without the `+overhead` part is accepted: its rate text is all
      of what follows the `/`. */
  lemma MissingPlusAccepted(samples: string, rate: string)
    requires '/' !in samples && '=' !in samples
    requires '/' !in rate && '+' !in rate && '=' !in rate
    ensures RateText("=" + samples + "/" + rate) == Ok(rate)
  {
    var t := samples + "/" + rate;
    assert t[0] != '=' by {
      if samples == [] { assert t[0] == '/'; } else { assert t[0] == samples[0]; }
    }
    assert t[|t| - 1] != '=' by {
      if rate == [] { assert t[|t| - 1] == '/'; } else { assert t[|t| - 1] == rate[|rate| - 1]; }
    }
    assert "=" + samples + "/" + rate == Rep('=', 1) + t + Rep('=', 0);
    StripExact(1, t, 0, '=');
    assert t == samples + ['/'] + rate;
    SplitAfterFirst(samples, rate, '/');
    SplitHead(rate, '/');
    SplitHead(rate, '+');
  }

  /** A cell without `/` raises IndexError, even when it has a `+`. */
  lemma MissingSlashRaises()
    ensures RateText("=556+2.3") == Err(IndexError)
  {
    assert '/' !in "=556+2.3";
  }

  /** The rate text of one frame cell: a cell that is not a string has no
      `strip` method and raises AttributeError. */
  function CellRate(v: Value): Result<string>
  {
    if v.Str? then RateText(v.s) else Err(AttributeError)
  }

  /** A cell yields a rate text exactly when it is a string holding `/`. */
  lemma CellRateOk(v: Value)
    ensures CellRate(v).Ok? <==> v.Str? && '/' in v.s
    ensures CellRate(v).Err? ==> CellRate(v).error == AttributeError || CellRate(v).error == IndexError
  {
  }

  /** The rate texts of a column of cells, `list(map(lambda item:
      item.strip('=').split('/')[1].split('+')[0], cells))`: cells are
      decoded in order and the first that fails raises. */
  function RatesOf(cells: seq<Value>): (r: Result<seq<string>>)
    ensures r.Ok? ==> |r.value| == |cells|
  {
    MapList(cells, CellRate)
  }

  /** The rates of a column exist exactly when every cell is a string
      holding `/`, and then they are the cells' rate texts in order;
      otherwise the exception is that of the first cell without one. */
  lemma RatesOfSpec(cells: seq<Value>)
    ensures RatesOf(cells).Ok? <==> forall i :: 0 <= i < |cells| ==> cells[i].Str? && '/' in cells[i].s
    ensures RatesOf(cells).Ok? ==> forall i :: 0 <= i < |cells| ==> RateText(cells[i].s) == Ok(RatesOf(cells).value[i])
    ensures RatesOf(cells).Err? ==> FirstFailure(cells, CellRate, RatesOf(cells).error)
  {
    MapListSpec(cells, CellRate);
    forall i | 0 <= i < |cells| ensures CellRate(cells[i]).Ok? <==> cells[i].Str? && '/' in cells[i].s {
      CellRateOk(cells[i]);
    }
  }

  /** The samples text of one frame cell as a string value; a cell that is
      not a string raises AttributeError. */
  function CellSamples(v: Value): Result<Value>
  {
    if v.Str? then Ok(Str(SamplesText(v.s))) else Err(AttributeError)
  }

  /** The samples texts of a column of cells, `list(map(lambda item:
      item.strip('=').split('/')[0], cells))`. */
  function SamplesOf(cells: seq<Value>): (r: Result<seq<Value>>)
    ensures r.Ok? ==> |r.value| == |cells|
  {
    MapList(cells, CellSamples)
  }

  /** The samples of a column exist exactly when every cell is a string, and
      then they are the cells' samples texts in order. */
  lemma SamplesOfSpec(cells: seq<Value>)
    ensures SamplesOf(cells).Ok? <==> forall i :: 0 <= i < |cells| ==> cells[i].Str?
    ensures SamplesOf(cells).Ok? ==> forall i :: 0 <= i < |cells| ==> SamplesOf(cells).value[i] == Str(SamplesText(cells[i].s))
    ensures SamplesOf(cells).Err? ==> SamplesOf(cells).error == AttributeError
  {
    MapListSpec(cells, CellSamples);
    if SamplesOf(cells).Err? {
      var i :| 0 <= i < |cells| && CellSamples(cells[i]) == Err(SamplesOf(cells).error);
    }
  }

  /** A column that yields rates also yields samples: every cell with a rate
      text is a string. */
  lemma RatesThenSamples(cells: seq<Value>)
    requires RatesOf(cells).Ok?
    ensures SamplesOf(cells).Ok?
  {
    RatesOfSpec(cells);
    SamplesOfSpec(cells);
  }
}
