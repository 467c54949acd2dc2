/**
  The part of a pandas DataFrame the converters use: named columns of equal
  height over the default integer row index, column lookup `df[name]`,
  column membership `name in df`, the element-wise comparison
  `df[name] == v`, row selection by a boolean mask `df.loc[mask]`, and
  `Series.unique()`.
 */
module Frames {
  import opened PyValues

  /** A frame: its column labels and, for each label, the column's cells. */
  datatype Frame = Frame(names: seq<string>, columns: seq<seq<Value>>)

  /** Every column has a label and the same height; labels are distinct. */
  ghost predicate WellFormed(f: Frame)
  {
    && |f.columns| == |f.names|
    && (forall i, j :: 0 <= i < j < |f.names| ==> f.names[i] != f.names[j])
    && (forall i :: 0 <= i < |f.columns| ==> |f.columns[i]| == Height(f))
  }

  /** A frame as pandas keeps it. */
  type Table = f: Frame | WellFormed(f) witness Frame([], [])

  /** The number of rows; a frame without columns has none. */
  function Height(f: Frame): nat
  {
    if f.columns == [] then 0 else |f.columns[0]|
  }

  /** The position of label `name`, which must occur. */
  function LabelIndex(names: seq<string>, name: string): (i: nat)
    requires name in names
    ensures i < |names| && names[i] == name
    ensures forall j :: 0 <= j < i ==> names[j] != name
  {
    if names[0] == name then 0 else 1 + LabelIndex(names[1..], name)
  }

  /** `name in df`: whether the frame has a column with that label. */
  predicate HasColumn(f: Frame, name: string)
  {
    name in f.names
  }

  /** `df[name]`: the column labelled `name`, or KeyError for a missing label. */
  function Column(f: Frame, name: string): (r: Result<seq<Value>>)
    requires WellFormed(f)
    ensures r.Ok? <==> HasColumn(f, name)
    ensures r.Ok? ==> |r.value| == Height(f)
    ensures r.Ok? ==> exists i :: 0 <= i < |f.names| && f.names[i] == name && f.columns[i] == r.value
    ensures r.Err? ==> r.error == KeyError(name)
  {
    if name in f.names then Ok(f.columns[LabelIndex(f.names, name)]) else Err(KeyError(name))
  }

  /** `df[name][0]` on the default index: the first cell, and KeyError for the
      label 0 when the column is empty. */
  function FirstCell(col: seq<Value>): (r: Result<Value>)
    ensures r.Ok? <==> |col| > 0
    ensures r.Ok? ==> r.value == col[0]
    ensures r.Err? ==> r.error == KeyError("0")
  {
    if col == [] then Err(KeyError("0")) else Ok(col[0])
  }

  /** `col == v`: the boolean series marking the cells equal to `v`. pandas
      compares with `None` as with a missing value, so `col == None` marks
      no cell, not even a `None` one. */
  function Mask(col: seq<Value>, v: Value): (m: seq<bool>)
    ensures |m| == |col|
    ensures forall i :: 0 <= i < |col| ==> (m[i] <==> !v.Null? && col[i] == v)
  {
    if col == [] then [] else Mask(col[..|col| - 1], v) + [!v.Null? && col[|col| - 1] == v]
  }

  /** The cells of `col` whose mask entry is true, in row order. */
  function Keep(col: seq<Value>, mask: seq<bool>): seq<Value>
    requires |mask| == |col|
  {
    if col == [] then []
    else Keep(col[..|col| - 1], mask[..|mask| - 1]) + (if mask[|mask| - 1] then [col[|col| - 1]] else [])
  }

  /** The rows whose mask entry is true, as increasing positions. */
  function Positions(mask: seq<bool>): (ps: seq<nat>)
    ensures forall k :: 0 <= k < |ps| ==> ps[k] < |mask| && mask[ps[k]]
    ensures forall k, l :: 0 <= k < l < |ps| ==> ps[k] < ps[l]
    ensures forall i :: 0 <= i < |mask| && mask[i] ==> i in ps
  {
    if mask == [] then []
    else Positions(mask[..|mask| - 1]) + (if mask[|mask| - 1] then [|mask| - 1] else [])
  }

  /** The number of true entries of a mask. */
  function Trues(mask: seq<bool>): nat
  {
    if mask == [] then 0 else Trues(mask[..|mask| - 1]) + (if mask[|mask| - 1] then 1 else 0)
  }

  /** Keeping by a mask picks exactly the cells at the mask's true positions,
      in row order. */
  lemma {:induction false} KeepAtPositions(col: seq<Value>, mask: seq<bool>)
    requires |mask| == |col|
    ensures |Keep(col, mask)| == |Positions(mask)| == Trues(mask)
    ensures forall k :: 0 <= k < |Positions(mask)| ==> Keep(col, mask)[k] == col[Positions(mask)[k]]
  {
    if col != [] {
      KeepAtPositions(col[..|col| - 1], mask[..|mask| - 1]);
    }
  }

  /** The rows of the mask built from `col == v` number the occurrences of
      `v` in `col`, and there are none for `None`. */
  lemma {:induction false} MaskCount(col: seq<Value>, v: Value)
    ensures Trues(Mask(col, v)) == if v.Null? then 0 else multiset(col)[v]
  {
    if col != [] {
      var init := col[..|col| - 1];
      MaskCount(init, v);
      assert Mask(col, v)[..|col| - 1] == Mask(init, v);
      assert col == init + [col[|col| - 1]];
      assert multiset(col) == multiset(init) + multiset{col[|col| - 1]};
    }
  }

  /** `df.loc[mask]`: the rows whose mask entry is true, every column kept. */
  function Select(f: Frame, mask: seq<bool>): (g: Frame)
    requires WellFormed(f) && |mask| == Height(f)
    ensures WellFormed(g) && g.names == f.names
    ensures |g.columns| == |f.columns|
    ensures forall i :: 0 <= i < |f.columns| ==> g.columns[i] == Keep(f.columns[i], mask)
    ensures Height(g) == Trues(mask)
  {
    var g := Frame(f.names, seq(|f.columns|, i requires 0 <= i < |f.columns| => Keep(f.columns[i], mask)));
    assert forall i :: 0 <= i < |f.columns| ==> |g.columns[i]| == Trues(mask) by {
      forall i | 0 <= i < |f.columns| ensures |g.columns[i]| == Trues(mask) {
        KeepAtPositions(f.columns[i], mask);
      }
    }
    g
  }

  /** A mask with no false entry keeps every cell. */
  lemma {:induction false} KeepAll(col: seq<Value>, mask: seq<bool>)
    requires |mask| == |col| && forall i :: 0 <= i < |mask| ==> mask[i]
    ensures Keep(col, mask) == col
  {
    if col != [] {
      KeepAll(col[..|col| - 1], mask[..|mask| - 1]);
    }
  }

  /** Selecting by a mask with no false entry gives the frame back. */
  lemma SelectAll(f: Frame, mask: seq<bool>)
    requires WellFormed(f) && |mask| == Height(f) && forall i :: 0 <= i < |mask| ==> mask[i]
    ensures Select(f, mask) == f
  {
    forall i | 0 <= i < |f.columns| ensures Keep(f.columns[i], mask) == f.columns[i] {
      KeepAll(f.columns[i], mask);
    }
  }

  /** A column of the selected rows is the original column kept by the mask. */
  lemma SelectColumn(f: Frame, mask: seq<bool>, name: string)
    requires WellFormed(f) && |mask| == Height(f)
    ensures Column(Select(f, mask), name).Ok? <==> Column(f, name).Ok?
    ensures Column(f, name).Ok? ==> Column(Select(f, mask), name) == Ok(Keep(Column(f, name).value, mask))
  {
    if name in f.names {
      var g := Select(f, mask);
      var i := LabelIndex(f.names, name);
      assert LabelIndex(g.names, name) == i;
    }
  }

  /** The rows of `df` whose channel cell is `c`, `df.loc[df['channel'] == c]`
      for the channel column `chan`. */
  function Rows(df: Table, chan: seq<Value>, c: Value): Table
    requires |chan| == Height(df)
  {
    Select(df, Mask(chan, c))
  }

  /** A column of a channel's rows holds the cells of the rows whose channel
      is `c`, in row order, one per occurrence of `c`; none for `None`. */
  lemma ChannelRows(df: Table, chan: seq<Value>, c: Value, name: string)
    requires |chan| == Height(df) && HasColumn(df, name)
    ensures var col, m := Column(df, name).value, Mask(chan, c);
      && Column(Rows(df, chan, c), name) == Ok(Keep(col, m))
      && |Keep(col, m)| == |Positions(m)| == (if c.Null? then 0 else multiset(chan)[c])
      && forall k :: 0 <= k < |Positions(m)| ==> Keep(col, m)[k] == col[Positions(m)[k]] && chan[Positions(m)[k]] == c
  {
    var col, m := Column(df, name).value, Mask(chan, c);
    SelectColumn(df, m, name);
    KeepAtPositions(col, m);
    MaskCount(chan, c);
  }

  /** The first of a channel's rows is the row where the channel first
      appears; `None` selects no row at all. */
  lemma ChannelFirstRow(df: Table, chan: seq<Value>, c: Value, name: string)
    requires |chan| == Height(df) && HasColumn(df, name) && c in chan
    ensures var col := Column(df, name).value;
      c.Null? ==> Keep(col, Mask(chan, c)) == []
    ensures var col := Column(df, name).value;
      !c.Null? ==> |Keep(col, Mask(chan, c))| > 0 && Keep(col, Mask(chan, c))[0] == col[First(chan, c)]
  {
    var col, m := Column(df, name).value, Mask(chan, c);
    var f := First(chan, c);
    KeepAtPositions(col, m);
    MaskCount(chan, c);
    if c.Null? {
      return;
    }
    var ps := Positions(m);
    assert m[f];
    assert f in ps;
    var k :| 0 <= k < |ps| && ps[k] == f;
    if ps[0] < f {
      FirstIsEarliest(chan, c, ps[0]);
      assert false;
    }
    assert ps[0] <= ps[k];
  }

  /** `df.loc[df['channel'] == None]` has no row. */
  lemma NoneSelectsNothing(df: Table, chan: seq<Value>, name: string)
    requires |chan| == Height(df) && HasColumn(df, name)
    ensures Height(Rows(df, chan, Null)) == 0
    ensures Column(Rows(df, chan, Null), name) == Ok([])
  {
    MaskCount(chan, Null);
    SelectColumn(df, Mask(chan, Null), name);
  }

  /** A cell of a row the mask keeps is among the kept cells. */
  lemma KeepHas(col: seq<Value>, mask: seq<bool>, r: nat)
    requires |mask| == |col| && r < |col| && mask[r]
    ensures col[r] in Keep(col, mask)
  {
    KeepAtPositions(col, mask);
    var ps := Positions(mask);
    assert r in ps;
    var k :| 0 <= k < |ps| && ps[k] == r;
    assert Keep(col, mask)[k] == col[r];
  }

  /** `col.unique()`: the distinct cells in order of first appearance. */
  function Unique(s: seq<Value>): (u: seq<Value>)
    ensures forall i, j :: 0 <= i < j < |u| ==> u[i] != u[j]
    ensures forall x :: x in u <==> x in s
  {
    if s == [] then []
    else
      var init := Unique(s[..|s| - 1]);
      assert forall x :: x in s <==> x in s[..|s| - 1] || x == s[|s| - 1];
      if s[|s| - 1] in init then init else init + [s[|s| - 1]]
  }

  /** Whether `unique()` can hash every cell: a list or a dictionary cannot
      be hashed, and one such cell makes `unique()` raise TypeError before it
      returns anything. */
  predicate Hashable(s: seq<Value>)
  {
    forall i :: 0 <= i < |s| ==> !s[i].List? && !s[i].Dict?
  }

  /** A column can be hashed exactly when its distinct cells can. */
  lemma UniqueHashable(s: seq<Value>)
    ensures Hashable(Unique(s)) <==> Hashable(s)
  {
    var u := Unique(s);
    if Hashable(u) {
      forall i | 0 <= i < |s| ensures !s[i].List? && !s[i].Dict? {
        assert s[i] in u;
      }
    }
    if Hashable(s) {
      forall i | 0 <= i < |u| ensures !u[i].List? && !u[i].Dict? {
        assert u[i] in s;
      }
    }
  }

  /** The position of the first occurrence of `x` in `s`, and `|s|` when
      there is none. */
  function First(s: seq<Value>, x: Value): (i: nat)
    ensures i <= |s|
    ensures i < |s| <==> x in s
    ensures i < |s| ==> s[i] == x
  {
    if s == [] then 0 else if s[0] == x then 0 else 1 + First(s[1..], x)
  }

  /** No cell before the first occurrence of `x` is `x`. */
  lemma {:induction false} FirstIsEarliest(s: seq<Value>, x: Value, j: nat)
    requires j < First(s, x)
    ensures s[j] != x
  {
    if j > 0 {
      FirstIsEarliest(s[1..], x, j - 1);
    }
  }

  /** A position holding `x` with no `x` before it is the first occurrence. */
  lemma {:induction false} FirstAt(s: seq<Value>, x: Value, i: nat)
    requires i < |s| && s[i] == x
    requires forall j :: 0 <= j < i ==> s[j] != x
    ensures First(s, x) == i
  {
    if i > 0 {
      assert s[0] != x;
      assert forall j :: 0 <= j < i - 1 ==> s[1..][j] == s[j + 1];
      FirstAt(s[1..], x, i - 1);
    }
  }

  /** A prefix keeps the first occurrences of what it holds. */
  lemma FirstInPrefix(s: seq<Value>, n: nat, x: Value)
    requires n <= |s| && x in s[..n]
    ensures First(s, x) == First(s[..n], x)
  {
    var p := s[..n];
    var i := First(p, x);
    forall j | 0 <= j < i ensures s[j] != x {
      FirstIsEarliest(p, x, j);
      assert p[j] == s[j];
    }
    assert s[i] == p[i];
    FirstAt(s, x, i);
  }

  /** Unique lists the cells in the order of their first appearance in `s`. */
  lemma {:induction false} UniqueOrder(s: seq<Value>)
    ensures forall i, j :: 0 <= i < j < |Unique(s)| ==> First(s, Unique(s)[i]) < First(s, Unique(s)[j])
  {
    if s != [] {
      var init := s[..|s| - 1];
      UniqueOrder(init);
      UniqueSnoc(s);
      var u, ui := Unique(s), Unique(init);
      forall i, j | 0 <= i < j < |u| ensures First(s, u[i]) < First(s, u[j]) {
        UniqueOrderStep(s, u, ui, i, j);
      }
    }
  }

  /** The first distinct cell is the first cell. */
  lemma UniqueHead(s: seq<Value>)
    requires s != []
    ensures |Unique(s)| > 0 && Unique(s)[0] == s[0]
  {
    UniqueOrder(s);
    var u := Unique(s);
    assert s[0] in u;
    var k :| 0 <= k < |u| && u[k] == s[0];
    assert First(s, u[k]) == 0;
    assert forall j :: 0 < j < |u| ==> First(s, u[0]) < First(s, u[j]);
    assert k == 0;
  }

  /** The last cell is appended to the distinct cells of the others exactly
      when it is new. */
  lemma UniqueSnoc(s: seq<Value>)
    requires s != []
    ensures var init := s[..|s| - 1];
      Unique(s) == if s[|s| - 1] in init then Unique(init) else Unique(init) + [s[|s| - 1]]
  {
  }

  /** One pair of the order, given the order of the distinct cells `ui` of
      all but the last cell. */
  lemma UniqueOrderStep(s: seq<Value>, u: seq<Value>, ui: seq<Value>, i: nat, j: nat)
    requires s != [] && i < j < |u|
    requires forall x :: x in ui <==> x in s[..|s| - 1]
    requires u == if s[|s| - 1] in s[..|s| - 1] then ui else ui + [s[|s| - 1]]
    requires forall k, l :: 0 <= k < l < |ui| ==> First(s[..|s| - 1], ui[k]) < First(s[..|s| - 1], ui[l])
    ensures First(s, u[i]) < First(s, u[j])
  {
    var init, last := s[..|s| - 1], s[|s| - 1];
    if last in init {
      assert u == ui;
      PrefixOrder(s, ui, i, j);
    } else {
      assert u == ui + [last];
      if j < |ui| {
        assert u[i] == ui[i] && u[j] == ui[j];
        PrefixOrder(s, ui, i, j);
      } else {
        assert u[i] == ui[i] && u[j] == last;
        assert ui[i] in ui;
        InPrefixBeforeLast(s, ui[i]);
      }
    }
  }

  /** Two distinct cells of all but the last cell keep their order. */
  lemma PrefixOrder(s: seq<Value>, ui: seq<Value>, i: nat, j: nat)
    requires s != [] && i < j < |ui|
    requires forall x :: x in ui <==> x in s[..|s| - 1]
    requires forall k, l :: 0 <= k < l < |ui| ==> First(s[..|s| - 1], ui[k]) < First(s[..|s| - 1], ui[l])
    ensures First(s, ui[i]) < First(s, ui[j])
  {
    assert ui[i] in ui && ui[j] in ui;
    EarlierInPrefix(s, |s| - 1, ui[i], ui[j]);
  }

  /** First occurrences in a prefix keep their order in the whole. */
  lemma EarlierInPrefix(s: seq<Value>, n: nat, x: Value, y: Value)
    requires n <= |s| && x in s[..n] && y in s[..n]
    requires First(s[..n], x) < First(s[..n], y)
    ensures First(s, x) < First(s, y)
  {
    FirstInPrefix(s, n, x);
    FirstInPrefix(s, n, y);
  }

  /** A cell of all but the last is found before a new last cell. */
  lemma InPrefixBeforeLast(s: seq<Value>, x: Value)
    requires s != [] && x in s[..|s| - 1] && s[|s| - 1] !in s[..|s| - 1]
    ensures First(s, x) < First(s, s[|s| - 1])
  {
    FirstInPrefix(s, |s| - 1, x);
    FirstLast(s);
  }

  /** A cell that occurs only last is first found there. */
  lemma {:induction false} FirstLast(s: seq<Value>)
    requires s != [] && s[|s| - 1] !in s[..|s| - 1]
    ensures First(s, s[|s| - 1]) == |s| - 1
  {
    if |s| > 1 {
      var t := s[1..];
      assert s[0] == s[..|s| - 1][0];
      assert t[|t| - 1] == s[|s| - 1];
      assert t[..|t| - 1] == s[..|s| - 1][1..];
      FirstLast(t);
    }
  }
}
