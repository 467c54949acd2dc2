/**
  The part of an h5py file the converters write: a file opened in mode `'w'`
  (empty), top-level groups created in order, and in each group named
  datasets and attributes. Element types and compression are kept as tags;
  the numeric conversion h5py performs on the data is not modelled.
 */
module Hdf5 {
  import opened PyValues
  import opened Frames

  /** The `dtype` a dataset or attribute is stored with. */
  datatype DType = Float64 | Float32 | Int32 | UInt16

  /** `compression='gzip', compression_opts=level`, or none. */
  datatype Compression = Uncompressed | Gzip(level: nat)

  datatype Attribute = Attribute(name: string, value: Value, dtype: DType)

  datatype Dataset = Dataset(name: string, data: seq<Value>, dtype: DType, compression: Compression)

  datatype Group = Group(name: string, attrs: seq<Attribute>, datasets: seq<Dataset>)

  function AttrNames(attrs: seq<Attribute>): (ns: seq<string>)
    ensures |ns| == |attrs|
    ensures forall i :: 0 <= i < |attrs| ==> ns[i] == attrs[i].name
  {
    if attrs == [] then [] else [attrs[0].name] + AttrNames(attrs[1..])
  }

  function DatasetNames(ds: seq<Dataset>): (ns: seq<string>)
    ensures |ns| == |ds|
    ensures forall i :: 0 <= i < |ds| ==> ns[i] == ds[i].name
  {
    if ds == [] then [] else [ds[0].name] + DatasetNames(ds[1..])
  }

  function GroupNames(gs: seq<Group>): (ns: seq<string>)
    ensures |ns| == |gs|
    ensures forall i :: 0 <= i < |gs| ==> ns[i] == gs[i].name
  {
    if gs == [] then [] else GroupNames(gs[..|gs| - 1]) + [gs[|gs| - 1].name]
  }

  predicate Distinct(ns: seq<string>)
  {
    forall i, j :: 0 <= i < j < |ns| ==> ns[i] != ns[j]
  }

  /** Within a group, dataset names and attribute names are unique. */
  predicate GroupValid(g: Group)
  {
    Distinct(AttrNames(g.attrs)) && Distinct(DatasetNames(g.datasets))
  }

  /** `group.create_dataset(name, ...)`: appends the dataset, and raises
      ValueError when the group already holds one of that name. */
  function AddDataset(g: Group, d: Dataset): (r: Result<Group>)
    ensures r.Ok? <==> d.name !in DatasetNames(g.datasets)
    ensures r.Ok? ==> r.value.name == g.name && r.value.attrs == g.attrs
    ensures r.Ok? ==> DatasetNames(r.value.datasets) == DatasetNames(g.datasets) + [d.name]
    ensures r.Ok? && GroupValid(g) ==> GroupValid(r.value)
    ensures r.Err? ==> r.error == ValueError
  {
    if d.name in DatasetNames(g.datasets) then Err(ValueError)
    else Ok(g.(datasets := g.datasets + [d]))
  }

  /** `group.attrs.create(name, data, dtype)`: creates the attribute, or
      replaces the one of that name in place. */
  function SetAttribute(g: Group, a: Attribute): (h: Group)
    ensures h.name == g.name && h.datasets == g.datasets
    ensures a.name in AttrNames(g.attrs) ==> AttrNames(h.attrs) == AttrNames(g.attrs)
    ensures a.name !in AttrNames(g.attrs) ==> AttrNames(h.attrs) == AttrNames(g.attrs) + [a.name]
    ensures GroupValid(g) ==> GroupValid(h)
    ensures AttrOf(h, a.name) == Ok(a)
  {
    g.(attrs := Put(g.attrs, a))
  }

  function Put(attrs: seq<Attribute>, a: Attribute): (r: seq<Attribute>)
    ensures a.name in AttrNames(attrs) ==> AttrNames(r) == AttrNames(attrs)
    ensures a.name !in AttrNames(attrs) ==> AttrNames(r) == AttrNames(attrs) + [a.name]
  {
    if a.name in AttrNames(attrs) then attrs[AttrIndex(attrs, a.name) := a] else attrs + [a]
  }

  function AttrIndex(attrs: seq<Attribute>, name: string): (i: nat)
    requires name in AttrNames(attrs)
    ensures i < |attrs| && attrs[i].name == name
    ensures forall j :: 0 <= j < i ==> attrs[j].name != name
  {
    if attrs[0].name == name then 0
    else 1 + AttrIndex(attrs[1..], name)
  }

  function DatasetIndex(ds: seq<Dataset>, name: string): (i: nat)
    requires name in DatasetNames(ds)
    ensures i < |ds| && ds[i].name == name
    ensures forall j :: 0 <= j < i ==> ds[j].name != name
  {
    if ds[0].name == name then 0
    else 1 + DatasetIndex(ds[1..], name)
  }

  /** `group[name]` for a dataset: KeyError when there is none. */
  function DatasetOf(g: Group, name: string): (r: Result<Dataset>)
    ensures r.Ok? <==> name in DatasetNames(g.datasets)
    ensures r.Ok? ==> r.value.name == name && r.value in g.datasets
    ensures r.Err? ==> r.error == KeyError(name)
  {
    if name in DatasetNames(g.datasets) then Ok(g.datasets[DatasetIndex(g.datasets, name)])
    else Err(KeyError(name))
  }

  /** `group.attrs[name]`: KeyError when there is none. */
  function AttrOf(g: Group, name: string): (r: Result<Attribute>)
    ensures r.Ok? <==> name in AttrNames(g.attrs)
    ensures r.Ok? ==> r.value.name == name && r.value in g.attrs
    ensures r.Err? ==> r.error == KeyError(name)
  {
    if name in AttrNames(g.attrs) then Ok(g.attrs[AttrIndex(g.attrs, name)])
    else Err(KeyError(name))
  }

  /** An open HDF5 file: its top-level groups in creation order. */
  class File {
    var groups: seq<Group>

    /** Group names are unique in the file and every group is valid. */
    ghost predicate Valid()
      reads this
    {
      && (forall i, j :: 0 <= i < j < |groups| ==> groups[i].name != groups[j].name)
      && (forall k :: 0 <= k < |groups| ==> GroupValid(groups[k]))
    }

    /** `h5py.File(filename, 'w')`: a new, empty file. */
    constructor Create()
      ensures groups == [] && Valid()
    {
      groups := [];
    }

    /** `file.create_group(name)`: appends an empty group, and raises
        ValueError when a group of that name exists. */
    method CreateGroup(name: string) returns (o: Outcome)
      requires Valid()
      modifies this
      ensures Valid()
      ensures name in GroupNames(old(groups)) ==> o == Fail(ValueError) && groups == old(groups)
      ensures name !in GroupNames(old(groups)) ==> o == Pass && groups == old(groups) + [Group(name, [], [])]
    {
      if name in GroupNames(groups) {
        o := Fail(ValueError);
      } else {
        groups := groups + [Group(name, [], [])];
        o := Pass;
        assert GroupNames(groups) == GroupNames(old(groups)) + [name];
      }
    }

    /** `groups[k].create_dataset(...)`: the group gains the dataset, or
        the call raises and nothing changes. */
    method CreateDataset(k: nat, d: Dataset) returns (o: Outcome)
      requires Valid() && k < |groups|
      modifies this
      ensures Valid()
      ensures AddDataset(old(groups)[k], d).Ok? ==> o == Pass && groups == old(groups)[k := AddDataset(old(groups)[k], d).value]
      ensures AddDataset(old(groups)[k], d).Err? ==> o == Fail(ValueError) && groups == old(groups)
    {
      match AddDataset(groups[k], d)
      case Ok(g) =>
        groups := groups[k := g];
        o := Pass;
      case Err(e) =>
        o := Fail(e);
    }

    /** `groups[k].attrs.create(...)`. */
    method CreateAttribute(k: nat, a: Attribute)
      requires Valid() && k < |groups|
      modifies this
      ensures Valid()
      ensures groups == old(groups)[k := SetAttribute(old(groups)[k], a)]
    {
      groups := groups[k := SetAttribute(groups[k], a)];
    }
  }

  /** The groups a writer leaves in a fresh file after looping over the
      channel values `cs` of the frame `df` (whose channel column is `chan`),
      and how the loop ended. For each channel in turn the group named after
      it is created and then filled by `body` from the name and the
      channel's rows; the body gives the group as it left it and whether it
      ran to the end. `create_group(None)` makes an anonymous group that is
      not linked into the file, so a `None` channel only contributes how its
      body ended; any other channel that is not a string raises TypeError,
      and a name already taken raises ValueError. The first exception ends
      the loop; the groups written so far stay in the file. */
  function WriteChannels(df: Table, chan: seq<Value>, cs: seq<Value>, body: (string, Table) -> (Group, Outcome)): (r: (seq<Group>, Outcome))
    requires |chan| == Height(df)
    ensures |r.0| <= |Linked(cs)|
    ensures r.1.Pass? ==> |r.0| == |Linked(cs)|
    decreases |cs|
  {
    if cs == [] then ([], Pass)
    else
      var prev := WriteChannels(df, chan, cs[..|cs| - 1], body);
      if prev.1.Fail? then prev else WriteChannel(df, chan, prev.0, cs[|cs| - 1], body)
  }

  /** The channels that get a group in the file: all but `None`, in order. */
  function Linked(cs: seq<Value>): (r: seq<Value>)
    ensures |r| <= |cs|
    ensures forall x :: x in r <==> x in cs && !x.Null?
  {
    if cs == [] then []
    else Linked(cs[..|cs| - 1]) + (if cs[|cs| - 1].Null? then [] else [cs[|cs| - 1]])
  }

  /** Without `None`, every channel gets a group. */
  lemma {:induction false} LinkedAll(cs: seq<Value>)
    requires forall i :: 0 <= i < |cs| ==> !cs[i].Null?
    ensures Linked(cs) == cs
  {
    if cs != [] {
      LinkedAll(cs[..|cs| - 1]);
      assert cs[..|cs| - 1] + [cs[|cs| - 1]] == cs;
    }
  }

  /** Dropping `None` keeps the channels' order of first appearance in
      `chan`. */
  lemma {:induction false} LinkedOrder(chan: seq<Value>, cs: seq<Value>)
    requires forall p, q :: 0 <= p < q < |cs| ==> First(chan, cs[p]) < First(chan, cs[q])
    ensures forall i, j :: 0 <= i < j < |Linked(cs)| ==> First(chan, Linked(cs)[i]) < First(chan, Linked(cs)[j])
  {
    if cs != [] {
      var init, c := cs[..|cs| - 1], cs[|cs| - 1];
      LinkedOrder(chan, init);
      var l, li := Linked(cs), Linked(init);
      forall i, j | 0 <= i < j < |l| ensures First(chan, l[i]) < First(chan, l[j]) {
        if j < |li| {
          assert l[i] == li[i] && l[j] == li[j];
        } else {
          assert l[i] == li[i] && l[j] == c;
          assert li[i] in init by { assert li[i] in li; }
          var p :| 0 <= p < |init| && init[p] == li[i];
          assert cs[p] == li[i];
        }
      }
    }
  }

  /** One pass of the loop, for channel `c`, after the groups `gs`. */
  function WriteChannel(df: Table, chan: seq<Value>, gs: seq<Group>, c: Value, body: (string, Table) -> (Group, Outcome)): (r: (seq<Group>, Outcome))
    requires |chan| == Height(df)
    ensures c.Null? ==> r.0 == gs
    ensures r.1.Pass? && !c.Null? ==> |r.0| == |gs| + 1
    ensures |gs| <= |r.0| <= |gs| + 1
  {
    if c.Null? then (gs, BodyOf(df, chan, c, body).1)
    else if !c.Str? then (gs, Fail(TypeError))
    else if c.s in GroupNames(gs) then (gs, Fail(ValueError))
    else
      var out := body(c.s, Rows(df, chan, c));
      (gs + [out.0], out.1)
  }

  /** One more channel: if the loop is still running, the channel's group
      is created and filled, or the channel raises. */
  lemma WriteChannelsSnoc(df: Table, chan: seq<Value>, cs: seq<Value>, i: nat, body: (string, Table) -> (Group, Outcome))
    requires |chan| == Height(df) && i < |cs|
    requires WriteChannels(df, chan, cs[..i], body).1.Pass?
    ensures WriteChannels(df, chan, cs[..i + 1], body) ==
      WriteChannel(df, chan, WriteChannels(df, chan, cs[..i], body).0, cs[i], body)
  {
    assert cs[..i + 1][..i] == cs[..i];
  }

  /** The body's result for channel `c`; the anonymous group of `None` has
      no name, and its body runs on the rows `df['channel'] == None`
      selects, which are none. */
  function BodyOf(df: Table, chan: seq<Value>, c: Value, body: (string, Table) -> (Group, Outcome)): (Group, Outcome)
    requires |chan| == Height(df) && (c.Str? || c.Null?)
  {
    body(if c.Str? then c.s else "", Rows(df, chan, c))
  }

  /** Once the loop has raised, later channels change nothing. */
  lemma {:induction false} WriteChannelsStops(df: Table, chan: seq<Value>, cs: seq<Value>, n: nat, body: (string, Table) -> (Group, Outcome))
    requires |chan| == Height(df)
    requires n <= |cs| && WriteChannels(df, chan, cs[..n], body).1.Fail?
    ensures WriteChannels(df, chan, cs, body) == WriteChannels(df, chan, cs[..n], body)
    decreases |cs| - n
  {
    if n < |cs| {
      var init := cs[..|cs| - 1];
      assert init[..n] == cs[..n];
      WriteChannelsStops(df, chan, init, n, body);
    } else {
      assert cs[..n] == cs;
    }
  }

  /** Each group written is the body's group for the channel at the same
      position among the channels other than `None`. */
  lemma {:induction false} WriteChannelsGroups(df: Table, chan: seq<Value>, cs: seq<Value>, body: (string, Table) -> (Group, Outcome))
    requires |chan| == Height(df)
    ensures forall i :: 0 <= i < |WriteChannels(df, chan, cs, body).0| ==>
      Linked(cs)[i].Str? && WriteChannels(df, chan, cs, body).0[i] == BodyOf(df, chan, Linked(cs)[i], body).0
  {
    if cs != [] {
      var init := cs[..|cs| - 1];
      WriteChannelsGroups(df, chan, init, body);
      var prev, r := WriteChannels(df, chan, init, body), WriteChannels(df, chan, cs, body);
      var c := cs[|cs| - 1];
      var l, li := Linked(cs), Linked(init);
      assert r.0 == prev.0 || (|prev.0| == |li| && c.Str? && r.0 == prev.0 + [BodyOf(df, chan, c, body).0]);
      forall i | 0 <= i < |r.0|
        ensures l[i].Str? && r.0[i] == BodyOf(df, chan, l[i], body).0
      {
        if i < |prev.0| {
          assert l[i] == li[i];
        } else {
          assert l[i] == c;
        }
      }
    }
  }

  /** When the body raises on `None`'s empty selection, the groups line up
      with the channels themselves: the loop stops at a `None` channel. */
  lemma {:induction false} WriteChannelsAligned(df: Table, chan: seq<Value>, cs: seq<Value>, body: (string, Table) -> (Group, Outcome))
    requires |chan| == Height(df)
    requires BodyOf(df, chan, Null, body).1.Fail?
    ensures var r := WriteChannels(df, chan, cs, body);
      && (r.1.Pass? ==> |r.0| == |cs|)
      && forall i :: 0 <= i < |r.0| ==> cs[i].Str? && r.0[i] == BodyOf(df, chan, cs[i], body).0
  {
    if cs != [] {
      var init := cs[..|cs| - 1];
      WriteChannelsAligned(df, chan, init, body);
      var prev := WriteChannels(df, chan, init, body);
      AlignedPrefix(df, chan, init, cs, prev.0, body);
      if prev.1.Pass? {
        assert WriteChannels(df, chan, cs, body) == WriteChannel(df, chan, prev.0, cs[|cs| - 1], body);
        AlignedStep(df, chan, cs, prev.0, body);
      } else {
        assert WriteChannels(df, chan, cs, body) == prev;
      }
    }
  }

  /** Groups aligned with a prefix of the channels are aligned with all of them. */
  lemma AlignedPrefix(df: Table, chan: seq<Value>, init: seq<Value>, cs: seq<Value>, gs: seq<Group>, body: (string, Table) -> (Group, Outcome))
    requires |chan| == Height(df) && |gs| <= |init| <= |cs| && init == cs[..|init|]
    requires forall i :: 0 <= i < |gs| ==> init[i].Str? && gs[i] == BodyOf(df, chan, init[i], body).0
    ensures forall i :: 0 <= i < |gs| ==> cs[i].Str? && gs[i] == BodyOf(df, chan, cs[i], body).0
  {
    forall i | 0 <= i < |gs| ensures cs[i].Str? && gs[i] == BodyOf(df, chan, cs[i], body).0 {
      assert init[i] == cs[i];
    }
  }

  /** One pass after aligned groups keeps them aligned. */
  lemma AlignedStep(df: Table, chan: seq<Value>, cs: seq<Value>, gs: seq<Group>, body: (string, Table) -> (Group, Outcome))
    requires |chan| == Height(df) && cs != []
    requires BodyOf(df, chan, Null, body).1.Fail?
    requires |gs| == |cs| - 1
    requires forall i :: 0 <= i < |gs| ==> cs[i].Str? && gs[i] == BodyOf(df, chan, cs[i], body).0
    ensures var r := WriteChannel(df, chan, gs, cs[|cs| - 1], body);
      && (r.1.Pass? ==> |r.0| == |cs|)
      && forall i :: 0 <= i < |r.0| ==> cs[i].Str? && r.0[i] == BodyOf(df, chan, cs[i], body).0
  {
  }

  /** The loop runs to the end exactly when every channel is a string or
      `None`, no string channel repeats, and every body runs to the end. */
  lemma {:induction false} WriteChannelsPass(df: Table, chan: seq<Value>, cs: seq<Value>, body: (string, Table) -> (Group, Outcome))
    requires |chan| == Height(df)
    requires forall n, t :: body(n, t).0.name == n
    ensures WriteChannels(df, chan, cs, body).1.Pass? <==> AllWritten(df, chan, cs, body)
  {
    if cs != [] {
      var init := cs[..|cs| - 1];
      var prev := WriteChannels(df, chan, init, body);
      WriteChannelsPass(df, chan, init, body);
      AllWrittenSnoc(df, chan, cs, body);
      if prev.1.Pass? && cs[|cs| - 1].Str? {
        WriteChannelsGroups(df, chan, init, body);
        NameTaken(df, chan, init, prev.0, cs[|cs| - 1], body);
      }
    }
  }

  /** Every channel is a string or `None` whose body runs to the end, and no
      string channel comes twice. */
  predicate AllWritten(df: Table, chan: seq<Value>, cs: seq<Value>, body: (string, Table) -> (Group, Outcome))
    requires |chan| == Height(df)
  {
    && (forall i :: 0 <= i < |cs| ==> (cs[i].Str? || cs[i].Null?) && BodyOf(df, chan, cs[i], body).1.Pass?)
    && (forall i, j :: 0 <= i < j < |cs| && cs[i].Str? ==> cs[i] != cs[j])
  }

  lemma AllWrittenSnoc(df: Table, chan: seq<Value>, cs: seq<Value>, body: (string, Table) -> (Group, Outcome))
    requires |chan| == Height(df) && cs != []
    ensures var c := cs[|cs| - 1];
      AllWritten(df, chan, cs, body) <==>
      AllWritten(df, chan, cs[..|cs| - 1], body) && (c.Str? || c.Null?) && BodyOf(df, chan, c, body).1.Pass?
        && (c.Str? ==> c !in cs[..|cs| - 1])
  {
    var init, c := cs[..|cs| - 1], cs[|cs| - 1];
    assert forall i :: 0 <= i < |init| ==> init[i] == cs[i];
    if AllWritten(df, chan, init, body) && (c.Str? || c.Null?) && BodyOf(df, chan, c, body).1.Pass? && (c.Str? ==> c !in init) {
      forall i, j | 0 <= i < j < |cs| && cs[i].Str? ensures cs[i] != cs[j] {
        if j == |cs| - 1 {
          assert cs[i] == init[i];
        }
      }
    }
    if AllWritten(df, chan, cs, body) && c.Str? {
      assert c !in init by {
        forall i | 0 <= i < |init| ensures init[i] != c {
          assert init[i] == cs[i];
        }
      }
    }
  }

  /** With one group per earlier channel other than `None`, a name is taken
      exactly when its channel came earlier. */
  lemma NameTaken(df: Table, chan: seq<Value>, init: seq<Value>, gs: seq<Group>, c: Value, body: (string, Table) -> (Group, Outcome))
    requires |chan| == Height(df)
    requires forall n, t :: body(n, t).0.name == n
    requires |gs| == |Linked(init)| && c.Str?
    requires forall i :: 0 <= i < |gs| ==> Linked(init)[i].Str? && gs[i] == BodyOf(df, chan, Linked(init)[i], body).0
    ensures c.s in GroupNames(gs) <==> c in init
  {
    var l := Linked(init);
    if c in init {
      assert c in l;
      var i :| 0 <= i < |l| && l[i] == c;
      assert GroupNames(gs)[i] == c.s;
    }
  }

  /** The loop's group names are distinct: a repeated name raises instead. */
  lemma {:induction false} WriteChannelsDistinct(df: Table, chan: seq<Value>, cs: seq<Value>, body: (string, Table) -> (Group, Outcome))
    requires |chan| == Height(df)
    requires forall n, t :: body(n, t).0.name == n
    ensures Distinct(GroupNames(WriteChannels(df, chan, cs, body).0))
  {
    if cs != [] {
      WriteChannelsDistinct(df, chan, cs[..|cs| - 1], body);
    }
  }

  /** The loop over distinct channels runs to the end exactly when every
      channel is a string or `None` that `ready` accepts, for any `ready`
      telling, for each such channel, whether its body runs to the end. */
  lemma WriteChannelsPassWhen(df: Table, chan: seq<Value>, cs: seq<Value>, body: (string, Table) -> (Group, Outcome), ready: Value -> bool)
    requires |chan| == Height(df)
    requires forall n, t :: body(n, t).0.name == n
    requires forall i, j :: 0 <= i < j < |cs| ==> cs[i] != cs[j]
    requires forall c: Value :: c.Str? || c.Null? ==> (BodyOf(df, chan, c, body).1.Pass? <==> ready(c))
    ensures WriteChannels(df, chan, cs, body).1.Pass? <==> forall i :: 0 <= i < |cs| ==> (cs[i].Str? || cs[i].Null?) && ready(cs[i])
  {
    WriteChannelsPass(df, chan, cs, body);
  }

  /** `f` applied to every group, in order. */
  function MapGroups(gs: seq<Group>, f: Group -> Group): (r: seq<Group>)
    ensures |r| == |gs|
    ensures forall i :: 0 <= i < |gs| ==> r[i] == f(gs[i])
  {
    seq(|gs|, i requires 0 <= i < |gs| => f(gs[i]))
  }

  /** Two loop bodies that differ only by a name-preserving change `f` of the
      group they leave give loops that end the same way, and the groups of
      the first are those of the second changed by `f`. */
  lemma {:induction false} WriteChannelsMap(df: Table, chan: seq<Value>, cs: seq<Value>,
                                            b1: (string, Table) -> (Group, Outcome), b2: (string, Table) -> (Group, Outcome),
                                            f: Group -> Group)
    requires |chan| == Height(df)
    requires forall g :: f(g).name == g.name
    requires forall n, t :: b1(n, t) == (f(b2(n, t).0), b2(n, t).1)
    ensures WriteChannels(df, chan, cs, b1).1 == WriteChannels(df, chan, cs, b2).1
    ensures WriteChannels(df, chan, cs, b1).0 == MapGroups(WriteChannels(df, chan, cs, b2).0, f)
    decreases |cs|
  {
    if cs != [] {
      var init := cs[..|cs| - 1];
      WriteChannelsMap(df, chan, init, b1, b2, f);
      var p1, p2 := WriteChannels(df, chan, init, b1), WriteChannels(df, chan, init, b2);
      if p2.1.Pass? {
        WriteChannelMap(df, chan, p1.0, p2.0, cs[|cs| - 1], b1, b2, f);
      }
    }
  }

  /** One pass of WriteChannelsMap. */
  lemma WriteChannelMap(df: Table, chan: seq<Value>, gs1: seq<Group>, gs2: seq<Group>, c: Value,
                        b1: (string, Table) -> (Group, Outcome), b2: (string, Table) -> (Group, Outcome),
                        f: Group -> Group)
    requires |chan| == Height(df)
    requires forall g :: f(g).name == g.name
    requires forall n, t :: b1(n, t) == (f(b2(n, t).0), b2(n, t).1)
    requires gs1 == MapGroups(gs2, f)
    ensures WriteChannel(df, chan, gs1, c, b1).1 == WriteChannel(df, chan, gs2, c, b2).1
    ensures WriteChannel(df, chan, gs1, c, b1).0 == MapGroups(WriteChannel(df, chan, gs2, c, b2).0, f)
  {
    assert GroupNames(gs1) == GroupNames(gs2);
    if c.Null? {
      assert b1("", Rows(df, chan, c)).1 == b2("", Rows(df, chan, c)).1;
    } else if c.Str? && c.s !in GroupNames(gs2) {
      var out := b2(c.s, Rows(df, chan, c));
      assert MapGroups(gs2 + [out.0], f) == gs1 + [f(out.0)];
    }
  }
}
