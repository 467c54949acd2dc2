/**
  The Python values the converters handle: what `json.load` returns, the
  cells of a pandas frame, and the exceptions the converters can raise.
  Subscription `v[key]` and iteration `for x in v` follow CPython's rules
  for the types that occur.
 */
module PyValues {

  /** A Python value as produced by `json.load` or stored in a frame cell.
      A `Dict` holds the (distinct) keys of a loaded object in insertion order. */
  datatype Value =
    | Null
    | Bool(b: bool)
    | Num(x: real)
    | Str(s: string)
    | List(items: seq<Value>)
    | Dict(fields: seq<(string, Value)>)

  /** An optional value. */
  datatype Option<+T> = None | Some(value: T)

  /** The exceptions that abort a conversion. */
  datatype Exception =
    | KeyError(key: string)   // missing dictionary key, frame column or series label
    | TypeError               // subscripting or iterating a value of the wrong type
    | IndexError              // list index out of range
    | ValueError              // strptime mismatch, or h5py "name already exists"
    | AttributeError          // a string method called on a non-string cell

  /** The outcome of a statement sequence: it ran to the end or raised. */
  datatype Outcome = Pass | Fail(error: Exception)

  /** A value, or the exception raised while computing it. */
  datatype Result<+T> = Ok(value: T) | Err(error: Exception) {
    predicate IsFailure() { Err? }
    function PropagateFailure<U>(): Result<U>
      requires Err?
    {
      Err(error)
    }
    function Extract(): T
      requires Ok?
    {
      value
    }
  }

  /** The keys of a dictionary, in order. */
  function Keys(fields: seq<(string, Value)>): (ks: seq<string>)
    ensures |ks| == |fields|
    ensures forall i :: 0 <= i < |fields| ==> ks[i] == fields[i].0
  {
    if fields == [] then [] else [fields[0].0] + Keys(fields[1..])
  }

  /** `d[key]` on a dictionary. */
  function Lookup(fields: seq<(string, Value)>, key: string): (r: Result<Value>)
    ensures r.Ok? <==> key in Keys(fields)
    ensures r.Ok? ==> (key, r.value) in fields
    ensures r.Err? ==> r == Err(KeyError(key))
  {
    if fields == [] then Err(KeyError(key))
    else if fields[0].0 == key then Ok(fields[0].1)
    else Lookup(fields[1..], key)
  }

  /** `v[key]` with a string key: only a dictionary can be subscripted by a
      string; strings and lists need integer indices and the other values are
      not subscriptable, so they raise TypeError. */
  function Sub(v: Value, key: string): (r: Result<Value>)
    ensures r.Ok? <==> v.Dict? && key in Keys(v.fields)
    ensures v.Dict? && r.Err? ==> r.error == KeyError(key)
    ensures !v.Dict? ==> r == Err(TypeError)
  {
    match v
    case Dict(fields) => Lookup(fields, key)
    case _ => Err(TypeError)
  }

  /** The one-character strings of `s`, as iterating a Python string gives them. */
  function Chars(s: string): (cs: seq<Value>)
    ensures |cs| == |s|
    ensures forall i :: 0 <= i < |s| ==> cs[i] == Str([s[i]])
  {
    if s == [] then [] else [Str([s[0]])] + Chars(s[1..])
  }

  /** The elements `for x in v` visits: a list's items, a dictionary's keys,
      a string's characters; numbers, booleans and None are not iterable. */
  function Iter(v: Value): (r: Result<seq<Value>>)
    ensures r.Err? <==> v.Null? || v.Bool? || v.Num?
    ensures r.Err? ==> r.error == TypeError
    ensures v.List? ==> r == Ok(v.items)
    ensures v.Dict? ==> r.Ok? && |r.value| == |v.fields|
    ensures v.Dict? ==> forall i :: 0 <= i < |v.fields| ==> r.value[i] == Str(v.fields[i].0)
  {
    match v
    case List(items) => Ok(items)
    case Dict(fields) => Ok(KeyValues(Keys(fields)))
    case Str(s) => Ok(Chars(s))
    case _ => Err(TypeError)
  }

  /** Keys wrapped as string values. */
  function KeyValues(ks: seq<string>): (vs: seq<Value>)
    ensures |vs| == |ks|
    ensures forall i :: 0 <= i < |ks| ==> vs[i] == Str(ks[i])
  {
    if ks == [] then [] else [Str(ks[0])] + KeyValues(ks[1..])
  }

  /** `list(map(f, xs))`: `f` is applied to the elements left to right and
      the first one that raises aborts the whole. */
  function MapList<T>(xs: seq<Value>, f: Value -> Result<T>): (r: Result<seq<T>>)
    ensures r.Ok? ==> |r.value| == |xs|
  {
    if xs == [] then Ok([])
    else
      var first :- f(xs[0]);
      var rest :- MapList(xs[1..], f);
      Ok([first] + rest)
  }

  /** The map succeeds exactly when `f` succeeds on every element, and then
      it holds `f`'s values in order; otherwise it raises what `f` raises on
      the first element where it fails. */
  lemma {:induction false} MapListSpec<T>(xs: seq<Value>, f: Value -> Result<T>)
    ensures MapList(xs, f).Ok? <==> forall i :: 0 <= i < |xs| ==> f(xs[i]).Ok?
    ensures MapList(xs, f).Ok? ==> forall i :: 0 <= i < |xs| ==> f(xs[i]) == Ok(MapList(xs, f).value[i])
    ensures MapList(xs, f).Err? ==> FirstFailure(xs, f, MapList(xs, f).error)
  {
    if xs != [] {
      var tail := xs[1..];
      MapListSpec(tail, f);
      assert forall i :: 1 <= i < |xs| ==> xs[i] == tail[i - 1];
      var head, rest := f(xs[0]), MapList(tail, f);
      if head.Ok? && rest.Ok? {
        assert MapList(xs, f).value == [head.value] + rest.value;
      } else if head.Ok? {
        var i :| 0 <= i < |tail| && f(tail[i]) == Err(rest.error) && forall j :: 0 <= j < i ==> f(tail[j]).Ok?;
        assert f(xs[i + 1]) == Err(rest.error);
        assert forall j :: 0 <= j < i + 1 ==> f(xs[j]).Ok?;
      } else {
        assert f(xs[0]) == Err(MapList(xs, f).error);
      }
    }
  }

  /** `f` raises `e` on some element and succeeds on every element before it. */
  ghost predicate FirstFailure<T>(xs: seq<Value>, f: Value -> Result<T>, e: Exception)
  {
    exists i :: 0 <= i < |xs| && f(xs[i]) == Err(e) && forall j :: 0 <= j < i ==> f(xs[j]).Ok?
  }

  /** Mapping over one element gives `f`'s value on it, or its exception. */
  lemma MapListOne<T>(x: Value, f: Value -> Result<T>)
    ensures f(x).Ok? ==> MapList([x], f) == Ok([f(x).value])
    ensures f(x).Err? ==> MapList([x], f) == Err(f(x).error)
  {
    var xs := [x];
    assert xs[1..] == [];
    assert MapList(xs[1..], f) == Ok([]);
    if f(x).Ok? {
      assert [f(x).value] + [] == [f(x).value];
    }
  }

  /** Mapping one more element: the prefix's values followed by `f`'s value
      on it, or, when `f` raises on it, the whole map raises the same. */
  lemma MapListSnoc<T>(xs: seq<Value>, i: nat, f: Value -> Result<T>)
    requires i < |xs| && MapList(xs[..i], f).Ok?
    ensures f(xs[i]).Ok? ==> MapList(xs[..i + 1], f) == Ok(MapList(xs[..i], f).value + [f(xs[i]).value])
    ensures f(xs[i]).Err? ==> MapList(xs, f) == Err(f(xs[i]).error)
  {
    var pre, ext := xs[..i], xs[..i + 1];
    MapListSpec(pre, f);
    MapListSpec(ext, f);
    assert forall j :: 0 <= j < i ==> ext[j] == pre[j] && xs[j] == pre[j];
    if f(xs[i]).Ok? {
      assert ext[i] == xs[i];
      var r := MapList(ext, f).value;
      assert r == MapList(pre, f).value + [f(xs[i]).value];
    } else {
      MapListSpec(xs, f);
      var k :| 0 <= k < |xs| && f(xs[k]) == Err(MapList(xs, f).error) && forall j :: 0 <= j < k ==> f(xs[j]).Ok?;
      assert k == i;
    }
  }
}
