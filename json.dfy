/**
 * JSON-like Python values (what `json.load` and pydantic's `model_dump` hand to the
 * code under study) together with the few Python built-ins the code applies to them:
 * truthiness, `==`, `in`, `d[k]`, `d.get(k, default)` and `d[k] = v`.
 *
 * A Python dict keeps insertion order, so an object is an ordered sequence of members.
 */
module JsonValue {
  import opened Wrappers

  datatype Json =
    | Null
    | Bool(b: bool)
    | Int(i: int)
    | Str(s: string)
    | Array(items: seq<Json>)
    | Object(fields: seq<Member>)

  datatype Member = Member(key: string, value: Json)

  /** The exceptions the Python built-ins below raise. */
  datatype PyError = TypeError | AttributeError | KeyError(key: string)

  /** Python truthiness: the falsy values are exactly None, False, 0, "", [] and {}. */
  predicate Truthy(j: Json)
    ensures !Truthy(j) <==>
      j == Null || j == Bool(false) || j == Int(0) || j == Str("") || j == Array([]) || j == Object([])
  {
    match j
    case Null => false
    case Bool(b) => b
    case Int(i) => i != 0
    case Str(s) => s != ""
    case Array(xs) => xs != []
    case Object(fs) => fs != []
  }

  predicate IsScalar(j: Json)
  {
    j.Null? || j.Bool? || j.Int? || j.Str?
  }

  /** The numeric value of a bool or an int (in Python, `True == 1` and `False == 0`). */
  function Num(j: Json): int
    requires j.Bool? || j.Int?
  {
    if j.Bool? then (if j.b then 1 else 0) else j.i
  }

  /**
   * Python's `a == b` on these values: bools and ints compare as numbers, lists
   * element-wise, dicts by length and then key by key, whatever their order.
   */
  predicate PyEq(a: Json, b: Json)
    ensures PyEq(a, b) ==> (a.Null? <==> b.Null?) && (a.Str? <==> b.Str?)
    ensures PyEq(a, b) ==> (a.Array? <==> b.Array?) && (a.Object? <==> b.Object?)
    ensures b == Object([]) ==> (PyEq(a, b) <==> a == Object([]))
    ensures b == Array([]) ==> (PyEq(a, b) <==> a == Array([]))
  {
    match a
    case Null => b.Null?
    case Bool(_) => (b.Bool? || b.Int?) && Num(a) == Num(b)
    case Int(_) => (b.Bool? || b.Int?) && Num(a) == Num(b)
    case Str(s) => b == Str(s)
    case Array(xs) =>
      b.Array? && |xs| == |b.items| &&
      forall i :: 0 <= i < |xs| ==> PyEq(xs[i], b.items[i])
    case Object(fs) =>
      b.Object? && |fs| == |b.fields| &&
      forall i :: 0 <= i < |fs| ==>
        Get(b.fields, fs[i].key).Some? && PyEq(fs[i].value, Get(b.fields, fs[i].key).value)
  }

  /** Python's `v in values` for a list `values`. */
  predicate PyIn(v: Json, values: seq<Json>)
    ensures values == [] ==> !PyIn(v, values)
    ensures PyIn(v, values) ==> exists w :: w in values && PyEq(v, w)
  {
    exists i :: 0 <= i < |values| && PyEq(v, values[i])
  }

  /** Every scalar compares equal to itself. */
  lemma ScalarEqualsItself(a: Json)
    requires IsScalar(a)
    ensures PyEq(a, a)
  {
  }

  /** `v in a + b` holds exactly when `v` is in `a` or in `b`. */
  lemma PyInAppend(v: Json, a: seq<Json>, b: seq<Json>)
    ensures PyIn(v, a + b) <==> PyIn(v, a) || PyIn(v, b)
  {
    if PyIn(v, a + b) {
      var i :| 0 <= i < |a + b| && PyEq(v, (a + b)[i]);
      if i >= |a| {
        assert b[i - |a|] == (a + b)[i];
      }
    }
    if PyIn(v, a) {
      var i :| 0 <= i < |a| && PyEq(v, a[i]);
      assert (a + b)[i] == a[i];
    }
    if PyIn(v, b) {
      var i :| 0 <= i < |b| && PyEq(v, b[i]);
      assert (a + b)[|a| + i] == b[i];
    }
  }

  /**
   * Dict equality does not look at insertion order: `{k1: v1, k2: v2} == {k2: v2, k1: v1}`
   * for values that compare equal to themselves, as every scalar does (`ScalarEqualsItself`).
   */
  lemma DictEqualityIgnoresOrder(k1: string, k2: string, v1: Json, v2: Json)
    requires k1 != k2 && PyEq(v1, v1) && PyEq(v2, v2)
    ensures PyEq(Object([Member(k1, v1), Member(k2, v2)]), Object([Member(k2, v2), Member(k1, v1)]))
  {
    var a := [Member(k1, v1), Member(k2, v2)];
    var b := [Member(k2, v2), Member(k1, v1)];
    IndexOfUnique(b, k1, Some(1));
    IndexOfUnique(b, k2, Some(0));
    IndexOfUnique(a, k1, Some(0));
    IndexOfUnique(a, k2, Some(1));
  }

  function Keys(fs: seq<Member>): (ks: seq<string>)
    ensures |ks| == |fs|
    ensures forall i :: 0 <= i < |fs| ==> ks[i] == fs[i].key
  {
    seq(|fs|, i requires 0 <= i < |fs| => fs[i].key)
  }

  lemma KeysAppend(a: seq<Member>, b: seq<Member>)
    ensures Keys(a + b) == Keys(a) + Keys(b)
  {
  }

  predicate DistinctKeys(fs: seq<Member>)
  {
    forall i, j :: 0 <= i < j < |fs| ==> fs[i].key != fs[j].key
  }

  /** The position of key `k`: the first member carrying it, if any. */
  function IndexOf(fs: seq<Member>, k: string): (r: Option<nat>)
    ensures r.None? <==> k !in Keys(fs)
    ensures r.Some? ==> r.value < |fs| && fs[r.value].key == k
    ensures r.Some? ==> forall j :: 0 <= j < r.value ==> fs[j].key != k
  {
    if fs == [] then None
    else if fs[0].key == k then Some(0)
    else match IndexOf(fs[1..], k)
      case None => None
      case Some(j) => Some(j + 1)
  }

  predicate IsFirstIndex(fs: seq<Member>, k: string, o: Option<nat>)
  {
    match o
    case None => k !in Keys(fs)
    case Some(i) => i < |fs| && fs[i].key == k && forall j :: 0 <= j < i ==> fs[j].key != k
  }

  /** `IndexOf` is determined by its contract. */
  lemma IndexOfUnique(fs: seq<Member>, k: string, o: Option<nat>)
    requires IsFirstIndex(fs, k, o)
    ensures IndexOf(fs, k) == o
  {
  }

  /** Lookups depend only on the keys, not on the values stored under them. */
  lemma IndexOfByKeys(a: seq<Member>, b: seq<Member>)
    requires Keys(a) == Keys(b)
    ensures forall k :: IndexOf(a, k) == IndexOf(b, k)
  {
    forall k ensures IndexOf(a, k) == IndexOf(b, k) {
      var o := IndexOf(a, k);
      assert forall j :: 0 <= j < |a| ==> a[j].key == Keys(a)[j] == b[j].key;
      IndexOfUnique(b, k, o);
    }
  }

  /** Appending a member leaves the lookup of any other key alone. */
  lemma {:induction false} IndexOfAppendOther(fs: seq<Member>, m: Member, k: string)
    requires k != m.key
    ensures IndexOf(fs + [m], k) == IndexOf(fs, k)
    decreases |fs|
  {
    if fs != [] {
      assert (fs + [m])[0] == fs[0];
      assert (fs + [m])[1..] == fs[1..] + [m];
      IndexOfAppendOther(fs[1..], m, k);
    }
  }

  /** Appending a member with a fresh key leaves the other lookups alone. */
  lemma IndexOfAppend(fs: seq<Member>, m: Member)
    requires m.key !in Keys(fs)
    ensures IndexOf(fs + [m], m.key) == Some(|fs|)
    ensures forall k :: k != m.key ==> IndexOf(fs + [m], k) == IndexOf(fs, k)
  {
    var r := fs + [m];
    assert forall j :: 0 <= j < |fs| ==> r[j].key == Keys(fs)[j];
    IndexOfUnique(r, m.key, Some(|fs|));
    forall k | k != m.key ensures IndexOf(r, k) == IndexOf(fs, k) {
      IndexOfAppendOther(fs, m, k);
    }
  }

  /** `d.get(k)` on a dict: the value stored under `k`, or None. */
  function Get(fs: seq<Member>, k: string): (r: Option<Json>)
    ensures r.Some? <==> k in Keys(fs)
    ensures r.Some? ==> exists i :: 0 <= i < |fs| && fs[i] == Member(k, r.value)
  {
    match IndexOf(fs, k)
    case None => None
    case Some(i) => Some(fs[i].value)
  }

  /** Replacing the value of the member at `i` keeps the keys and changes only the lookup of its key. */
  lemma ReplaceAt(fs: seq<Member>, i: nat, v: Json)
    requires i < |fs|
    ensures var r := fs[i := Member(fs[i].key, v)];
      && Keys(r) == Keys(fs)
      && (IndexOf(fs, fs[i].key) == Some(i) ==> Get(r, fs[i].key) == Some(v))
      && (forall k :: k != fs[i].key ==> Get(r, k) == Get(fs, k))
  {
    var r := fs[i := Member(fs[i].key, v)];
    assert Keys(r) == Keys(fs);
    IndexOfByKeys(r, fs);
    forall k | k != fs[i].key
      ensures Get(r, k) == Get(fs, k)
    {
      match IndexOf(fs, k)
      case None =>
      case Some(j) => assert r[j] == fs[j];
    }
  }

  /** Assigning to a key already present replaces its value where it stands. */
  lemma SetPresent(fs: seq<Member>, k: string, v: Json, i: nat)
    requires IndexOf(fs, k) == Some(i)
    ensures var r := fs[i := Member(k, v)];
      && Get(r, k) == Some(v)
      && (forall k' :: k' != k ==> Get(r, k') == Get(fs, k'))
      && Keys(r) == Keys(fs)
      && (DistinctKeys(fs) ==> DistinctKeys(r))
  {
    ReplaceAt(fs, i, v);
  }

  /** Assigning to a new key appends it. */
  lemma SetAbsent(fs: seq<Member>, k: string, v: Json)
    requires k !in Keys(fs)
    ensures var r := fs + [Member(k, v)];
      && Get(r, k) == Some(v)
      && (forall k' :: k' != k ==> Get(r, k') == Get(fs, k'))
      && Keys(r) == Keys(fs) + [k]
      && (DistinctKeys(fs) ==> DistinctKeys(r))
  {
    IndexOfAppend(fs, Member(k, v));
    KeysAppend(fs, [Member(k, v)]);
  }

  /** `d[k] = v`: an existing key keeps its place, a new key goes to the end. */
  function Set(fs: seq<Member>, k: string, v: Json): (r: seq<Member>)
    ensures Get(r, k) == Some(v)
    ensures forall k' :: k' != k ==> Get(r, k') == Get(fs, k')
    ensures Keys(r) == if k in Keys(fs) then Keys(fs) else Keys(fs) + [k]
    ensures DistinctKeys(fs) ==> DistinctKeys(r)
  {
    match IndexOf(fs, k)
    case Some(i) =>
      SetPresent(fs, k, v, i);
      fs[i := Member(k, v)]
    case None =>
      SetAbsent(fs, k, v);
      fs + [Member(k, v)]
  }

  /** `key in container` for a string key: dict keys, list elements, or a substring. */
  function Contains(container: Json, key: string): (r: Result<bool, PyError>)
    ensures container.Object? ==> r == Ok(key in Keys(container.fields))
    ensures r.Err? <==> IsScalar(container) && !container.Str?
  {
    match container
    case Object(fs) => Ok(key in Keys(fs))
    case Array(xs) => Ok(Str(key) in xs)
    case Str(s) => Ok(IsSubstring(key, s))
    case _ => Err(TypeError)
  }

  /** Python's `a in s` on two strings. */
  predicate IsSubstring(a: string, s: string)
  {
    a <= s || (s != [] && IsSubstring(a, s[1..]))
  }

  /** `container[key]` for a string key: only a dict can be indexed by a string. */
  function Subscript(container: Json, key: string): (r: Result<Json, PyError>)
    ensures r.Ok? <==> container.Object? && key in Keys(container.fields)
    ensures r.Ok? ==> Some(r.value) == Get(container.fields, key)
    ensures container.Object? && r.Err? ==> r.error == KeyError(key)
  {
    match container
    case Object(fs) => if key in Keys(fs) then Ok(Get(fs, key).value) else Err(KeyError(key))
    case _ => Err(TypeError)
  }

  /** `container.get(key, default)`: only a dict has a `get` method. */
  function GetOr(container: Json, key: string, default: Json): (r: Result<Json, PyError>)
    ensures r.Ok? <==> container.Object?
    ensures r.Ok? ==> r.value == (if key in Keys(container.fields) then Get(container.fields, key).value else default)
  {
    match container
    case Object(fs) => Ok(if key in Keys(fs) then Get(fs, key).value else default)
    case _ => Err(AttributeError)
  }

  /** `container[key] = v`: only a dict accepts a string key (lists and scalars raise TypeError). */
  function SetItem(container: Json, key: string, v: Json): (r: Result<Json, PyError>)
    ensures r.Ok? <==> container.Object?
    ensures r.Err? ==> r.error == TypeError
    ensures r.Ok? ==> r.value.Object? && Get(r.value.fields, key) == Some(v)
    ensures r.Ok? ==> forall k :: k != key ==> Get(r.value.fields, k) == Get(container.fields, k)
  {
    match container
    case Object(fs) => Ok(Object(Set(fs, key, v)))
    case _ => Err(TypeError)
  }

  /** A list of strings. */
  function StrList(xs: seq<string>): (j: Json)
    ensures j.Array? && |j.items| == |xs|
    ensures forall i :: 0 <= i < |xs| ==> j.items[i] == Str(xs[i])
  {
    Array(seq(|xs|, i requires 0 <= i < |xs| => Str(xs[i])))
  }
}
