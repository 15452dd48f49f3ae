/**
 * The pruning pass that runs before a Classic API resource is exported to XML
 * (`remove_fields` in src/jamfmcp/jamfsdk/models/classic/__init__.py): keys whose
 * value is one of the removal values are dropped, dict values are pruned in turn,
 * and list values keep only the items that prune to something truthy.
 *
 * The functions Prune, PruneValue, PruneMembers and PruneItems say what one pass
 * computes; the method RemoveFields is the loop-and-append code, proved equal to them.
 */
module ClassicExport {
  import opened Wrappers
  import opened JsonValue

  /** The removal list used when none, or an empty one, is given: `[{}, []]`. */
  const DefaultRemoval: seq<Json> := [Object([]), Array([])]

  /** `values_to_remove` after `if not values_to_remove: values_to_remove = [{}, []]`. */
  function EffectiveRemoval(valuesToRemove: Option<seq<Json>>): (rm: seq<Json>)
    ensures rm != []
    ensures valuesToRemove.None? ==> rm == DefaultRemoval
    ensures valuesToRemove == Some([]) ==> rm == DefaultRemoval
    ensures valuesToRemove.Some? && valuesToRemove.value != [] ==> rm == valuesToRemove.value
  {
    if valuesToRemove.None? || valuesToRemove.value == [] then DefaultRemoval else valuesToRemove.value
  }

  /** One pass over `data`: a dict is rebuilt; any other value equal to a removal value becomes None. */
  function Prune(data: Json, rm: seq<Json>): (r: Json)
    ensures r.Object? <==> data.Object?
    ensures !data.Object? ==> r == Null || r == data
  {
    match data
    case Object(fs) => Object(PruneMembers(fs, rm))
    case _ => if PyIn(data, rm) then Null else data
  }

  /** What a dict value that is not itself a removal value is replaced by. */
  function PruneValue(v: Json, rm: seq<Json>): (r: Json)
    ensures r.Object? <==> v.Object?
    ensures r.Array? <==> v.Array?
    ensures IsScalar(v) ==> r == v
  {
    match v
    case Object(gs) => Object(PruneMembers(gs, rm))
    case Array(xs) => Array(PruneItems(xs, rm))
    case _ => v
  }

  /** The members of a pruned dict, built member by member in the input's order. */
  function PruneMembers(fs: seq<Member>, rm: seq<Json>): (r: seq<Member>)
    ensures |r| <= |fs|
  {
    if fs == [] then []
    else
      var m := fs[|fs| - 1];
      PruneMembers(fs[..|fs| - 1], rm) +
      (if PyIn(m.value, rm) then [] else [Member(m.key, PruneValue(m.value, rm))])
  }

  /** The items of a pruned list value: each item pruned, kept only when the result is truthy. */
  function PruneItems(xs: seq<Json>, rm: seq<Json>): (r: seq<Json>)
    ensures |r| <= |xs|
    ensures forall i :: 0 <= i < |r| ==> Truthy(r[i])
  {
    if xs == [] then []
    else
      var p := Prune(xs[|xs| - 1], rm);
      PruneItems(xs[..|xs| - 1], rm) + (if Truthy(p) then [p] else [])
  }

  /** `remove_fields(data, values_to_remove)`, loop by loop (the debug print is left out). */
  method RemoveFields(data: Json, valuesToRemove: Option<seq<Json>>) returns (r: Json)
    ensures r == Prune(data, EffectiveRemoval(valuesToRemove))
    decreases data
  {
    var removal := DefaultRemoval;
    if valuesToRemove.Some? && valuesToRemove.value != [] {
      removal := valuesToRemove.value;
    }
    if data.Object? {
      var fields := data.fields;
      var newData: seq<Member> := [];
      for n := 0 to |fields|
        invariant newData == PruneMembers(fields[..n], removal)
      {
        PruneMembersStep(fields, n, removal);
        var k, v := fields[n].key, fields[n].value;
        if PyIn(v, removal) {
          continue;
        } else if v.Object? {
          v := RemoveFields(v, Some(removal));
          assert v == PruneValue(fields[n].value, removal);
        } else if v.Array? {
          var newV := RemoveFieldsFromList(v.items, removal);
          v := Array(newV);
        }
        // The keys of a dict are distinct, so `new_data[k] = v` adds `k` at the end.
        newData := newData + [Member(k, v)];
      }
      assert fields[..|fields|] == fields;
      r := Object(newData);
    } else if !PyIn(data, removal) {
      r := data;
    } else {
      r := Null;
    }
  }

  /** The list branch of `remove_fields`: each item pruned in turn, kept only when truthy. */
  method RemoveFieldsFromList(items: seq<Json>, removal: seq<Json>) returns (newV: seq<Json>)
    requires removal != []
    ensures newV == PruneItems(items, removal)
    decreases Array(items)
  {
    newV := [];
    for j := 0 to |items|
      invariant newV == PruneItems(items[..j], removal)
    {
      PruneItemsStep(items, j, removal);
      var newI := RemoveFields(items[j], Some(removal));
      if Truthy(newI) {
        newV := newV + [newI];
      }
    }
    assert items[..|items|] == items;
  }

  /** One more member of the input adds at most that member, pruned, to the output. */
  lemma PruneMembersStep(fs: seq<Member>, n: nat, rm: seq<Json>)
    requires n < |fs|
    ensures PruneMembers(fs[..n + 1], rm) == PruneMembers(fs[..n], rm) +
      (if PyIn(fs[n].value, rm) then [] else [Member(fs[n].key, PruneValue(fs[n].value, rm))])
  {
    assert fs[..n + 1][..n] == fs[..n];
  }

  /** One more list item adds at most that item, pruned, to the output. */
  lemma PruneItemsStep(xs: seq<Json>, j: nat, rm: seq<Json>)
    requires j < |xs|
    ensures PruneItems(xs[..j + 1], rm) == PruneItems(xs[..j], rm) +
      (if Truthy(Prune(xs[j], rm)) then [Prune(xs[j], rm)] else [])
  {
    assert xs[..j + 1][..j] == xs[..j];
  }

  /** With the default list, exactly the empty dict and the empty list are removal values. */
  lemma DefaultRemovalMembers(v: Json)
    ensures PyIn(v, DefaultRemoval) <==> v == Object([]) || v == Array([])
  {
    if v == Object([]) {
      assert PyEq(v, DefaultRemoval[0]);
    } else if v == Array([]) {
      assert PyEq(v, DefaultRemoval[1]);
    }
  }

  /** Pruning a dict distributes over concatenation: members are treated one at a time, in order. */
  lemma {:induction false} PruneMembersAppend(fs: seq<Member>, gs: seq<Member>, rm: seq<Json>)
    ensures PruneMembers(fs + gs, rm) == PruneMembers(fs, rm) + PruneMembers(gs, rm)
    decreases |gs|
  {
    if gs == [] {
      assert fs + gs == fs;
    } else {
      var last := gs[|gs| - 1];
      var init := gs[..|gs| - 1];
      assert (fs + gs)[..|fs + gs| - 1] == fs + init;
      assert (fs + gs)[|fs + gs| - 1] == last;
      PruneMembersAppend(fs, init, rm);
    }
  }

  /** Pruning a list value distributes over concatenation: survivors keep their relative order. */
  lemma {:induction false} PruneItemsAppend(xs: seq<Json>, ys: seq<Json>, rm: seq<Json>)
    ensures PruneItems(xs + ys, rm) == PruneItems(xs, rm) + PruneItems(ys, rm)
    decreases |ys|
  {
    if ys == [] {
      assert xs + ys == xs;
    } else {
      var init := ys[..|ys| - 1];
      assert (xs + ys)[..|xs + ys| - 1] == xs + init;
      assert (xs + ys)[|xs + ys| - 1] == ys[|ys| - 1];
      PruneItemsAppend(xs, init, rm);
    }
  }

  /** Every key of the pruned dict is a key of the input. */
  lemma {:induction false} PruneMembersKeys(fs: seq<Member>, rm: seq<Json>)
    ensures forall k :: k in Keys(PruneMembers(fs, rm)) ==> k in Keys(fs)
  {
    if fs != [] {
      var init, last := fs[..|fs| - 1], fs[|fs| - 1];
      PruneMembersKeys(init, rm);
      var tail := if PyIn(last.value, rm) then [] else [Member(last.key, PruneValue(last.value, rm))];
      KeysAppend(PruneMembers(init, rm), tail);
      assert fs == init + [last];
      KeysAppend(init, [last]);
    }
  }

  /** A dict with distinct keys prunes to a dict with distinct keys. */
  lemma {:induction false} PruneMembersDistinct(fs: seq<Member>, rm: seq<Json>)
    requires DistinctKeys(fs)
    ensures DistinctKeys(PruneMembers(fs, rm))
  {
    if fs != [] {
      var init := fs[..|fs| - 1];
      var last := fs[|fs| - 1];
      PruneMembersDistinct(init, rm);
      PruneMembersKeys(init, rm);
      var pre := PruneMembers(init, rm);
      assert last.key !in Keys(init);
      forall i | 0 <= i < |pre| ensures pre[i].key != last.key {
        assert Keys(pre)[i] == pre[i].key;
      }
    }
  }

  /** Lookup in a dict with distinct keys, split at its last member. */
  lemma GetLast(fs: seq<Member>, k: string)
    requires DistinctKeys(fs) && fs != []
    ensures Get(fs, k) == if fs[|fs| - 1].key == k then Some(fs[|fs| - 1].value) else Get(fs[..|fs| - 1], k)
  {
    var init := fs[..|fs| - 1];
    assert fs == init + [fs[|fs| - 1]];
    IndexOfAppend(init, fs[|fs| - 1]);
  }

  /** What a looked-up dict value becomes in the pruned dict: absent, or its pruned form. */
  function PrunedEntry(o: Option<Json>, rm: seq<Json>): Option<Json>
  {
    match o
    case None => None
    case Some(v) => if PyIn(v, rm) then None else Some(PruneValue(v, rm))
  }

  /**
   * The pruned dict has key `k` exactly when the input has it with a value that is
   * not a removal value, and then holds that value's pruned form.
   */
  lemma {:induction false} PruneMembersGet(fs: seq<Member>, rm: seq<Json>, k: string)
    requires DistinctKeys(fs)
    ensures Get(PruneMembers(fs, rm), k) == PrunedEntry(Get(fs, k), rm)
  {
    if fs != [] {
      var init, last := fs[..|fs| - 1], fs[|fs| - 1];
      assert DistinctKeys(init);
      PruneMembersGet(init, rm, k);
      GetLast(fs, k);
      var pre := PruneMembers(init, rm);
      PruneMembersKeys(init, rm);
      assert last.key !in Keys(init);
      if PyIn(last.value, rm) {
        assert PruneMembers(fs, rm) == pre;
      } else {
        var m := Member(last.key, PruneValue(last.value, rm));
        assert PruneMembers(fs, rm) == pre + [m];
        IndexOfAppend(pre, m);
      }
    }
  }

  /** Under the default list every scalar dict value (None, 0, False and "" included) is copied unchanged. */
  lemma DefaultKeepsScalarValues(fs: seq<Member>, k: string)
    requires DistinctKeys(fs)
    requires Get(fs, k).Some? && IsScalar(Get(fs, k).value)
    ensures Get(PruneMembers(fs, DefaultRemoval), k) == Get(fs, k)
  {
    PruneMembersGet(fs, DefaultRemoval, k);
    DefaultRemovalMembers(Get(fs, k).value);
  }

  /** Under the default list, `{}` and `[]` dict values are dropped, along with their keys. */
  lemma DefaultDropsEmptyContainers(fs: seq<Member>, k: string)
    requires DistinctKeys(fs)
    requires Get(fs, k) == Some(Object([])) || Get(fs, k) == Some(Array([]))
    ensures k !in Keys(PruneMembers(fs, DefaultRemoval))
  {
    PruneMembersGet(fs, DefaultRemoval, k);
    DefaultRemovalMembers(Get(fs, k).value);
  }

  /**
   * The pass is single: a nested dict that is not empty in the input but empties
   * during pruning is kept as `{}`, because the removal test looks at the input value.
   */
  lemma EmptiedChildKept(fs: seq<Member>, rm: seq<Json>, k: string, gs: seq<Member>)
    requires DistinctKeys(fs)
    requires Get(fs, k) == Some(Object(gs)) && !PyIn(Object(gs), rm)
    requires PruneMembers(gs, rm) == []
    ensures Get(PruneMembers(fs, rm), k) == Some(Object([]))
  {
    PruneMembersGet(fs, rm, k);
  }

  /** A dict holding one member removed by the default set prunes to no members. */
  lemma SingleRemovedMember(k: string, v: Json)
    requires v == Object([]) || v == Array([])
    ensures PruneMembers([Member(k, v)], DefaultRemoval) == []
  {
    DefaultRemovalMembers(v);
    assert [Member(k, v)][..0] == [];
  }

  /** A dict holding one non-empty dict member keeps it, pruned. */
  lemma SingleKeptDict(k: string, gs: seq<Member>)
    requires gs != []
    ensures PruneMembers([Member(k, Object(gs))], DefaultRemoval) == [Member(k, Object(PruneMembers(gs, DefaultRemoval)))]
  {
    DefaultRemovalMembers(Object(gs));
    assert [Member(k, Object(gs))][..0] == [];
  }

  /**
   * So pruning twice can remove more than pruning once: `{a: {b: []}}` prunes to
   * `{a: {}}`, which prunes to `{}`. The pass is not idempotent.
   */
  lemma PruneTwiceRemovesMore(a: string, b: string)
    ensures var d := Object([Member(a, Object([Member(b, Array([]))]))]);
      && Prune(d, DefaultRemoval) == Object([Member(a, Object([]))])
      && Prune(Prune(d, DefaultRemoval), DefaultRemoval) == Object([])
  {
    var gs := [Member(b, Array([]))];
    var d := Object([Member(a, Object(gs))]);
    SingleRemovedMember(b, Array([]));
    SingleKeptDict(a, gs);
    assert Prune(d, DefaultRemoval) == Object([Member(a, Object([]))]);
    SingleRemovedMember(a, Object([]));
  }

  /** Every surviving list item is truthy and is the pruned form of an input item. */
  lemma {:induction false} PruneItemsSound(xs: seq<Json>, rm: seq<Json>)
    ensures forall y :: y in PruneItems(xs, rm) ==> Truthy(y) && exists x :: x in xs && y == Prune(x, rm)
  {
    if xs != [] {
      var init := xs[..|xs| - 1];
      PruneItemsSound(init, rm);
      forall y | y in PruneItems(xs, rm) ensures Truthy(y) && exists x :: x in xs && y == Prune(x, rm) {
        if y in PruneItems(init, rm) {
          var x :| x in init && y == Prune(x, rm);
          assert x in xs;
        } else {
          assert y == Prune(xs[|xs| - 1], rm);
        }
      }
    }
  }

  /** Every input item whose pruned form is truthy survives. */
  lemma {:induction false} PruneItemsComplete(xs: seq<Json>, rm: seq<Json>)
    ensures forall x :: x in xs && Truthy(Prune(x, rm)) ==> Prune(x, rm) in PruneItems(xs, rm)
  {
    if xs != [] {
      var init := xs[..|xs| - 1];
      PruneItemsComplete(init, rm);
      forall x | x in xs && Truthy(Prune(x, rm)) ensures Prune(x, rm) in PruneItems(xs, rm) {
        if x in init {
          assert Prune(x, rm) in PruneItems(init, rm);
        } else {
          assert x == xs[|xs| - 1];
        }
      }
    }
  }

  /**
   * A list item that is not a dict is never recursed into: a falsy one (0, "",
   * False, None, []) is dropped; a truthy one that is no removal value is kept as it is.
   */
  lemma NonObjectItem(x: Json, rm: seq<Json>)
    requires !x.Object?
    ensures !Truthy(x) ==> PruneItems([x], rm) == []
    ensures Truthy(x) && !PyIn(x, rm) ==> PruneItems([x], rm) == [x]
  {
    assert [x][..0] == [];
  }

  /** A dict item that prunes to `{}` is dropped from its list. */
  lemma EmptiedObjectItemDropped(gs: seq<Member>, rm: seq<Json>)
    requires PruneMembers(gs, rm) == []
    ensures PruneItems([Object(gs)], rm) == []
  {
    assert [Object(gs)][..0] == [];
  }

  /** A value that is not a dict is returned unchanged, or as None when it equals a removal value. */
  lemma TopLevelNonObject(data: Json, rm: seq<Json>)
    requires !data.Object?
    ensures PyIn(data, rm) ==> Prune(data, rm) == Null
    ensures !PyIn(data, rm) ==> Prune(data, rm) == data
  {
  }

  /** In particular a non-empty top-level list comes back as it is, nested `{}` and `[]` included. */
  lemma TopLevelListUntouched(xs: seq<Json>)
    requires xs != []
    ensures Prune(Array(xs), DefaultRemoval) == Array(xs)
  {
    DefaultRemovalMembers(Array(xs));
  }
}
