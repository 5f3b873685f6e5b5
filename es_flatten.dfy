/** `Es.flatten_dict` (app/core_features/ES.py:124-135): a nested configuration mapping becomes a
    flat one whose keys are the dotted paths of its leaves. */
module EsFlatten {
  import opened Base
  import opened PyDict

  /** A configuration value: a scalar leaf (rendered as text), or a nested mapping. */
  datatype Value = Leaf(scalar: string) | Mapping(items: Dict<Value>)

  /** The key a child `k` gets under `parent`: the parent path, the separator and `k`, or `k`
      alone at the top, where the parent path is empty. */
  function ChildKey(parent: string, sep: string, k: string): (key: string)
    ensures parent == "" ==> key == k
    ensures parent != "" ==> |key| == |parent| + |sep| + |k| && key[..|parent| + |sep|] == parent + sep
  {
    if parent != "" then parent + sep + k else k
  }

  predicate Flat(d: Dict<Value>)
  {
    forall i :: 0 <= i < |d| ==> d[i].1.Leaf?
  }

  /** Every key of `d` starts with `prefix`. */
  predicate Under(d: Dict<Value>, prefix: string)
  {
    forall i :: 0 <= i < |d| ==> |prefix| <= |d[i].0| && d[i].0[..|prefix|] == prefix
  }

  /** `_flatten_dict_gen`: the pairs it yields, in order; a nested mapping contributes the items of
      its own flattened dict. */
  function Gen(items: Dict<Value>, parent: string, sep: string): (ps: seq<(string, Value)>)
    ensures Flat(ps)
    ensures parent != "" ==> Under(ps, parent + sep)
    decreases items
  {
    if items == [] then []
    else
      var key := ChildKey(parent, sep, items[0].0);
      var v := items[0].1;
      assert items[0] in items && v < items[0];
      var head := if v.Mapping? then Flatten(v.items, key, sep) else [(key, v)];
      var tail := Gen(items[1..], parent, sep);
      assert parent != "" ==> Under(head, parent + sep) by {
        if parent != "" && v.Mapping? {
          forall i | 0 <= i < |head| ensures |parent + sep| <= |head[i].0| && head[i].0[..|parent + sep|] == parent + sep {
            assert head[i].0[..|key + sep|] == key + sep;
            assert (key + sep)[..|parent + sep|] == parent + sep;
          }
        }
      }
      assert forall i :: 0 <= i < |head + tail| ==> (head + tail)[i] in head || (head + tail)[i] in tail;
      head + tail
  }

  /** `flatten_dict`: the yielded pairs collected by `dict(...)`. No value of the result is a
      mapping, and under a non-empty parent path every key extends that path and the separator. */
  function Flatten(items: Dict<Value>, parent: string, sep: string): (d: Dict<Value>)
    ensures Flat(d) && UniqueKeys(d)
    ensures parent != "" ==> Under(d, parent + sep)
    decreases Mapping(items)
  {
    var ps := Gen(items, parent, sep);
    FromPairsWellFormed(ps);
    assert forall i :: 0 <= i < |FromPairs(ps)| ==> exists j :: 0 <= j < |ps| && ps[j] == FromPairs(ps)[i];
    FromPairs(ps)
  }

  /** The keys a pair list yields are the keys of the dict `dict(...)` builds from it. */
  lemma KeyOfPairs(ps: seq<(string, Value)>, k: string)
    requires k in Keys(ps)
    ensures k in Keys(FromPairs(ps))
  {
    FromPairsKeys(ps);
    DedupSpec(Keys(ps));
  }

  /** A scalar at the top level keeps its key; one under a non-empty path `p` appears as p+sep+k. */
  lemma LeafKept(items: Dict<Value>, parent: string, sep: string, k: string, x: string)
    requires (k, Leaf(x)) in items
    ensures ChildKey(parent, sep, k) in Keys(Flatten(items, parent, sep))
  {
    var key := ChildKey(parent, sep, k);
    GenHasLeaf(items, parent, sep, k, x);
    var ps := Gen(items, parent, sep);
    var j :| 0 <= j < |ps| && ps[j] == (key, Leaf(x));
    assert Keys(ps)[j] == key;
    KeyOfPairs(ps, key);
  }

  lemma {:induction false} GenHasLeaf(items: Dict<Value>, parent: string, sep: string, k: string, x: string)
    requires (k, Leaf(x)) in items
    ensures (ChildKey(parent, sep, k), Leaf(x)) in Gen(items, parent, sep)
    decreases |items|
  {
    if items[0] != (k, Leaf(x)) {
      assert (k, Leaf(x)) in items[1..];
      GenHasLeaf(items[1..], parent, sep, k, x);
    }
  }

  /** A key of a nested mapping's flattened dict is a key of the whole flattened dict. */
  lemma NestedKept(items: Dict<Value>, parent: string, sep: string, k: string, m: Dict<Value>, key: string)
    requires (k, Mapping(m)) in items
    requires key in Keys(Flatten(m, ChildKey(parent, sep, k), sep))
    ensures key in Keys(Flatten(items, parent, sep))
  {
    GenHasNested(items, parent, sep, k, m, key);
    KeyOfPairs(Gen(items, parent, sep), key);
  }

  lemma {:induction false} GenHasNested(items: Dict<Value>, parent: string, sep: string, k: string, m: Dict<Value>, key: string)
    requires (k, Mapping(m)) in items
    requires key in Keys(Flatten(m, ChildKey(parent, sep, k), sep))
    ensures key in Keys(Gen(items, parent, sep))
    decreases |items|
  {
    var key0 := ChildKey(parent, sep, items[0].0);
    var v := items[0].1;
    var head := if v.Mapping? then Flatten(v.items, key0, sep) else [(key0, v)];
    var tail := Gen(items[1..], parent, sep);
    assert Gen(items, parent, sep) == head + tail;
    KeysConcat(head, tail);
    if items[0] != (k, Mapping(m)) {
      assert (k, Mapping(m)) in items[1..];
      GenHasNested(items[1..], parent, sep, k, m, key);
    }
  }

  /** The item `(k, v)` under `parent` yields `key`: a scalar at k's path yields that path, and a
      nested mapping yields the keys of its own flattened dict under that path. */
  predicate Yields(parent: string, sep: string, item: (string, Value), key: string)
  {
    match item.1
    case Leaf(_) => key == ChildKey(parent, sep, item.0)
    case Mapping(m) => key in Keys(Flatten(m, ChildKey(parent, sep, item.0), sep))
  }

  /** Every key the generator yields comes from one of the items. */
  lemma {:induction false} GenKeysFrom(items: Dict<Value>, parent: string, sep: string, key: string)
    requires key in Keys(Gen(items, parent, sep))
    ensures exists i :: 0 <= i < |items| && Yields(parent, sep, items[i], key)
    decreases |items|
  {
    var key0 := ChildKey(parent, sep, items[0].0);
    var v := items[0].1;
    var head := if v.Mapping? then Flatten(v.items, key0, sep) else [(key0, v)];
    var tail := Gen(items[1..], parent, sep);
    assert Gen(items, parent, sep) == head + tail;
    KeysConcat(head, tail);
    if key in Keys(head) {
      assert Yields(parent, sep, items[0], key);
    } else {
      GenKeysFrom(items[1..], parent, sep, key);
      var i :| 0 <= i < |items[1..]| && Yields(parent, sep, items[1..][i], key);
      assert Yields(parent, sep, items[i + 1], key);
    }
  }

  /** The keys of `flatten_dict`'s result are exactly the keys its items yield: the paths of the
      scalars and the paths inside the nested mappings, and nothing else. */
  lemma FlattenKeys(items: Dict<Value>, parent: string, sep: string, key: string)
    ensures key in Keys(Flatten(items, parent, sep)) <==> exists i :: 0 <= i < |items| && Yields(parent, sep, items[i], key)
  {
    var ps := Gen(items, parent, sep);
    if key in Keys(Flatten(items, parent, sep)) {
      FromPairsKeys(ps);
      DedupMembers(Keys(ps));
      GenKeysFrom(items, parent, sep, key);
    }
    if exists i :: 0 <= i < |items| && Yields(parent, sep, items[i], key) {
      var i :| 0 <= i < |items| && Yields(parent, sep, items[i], key);
      assert items[i] in items;
      match items[i].1
      case Leaf(x) => LeafKept(items, parent, sep, items[i].0, x);
      case Mapping(m) => NestedKept(items, parent, sep, items[i].0, m, key);
    }
  }

  /** The generator's last value for a scalar's path is that scalar, when no later item yields the
      same path. */
  lemma {:induction false} GenLeafValue(items: Dict<Value>, parent: string, sep: string, i: nat)
    requires i < |items| && items[i].1.Leaf?
    requires forall j :: i < j < |items| ==> !Yields(parent, sep, items[j], ChildKey(parent, sep, items[i].0))
    ensures LastValue(Gen(items, parent, sep), ChildKey(parent, sep, items[i].0)) == Some(items[i].1)
    decreases |items|
  {
    var key := ChildKey(parent, sep, items[i].0);
    var key0 := ChildKey(parent, sep, items[0].0);
    var v := items[0].1;
    var head := if v.Mapping? then Flatten(v.items, key0, sep) else [(key0, v)];
    var tail := Gen(items[1..], parent, sep);
    assert Gen(items, parent, sep) == head + tail;
    if i == 0 {
      if key in Keys(tail) {
        GenKeysFrom(items[1..], parent, sep, key);
        assert false;
      }
      LastValueAbsent(tail, key);
      LastValueConcat(head, tail, key);
    } else {
      assert items[1..][i - 1] == items[i];
      forall j | i - 1 < j < |items[1..]| ensures !Yields(parent, sep, items[1..][j], key) {
        assert items[1..][j] == items[j + 1];
      }
      GenLeafValue(items[1..], parent, sep, i - 1);
      LastValueConcat(head, tail, key);
    }
  }

  /** A scalar ends up under its path with its own value, unless a later item yields the same
      path and overwrites it. */
  lemma LeafValue(items: Dict<Value>, parent: string, sep: string, i: nat)
    requires i < |items| && items[i].1.Leaf?
    requires forall j :: i < j < |items| ==> !Yields(parent, sep, items[j], ChildKey(parent, sep, items[i].0))
    ensures Get(Flatten(items, parent, sep), ChildKey(parent, sep, items[i].0)) == Some(items[i].1)
  {
    GenLeafValue(items, parent, sep, i);
    FlattenLaterWins(items, parent, sep, ChildKey(parent, sep, items[i].0));
  }

  /** A pair list that yields the same key twice ends up with the value yielded last. */
  lemma FlattenLaterWins(items: Dict<Value>, parent: string, sep: string, key: string)
    ensures Get(Flatten(items, parent, sep), key) == LastValue(Gen(items, parent, sep), key)
  {
    FromPairsLaterWins(Gen(items, parent, sep), key);
  }

  /** At the top level, flat items yield themselves. */
  lemma {:induction false} GenOfFlat(items: Dict<Value>, sep: string)
    requires Flat(items)
    ensures Gen(items, "", sep) == items
    decreases |items|
  {
    if items != [] {
      assert Flat(items[1..]) by {
        forall i | 0 <= i < |items[1..]| ensures items[1..][i].1.Leaf? {
          assert items[1..][i] == items[i + 1];
        }
      }
      GenOfFlat(items[1..], sep);
      assert items == [items[0]] + items[1..];
    }
  }

  /** A dict that is already flat is returned unchanged. */
  lemma FlattenOfFlat(items: Dict<Value>, sep: string)
    requires Flat(items) && UniqueKeys(items)
    ensures Flatten(items, "", sep) == items
  {
    GenOfFlat(items, sep);
    FromPairsOfUnique(items);
  }

  /** Flattening twice is flattening once. */
  lemma FlattenIdempotent(items: Dict<Value>, parent: string, sep: string)
    ensures Flatten(Flatten(items, parent, sep), "", sep) == Flatten(items, parent, sep)
  {
    FlattenOfFlat(Flatten(items, parent, sep), sep);
  }
}
