/** Python's insertion-ordered `dict`, as the core uses it: an association list in which assigning
    to a key already present replaces its value where it stands, and a new key goes to the end. */
module PyDict {
  import opened Base

  type Dict<V> = seq<(string, V)>

  function Keys<V>(d: Dict<V>): (ks: seq<string>)
    ensures |ks| == |d| && forall i :: 0 <= i < |d| ==> ks[i] == d[i].0
  {
    seq(|d|, i requires 0 <= i < |d| => d[i].0)
  }

  lemma KeysConcat<V>(a: Dict<V>, b: Dict<V>)
    ensures Keys(a + b) == Keys(a) + Keys(b)
  {
  }

  ghost predicate UniqueKeys<V>(d: Dict<V>)
  {
    forall i, j :: 0 <= i < j < |d| ==> d[i].0 != d[j].0
  }

  /** `d.get(k)`. */
  function Get<V>(d: Dict<V>, k: string): Option<V>
    decreases |d|
  {
    if d == [] then None else if d[0].0 == k then Some(d[0].1) else Get(d[1..], k)
  }

  lemma {:induction false} GetPresent<V>(d: Dict<V>, k: string)
    ensures Get(d, k).Some? <==> k in Keys(d)
    decreases |d|
  {
    if d != [] {
      GetPresent(d[1..], k);
      assert Keys(d) == [d[0].0] + Keys(d[1..]);
    }
  }

  /** `d[k] = v`. */
  function Insert<V>(d: Dict<V>, k: string, v: V): (r: Dict<V>)
    ensures k in Keys(d) ==> Keys(r) == Keys(d)
    ensures k !in Keys(d) ==> r == d + [(k, v)]
    ensures Get(r, k) == Some(v)
    decreases |d|
  {
    if d == [] then [(k, v)]
    else if d[0].0 == k then [(k, v)] + d[1..]
    else
      var rest := Insert(d[1..], k, v);
      assert Keys(d) == [d[0].0] + Keys(d[1..]);
      assert Keys([d[0]] + rest) == [d[0].0] + Keys(rest);
      assert ([d[0]] + rest)[1..] == rest;
      [d[0]] + rest
  }

  /** Assigning to `k` leaves every other key's value as it was. */
  lemma {:induction false} InsertOther<V>(d: Dict<V>, k: string, v: V, k': string)
    requires k' != k
    ensures Get(Insert(d, k, v), k') == Get(d, k')
    decreases |d|
  {
    if d != [] && d[0].0 != k {
      InsertOther(d[1..], k, v, k');
      assert ([d[0]] + Insert(d[1..], k, v))[1..] == Insert(d[1..], k, v);
    }
  }

  /** Every entry after an assignment was there before or is the new one. */
  lemma {:induction false} InsertEntries<V>(d: Dict<V>, k: string, v: V)
    ensures forall i :: 0 <= i < |Insert(d, k, v)| ==> Insert(d, k, v)[i] in d || Insert(d, k, v)[i] == (k, v)
    decreases |d|
  {
    if d != [] && d[0].0 != k {
      InsertEntries(d[1..], k, v);
      var rest := Insert(d[1..], k, v);
      assert Insert(d, k, v) == [d[0]] + rest;
      forall i | 1 <= i < |Insert(d, k, v)| ensures Insert(d, k, v)[i] in d || Insert(d, k, v)[i] == (k, v) {
        assert Insert(d, k, v)[i] == rest[i - 1];
      }
    }
  }

  lemma InsertUnique<V>(d: Dict<V>, k: string, v: V)
    requires UniqueKeys(d)
    ensures UniqueKeys(Insert(d, k, v))
  {
    var r := Insert(d, k, v);
    if k in Keys(d) {
      assert Keys(r) == Keys(d);
      forall i, j | 0 <= i < j < |r| ensures r[i].0 != r[j].0 {
        assert Keys(r)[i] == Keys(d)[i] && Keys(r)[j] == Keys(d)[j];
      }
    }
  }

  /** `dict(pairs)`: the pairs are assigned in order, so a later pair overwrites an earlier one
      with the same key. */
  function FromPairs<V>(ps: seq<(string, V)>): Dict<V>
    decreases |ps|
  {
    if ps == [] then [] else Insert(FromPairs(ps[..|ps| - 1]), ps[|ps| - 1].0, ps[|ps| - 1].1)
  }

  /** The value of the last pair with key `k`. */
  function LastValue<V>(ps: seq<(string, V)>, k: string): Option<V>
    decreases |ps|
  {
    if ps == [] then None
    else if ps[|ps| - 1].0 == k then Some(ps[|ps| - 1].1)
    else LastValue(ps[..|ps| - 1], k)
  }

  /** A key no pair carries has no last value. */
  lemma {:induction false} LastValueAbsent<V>(ps: seq<(string, V)>, k: string)
    requires k !in Keys(ps)
    ensures LastValue(ps, k) == None
    decreases |ps|
  {
    if ps != [] {
      assert Keys(ps[..|ps| - 1]) == Keys(ps)[..|ps| - 1];
      LastValueAbsent(ps[..|ps| - 1], k);
    }
  }

  /** The last value for `k` in `a + b` comes from `b` when `b` carries `k`, and from `a` otherwise. */
  lemma {:induction false} LastValueConcat<V>(a: seq<(string, V)>, b: seq<(string, V)>, k: string)
    ensures LastValue(b, k).Some? ==> LastValue(a + b, k) == LastValue(b, k)
    ensures LastValue(b, k).None? ==> LastValue(a + b, k) == LastValue(a, k)
    decreases |b|
  {
    if b == [] {
      assert a + b == a;
    } else {
      assert (a + b)[..|a + b| - 1] == a + b[..|b| - 1];
      LastValueConcat(a, b[..|b| - 1], k);
    }
  }

  /** On a repeated key the later pair wins. */
  lemma {:induction false} FromPairsLaterWins<V>(ps: seq<(string, V)>, k: string)
    ensures Get(FromPairs(ps), k) == LastValue(ps, k)
    decreases |ps|
  {
    if ps != [] {
      FromPairsLaterWins(ps[..|ps| - 1], k);
      if ps[|ps| - 1].0 != k {
        InsertOther(FromPairs(ps[..|ps| - 1]), ps[|ps| - 1].0, ps[|ps| - 1].1, k);
      }
    }
  }

  /** A dict built from pairs has no repeated key, and each of its entries is one of the pairs. */
  lemma {:induction false} FromPairsWellFormed<V>(ps: seq<(string, V)>)
    ensures UniqueKeys(FromPairs(ps))
    ensures forall i :: 0 <= i < |FromPairs(ps)| ==> FromPairs(ps)[i] in ps
    decreases |ps|
  {
    if ps != [] {
      var front := ps[..|ps| - 1];
      FromPairsWellFormed(front);
      InsertUnique(FromPairs(front), ps[|ps| - 1].0, ps[|ps| - 1].1);
      InsertEntries(FromPairs(front), ps[|ps| - 1].0, ps[|ps| - 1].1);
      forall i | 0 <= i < |FromPairs(ps)| ensures FromPairs(ps)[i] in ps {
        var e := FromPairs(ps)[i];
        if e in FromPairs(front) {
          var j :| 0 <= j < |FromPairs(front)| && FromPairs(front)[j] == e;
          assert e in front;
        }
      }
    }
  }

  /** Dropping the last pair of a list with distinct keys leaves distinct keys, none of them the
      last pair's key. */
  lemma UniqueKeysFront<V>(ps: seq<(string, V)>)
    requires ps != [] && UniqueKeys(ps)
    ensures UniqueKeys(ps[..|ps| - 1]) && ps[|ps| - 1].0 !in Keys(ps[..|ps| - 1])
  {
    var front := ps[..|ps| - 1];
    forall i, j | 0 <= i < j < |front| ensures front[i].0 != front[j].0 {
      assert front[i] == ps[i] && front[j] == ps[j];
    }
    forall i | 0 <= i < |front| ensures Keys(front)[i] != ps[|ps| - 1].0 {
      assert front[i] == ps[i];
    }
  }

  /** Pairs whose keys are already distinct make a dict equal to themselves. */
  lemma {:induction false} FromPairsOfUnique<V>(ps: seq<(string, V)>)
    requires UniqueKeys(ps)
    ensures FromPairs(ps) == ps
    decreases |ps|
  {
    if ps != [] {
      var front := ps[..|ps| - 1];
      var last := ps[|ps| - 1];
      UniqueKeysFront(ps);
      FromPairsOfUnique(front);
      assert FromPairs(ps) == Insert(front, last.0, last.1) == front + [last];
      assert front + [last] == ps;
    }
  }

  /** `s` without repeated elements, each kept at its first occurrence. */
  function Dedup<T(==)>(s: seq<T>): seq<T>
    decreases |s|
  {
    if s == [] then []
    else
      var front := Dedup(s[..|s| - 1]);
      if s[|s| - 1] in front then front else front + [s[|s| - 1]]
  }

  /** The position of the first occurrence of `x` in `s`. */
  function FirstIndex<T(==)>(s: seq<T>, x: T): (i: nat)
    requires x in s
    ensures i < |s| && s[i] == x && x !in s[..i]
    decreases |s|
  {
    if s[0] == x then 0
    else
      assert s[..1 + FirstIndex(s[1..], x)] == [s[0]] + s[1..][..FirstIndex(s[1..], x)];
      1 + FirstIndex(s[1..], x)
  }

  /** The first occurrence of `x` is found in any prefix that contains `x`. */
  lemma FirstIndexPrefix<T>(s: seq<T>, m: nat, x: T)
    requires m <= |s| && x in s[..m]
    ensures x in s && FirstIndex(s, x) == FirstIndex(s[..m], x)
  {
    var i := FirstIndex(s[..m], x);
    assert s[..m][..i] == s[..i];
  }

  /** Deduplication keeps exactly the elements of `s`. */
  lemma {:induction false} DedupMembers<T>(s: seq<T>)
    ensures forall x :: x in Dedup(s) <==> x in s
    decreases |s|
  {
    if s != [] {
      DedupMembers(s[..|s| - 1]);
      assert s == s[..|s| - 1] + [s[|s| - 1]];
    }
  }

  /** Deduplication keeps each element once. */
  lemma {:induction false} DedupDistinct<T>(s: seq<T>)
    ensures forall i, j :: 0 <= i < j < |Dedup(s)| ==> Dedup(s)[i] != Dedup(s)[j]
    decreases |s|
  {
    if s != [] {
      var front := s[..|s| - 1];
      var d := Dedup(front);
      var r := Dedup(s);
      DedupDistinct(front);
      forall i, j | 0 <= i < j < |r| ensures r[i] != r[j] {
        if j < |d| {
          assert r[i] == d[i] && r[j] == d[j];
        } else {
          assert r[i] == d[i] && r[j] == s[|s| - 1] && s[|s| - 1] !in d;
        }
      }
    }
  }

  /** Every element of `r` occurs in `s`, and `r` lists them in order of their first occurrence
      in `s`. */
  predicate FirstOccurrenceOrder<T(==)>(r: seq<T>, s: seq<T>)
  {
    forall i, j :: 0 <= i < j < |r| ==> r[i] in s && r[j] in s && FirstIndex(s, r[i]) < FirstIndex(s, r[j])
  }

  /** Deduplication lists the elements in order of first occurrence. */
  lemma {:induction false} DedupOrder<T>(s: seq<T>)
    ensures FirstOccurrenceOrder(Dedup(s), s)
    decreases |s|
  {
    if s != [] {
      var n := |s| - 1;
      var front := s[..n];
      var d := Dedup(front);
      var r := Dedup(s);
      DedupOrder(front);
      DedupMembers(front);
      assert FirstOccurrenceOrder(d, front);
      assert s == front + [s[n]];
      assert r == (if s[n] in d then d else d + [s[n]]);
      forall x | x in front ensures x in s && FirstIndex(s, x) == FirstIndex(front, x) {
        FirstIndexPrefix(s, n, x);
      }
      forall i, j | 0 <= i < j < |r|
        ensures r[i] in s && r[j] in s && FirstIndex(s, r[i]) < FirstIndex(s, r[j])
      {
        assert i < |d| && r[i] == d[i];
        assert d[i] in d;
        if j < |d| {
          assert r[j] == d[j] && d[j] in d;
          assert FirstIndex(front, d[i]) < FirstIndex(front, d[j]);
        } else {
          assert r[j] == s[n] && s[n] !in front;
          assert FirstIndex(s, s[n]) == n;
          assert FirstIndex(front, d[i]) < n;
        }
      }
    }
  }

  /** Deduplication keeps exactly the elements of `s`, each once, in order of first occurrence. */
  lemma DedupSpec<T>(s: seq<T>)
    ensures forall x :: x in Dedup(s) <==> x in s
    ensures forall i, j :: 0 <= i < j < |Dedup(s)| ==> Dedup(s)[i] != Dedup(s)[j]
    ensures FirstOccurrenceOrder(Dedup(s), s)
  {
    DedupMembers(s);
    DedupDistinct(s);
    DedupOrder(s);
  }

  /** The keys of a dict built from pairs are the pairs' keys, deduplicated. */
  lemma {:induction false} FromPairsKeys<V>(ps: seq<(string, V)>)
    ensures Keys(FromPairs(ps)) == Dedup(Keys(ps))
    decreases |ps|
  {
    if ps != [] {
      var front := ps[..|ps| - 1];
      FromPairsKeys(front);
      DedupSpec(Keys(front));
      assert Keys(ps)[..|ps| - 1] == Keys(front);
    }
  }
}
