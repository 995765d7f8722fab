/**
 * `collections.OrderedDict` as the aggregation pass uses it: a list of keys
 * in insertion order next to a map holding the value of every key.  The two
 * updates the pass performs are the get-or-insert idioms
 * `try: d[k] += x except KeyError: d[k] = 0; d[k] += x` and the same with
 * `.append(x)` on a list value; the second phase also stores with plain
 * `d[k] = v`.
 *
 * The reference side of this module describes what a dictionary filled
 * from a sequence of items holds, without the dictionary: the keys in order
 * of first appearance, and per key the sum, or the list, of what the items
 * with that key contribute.
 */
module OrderedDicts {

  datatype ODict<K(==), V> = ODict(keys: seq<K>, vals: map<K, V>)

  predicate Distinct<K(==)>(s: seq<K>) {
    forall i, j :: 0 <= i < j < |s| ==> s[i] != s[j]
  }

  /** The keys are listed once each, and exactly the listed keys have values. */
  ghost predicate Valid<K, V>(d: ODict<K, V>) {
    Distinct(d.keys) && d.vals.Keys == set k | k in d.keys
  }

  function Empty<K(==), V>(): ODict<K, V> {
    ODict([], map[])
  }

  /** `d[k] = v`: an existing key keeps its place, a new one goes last. */
  function Put<K(==), V>(d: ODict<K, V>, k: K, v: V): ODict<K, V> {
    ODict(if k in d.vals then d.keys else d.keys + [k], d.vals[k := v])
  }

  /** `d[k] += delta`, inserting `d[k] = 0` first when `k` is new. */
  function AddTo<K(==)>(d: ODict<K, int>, k: K, delta: int): ODict<K, int> {
    Put(d, k, (if k in d.vals then d.vals[k] else 0) + delta)
  }

  /** `d[k].append(x)`, inserting `d[k] = []` first when `k` is new. */
  function Append<K(==), E>(d: ODict<K, seq<E>>, k: K, x: E): ODict<K, seq<E>> {
    Put(d, k, (if k in d.vals then d.vals[k] else []) + [x])
  }

  /** The empty dictionary is well formed. */
  lemma {:induction false} EmptyValid<K, V>()
    ensures Valid(Empty<K, V>())
  {
    assert (set k: K | k in []) == {};
  }

  /** Storing keeps a dictionary well formed, keeps the keys already there in
      their places and adds a new key at the end. */
  lemma {:induction false} PutValid<K, V>(d: ODict<K, V>, k: K, v: V)
    requires Valid(d)
    ensures Valid(Put(d, k, v))
    ensures Put(d, k, v).vals.Keys == d.vals.Keys + {k}
    ensures |d.keys| <= |Put(d, k, v).keys| && Put(d, k, v).keys[..|d.keys|] == d.keys
  {
    var r := Put(d, k, v);
    if k !in d.vals {
      assert r.keys[..|d.keys|] == d.keys;
      assert (set j | j in r.keys) == (set j | j in d.keys) + {k};
    }
  }

  /** `list(d.values())`. */
  function Values<K(==), V>(d: ODict<K, V>): (r: seq<V>)
    requires Valid(d)
    ensures |r| == |d.keys|
    ensures forall i {:trigger r[i]} :: 0 <= i < |d.keys| ==> r[i] == d.vals[d.keys[i]]
  {
    seq(|d.keys|, i requires 0 <= i < |d.keys| => d.vals[d.keys[i]])
  }

  function Sum(s: seq<int>): int
    decreases |s|
  {
    if s == [] then 0 else Sum(s[..|s| - 1]) + s[|s| - 1]
  }

  // ---------------------------------------------------------------------------
  // Dictionaries filled from a sequence of items
  // ---------------------------------------------------------------------------

  /** `for x in items: d[key(x)] += weight(x)`, from an empty `d`. */
  function TallyBy<T, K(==)>(items: seq<T>, key: T -> K, weight: T -> int): ODict<K, int>
    decreases |items|
  {
    if items == [] then Empty()
    else
      var x := items[|items| - 1];
      AddTo(TallyBy(items[..|items| - 1], key, weight), key(x), weight(x))
  }

  /** `for x in items: d[key(x)].append(elem(x))`, from an empty `d`. */
  function GroupBy<T, K(==), E>(items: seq<T>, key: T -> K, elem: T -> E): ODict<K, seq<E>>
    decreases |items|
  {
    if items == [] then Empty()
    else
      var x := items[|items| - 1];
      Append(GroupBy(items[..|items| - 1], key, elem), key(x), elem(x))
  }

  /** The keys of the items, each once, in order of first appearance. */
  function KeysOf<T, K(==)>(items: seq<T>, key: T -> K): seq<K>
    decreases |items|
  {
    if items == [] then []
    else
      var ks := KeysOf(items[..|items| - 1], key);
      var k := key(items[|items| - 1]);
      if k in ks then ks else ks + [k]
  }

  /** The sum of `weight` over the items whose key is `k`. */
  function SumWhere<T, K(==)>(items: seq<T>, key: T -> K, k: K, weight: T -> int): int
    decreases |items|
  {
    if items == [] then 0
    else
      var x := items[|items| - 1];
      SumWhere(items[..|items| - 1], key, k, weight) + (if key(x) == k then weight(x) else 0)
  }

  /** The sum of `weight` over all items. */
  function SumAll<T>(items: seq<T>, weight: T -> int): int
    decreases |items|
  {
    if items == [] then 0 else SumAll(items[..|items| - 1], weight) + weight(items[|items| - 1])
  }

  /** `elem` of the items whose key is `k`, in item order. */
  function Select<T, K(==), E>(items: seq<T>, key: T -> K, k: K, elem: T -> E): seq<E>
    decreases |items|
  {
    if items == [] then []
    else
      var x := items[|items| - 1];
      Select(items[..|items| - 1], key, k, elem) + (if key(x) == k then [elem(x)] else [])
  }

  /** Filling from empty yields well-formed dictionaries. */
  lemma {:induction false} FillValid<T, K, E>(items: seq<T>, key: T -> K, weight: T -> int, elem: T -> E)
    ensures Valid(TallyBy(items, key, weight))
    ensures Valid(GroupBy(items, key, elem))
    decreases |items|
  {
    if items == [] {
      EmptyValid<K, int>();
      EmptyValid<K, seq<E>>();
    } else {
      var n := |items| - 1;
      FillValid(items[..n], key, weight, elem);
      var x := items[n];
      var t := TallyBy(items[..n], key, weight);
      var g := GroupBy(items[..n], key, elem);
      PutValid(t, key(x), (if key(x) in t.vals then t.vals[key(x)] else 0) + weight(x));
      PutValid(g, key(x), (if key(x) in g.vals then g.vals[key(x)] else []) + [elem(x)]);
    }
  }

  /** One more item is one more update. */
  lemma {:induction false} FillSnoc<T, K, E>(items: seq<T>, x: T, key: T -> K, weight: T -> int, elem: T -> E)
    ensures TallyBy(items + [x], key, weight) == AddTo(TallyBy(items, key, weight), key(x), weight(x))
    ensures GroupBy(items + [x], key, elem) == Append(GroupBy(items, key, elem), key(x), elem(x))
    ensures SumAll(items + [x], weight) == SumAll(items, weight) + weight(x)
  {
    assert (items + [x])[..|items|] == items;
  }

  /** `i` is the first position of an item with key `k`. */
  predicate IsFirstIndex<T, K(==)>(items: seq<T>, key: T -> K, k: K, i: int) {
    0 <= i < |items| && key(items[i]) == k && forall j :: 0 <= j < i ==> key(items[j]) != k
  }

  // ---------------------------------------------------------------------------
  // Key order
  // ---------------------------------------------------------------------------

  /** The keys are those of the items, each listed once. */
  lemma {:induction false} KeysOfMembers<T, K>(items: seq<T>, key: T -> K)
    ensures Distinct(KeysOf(items, key))
    ensures forall k :: k in KeysOf(items, key) ==> exists i :: 0 <= i < |items| && key(items[i]) == k
    ensures forall i :: 0 <= i < |items| ==> key(items[i]) in KeysOf(items, key)
    decreases |items|
  {
    if items != [] {
      var n := |items| - 1;
      var prefix := items[..n];
      KeysOfMembers(prefix, key);
      assert forall i :: 0 <= i < n ==> prefix[i] == items[i];
      forall i | 0 <= i < |items|
        ensures key(items[i]) in KeysOf(items, key)
      {
        if i < n {
          assert key(prefix[i]) in KeysOf(prefix, key);
        }
      }
    }
  }

  /** There are keys exactly when there are items, and the first key is
      that of the first item. */
  lemma {:induction false} KeysOfFirst<T, K>(items: seq<T>, key: T -> K)
    ensures KeysOf(items, key) == [] <==> items == []
    ensures items != [] ==> KeysOf(items, key)[0] == key(items[0])
    decreases |items|
  {
    if items != [] {
      var n := |items| - 1;
      KeysOfFirst(items[..n], key);
      if n > 0 {
        assert items[..n][0] == items[0];
      }
    }
  }

  /** Keys are listed in the order their first items appear. */
  lemma {:induction false} KeysOfOrder<T, K>(items: seq<T>, key: T -> K)
    ensures forall a, b, i, j
      {:trigger IsFirstIndex(items, key, KeysOf(items, key)[a], i), IsFirstIndex(items, key, KeysOf(items, key)[b], j)} ::
      && 0 <= a < b < |KeysOf(items, key)|
      && IsFirstIndex(items, key, KeysOf(items, key)[a], i)
      && IsFirstIndex(items, key, KeysOf(items, key)[b], j)
      ==> i < j
    decreases |items|
  {
    if items != [] {
      var n := |items| - 1;
      var prefix := items[..n];
      var ks := KeysOf(items, key);
      var pk := KeysOf(prefix, key);
      KeysOfOrder(prefix, key);
      KeysOfMembers(prefix, key);
      assert forall i :: 0 <= i < n ==> prefix[i] == items[i];
      forall a, b, i, j | 0 <= a < b < |ks| && IsFirstIndex(items, key, ks[a], i) && IsFirstIndex(items, key, ks[b], j)
        ensures i < j
      {
        var ka := ks[a];
        var kb := ks[b];
        assert ks[..|pk|] == pk || ks == pk;
        assert a < |pk|;
        assert ka == pk[a] && ka in pk;
        var ia :| 0 <= ia < n && key(prefix[ia]) == ka;
        assert i <= ia < n;
        assert IsFirstIndex(prefix, key, ka, i);
        if b < |pk| {
          assert ks[b] == pk[b];
          var ib :| 0 <= ib < n && key(prefix[ib]) == kb;
          assert j <= ib < n;
          assert IsFirstIndex(prefix, key, pk[a], i) && IsFirstIndex(prefix, key, pk[b], j);
        } else {
          assert kb == key(items[n]) && kb !in pk;
          forall t | 0 <= t < n
            ensures key(items[t]) != kb
          {
            assert key(prefix[t]) in pk;
          }
        }
      }
    }
  }

  /** A key no item has collects nothing. */
  lemma {:induction false} AbsentKey<T, K, E>(items: seq<T>, key: T -> K, k: K, weight: T -> int, elem: T -> E)
    requires forall i :: 0 <= i < |items| ==> key(items[i]) != k
    ensures SumWhere(items, key, k, weight) == 0
    ensures Select(items, key, k, elem) == []
    decreases |items|
  {
    if items != [] {
      var n := |items| - 1;
      assert forall i :: 0 <= i < n ==> items[..n][i] == items[i];
      AbsentKey(items[..n], key, k, weight, elem);
    }
  }

  /** Filling a dictionary by `+=` lists the keys in order of first
      appearance, and gives each key the sum of its items' weights. */
  lemma {:induction false} TallyByMeaning<T, K>(items: seq<T>, key: T -> K, weight: T -> int)
    ensures TallyBy(items, key, weight).keys == KeysOf(items, key)
    ensures forall k :: k in TallyBy(items, key, weight).vals ==>
      TallyBy(items, key, weight).vals[k] == SumWhere(items, key, k, weight)
    decreases |items|
  {
    if items != [] {
      var n := |items| - 1;
      var prefix := items[..n];
      var x := items[n];
      var d := TallyBy(prefix, key, weight);
      TallyByMeaning(prefix, key, weight);
      FillValid(prefix, key, weight, weight);
      var r := TallyBy(items, key, weight);
      var kx := key(x);
      assert r == AddTo(d, kx, weight(x));
      if kx !in d.vals {
        KeysOfMembers(prefix, key);
        AbsentKey(prefix, key, kx, weight, weight);
      }
      forall k | k in r.vals
        ensures r.vals[k] == SumWhere(items, key, k, weight)
      {
        assert SumWhere(items, key, k, weight)
            == SumWhere(prefix, key, k, weight) + (if kx == k then weight(x) else 0);
        if k != kx {
          assert r.vals[k] == d.vals[k];
        }
      }
    }
  }

  /** Everything the items of key `k` contribute is selected, and nothing
      else is: an element of the selection comes from an item with that key. */
  lemma {:induction false} SelectMembers<T, K, E>(items: seq<T>, key: T -> K, k: K, elem: T -> E)
    ensures forall e :: e in Select(items, key, k, elem) ==>
      exists i :: 0 <= i < |items| && key(items[i]) == k && e == elem(items[i])
    ensures forall i :: 0 <= i < |items| && key(items[i]) == k ==> elem(items[i]) in Select(items, key, k, elem)
    decreases |items|
  {
    if items != [] {
      var n := |items| - 1;
      var prefix := items[..n];
      SelectMembers(prefix, key, k, elem);
      assert forall i :: 0 <= i < n ==> prefix[i] == items[i];
      assert Select(items, key, k, elem)
          == Select(prefix, key, k, elem) + (if key(items[n]) == k then [elem(items[n])] else []);
    }
  }

  /** Filling a dictionary by `.append` lists the same keys, and gives each
      key its items in order. */
  lemma {:induction false} GroupByMeaning<T, K, E>(items: seq<T>, key: T -> K, elem: T -> E)
    ensures GroupBy(items, key, elem).keys == KeysOf(items, key)
    ensures forall k :: k in GroupBy(items, key, elem).vals ==>
      GroupBy(items, key, elem).vals[k] == Select(items, key, k, elem)
    decreases |items|
  {
    if items != [] {
      var n := |items| - 1;
      var prefix := items[..n];
      var x := items[n];
      var d := GroupBy(prefix, key, elem);
      GroupByMeaning(prefix, key, elem);
      FillValid(prefix, key, (t: T) => 0, elem);
      var r := GroupBy(items, key, elem);
      var kx := key(x);
      assert r == Append(d, kx, elem(x));
      if kx !in d.vals {
        KeysOfMembers(prefix, key);
        AbsentKey(prefix, key, kx, (t: T) => 0, elem);
      }
      forall k | k in r.vals
        ensures r.vals[k] == Select(items, key, k, elem)
      {
        assert Select(items, key, k, elem)
            == Select(prefix, key, k, elem) + (if kx == k then [elem(x)] else []);
        if k != kx {
          assert r.vals[k] == d.vals[k];
        }
      }
    }
  }

  /** Summing a key's list gives the key's total. */
  lemma {:induction false} SumSelect<T, K>(items: seq<T>, key: T -> K, k: K, weight: T -> int)
    ensures Sum(Select(items, key, k, weight)) == SumWhere(items, key, k, weight)
    decreases |items|
  {
    if items != [] {
      var n := |items| - 1;
      SumSelect(items[..n], key, k, weight);
      var s := Select(items[..n], key, k, weight);
      if key(items[n]) == k {
        assert (s + [weight(items[n])])[..|s|] == s;
      } else {
        assert s + [] == s;
      }
    }
  }

  /** `Sum` over a sequence with one entry changed. */
  lemma {:induction false} SumUpdate(s: seq<int>, i: int, v: int)
    requires 0 <= i < |s|
    ensures Sum(s[i := v]) == Sum(s) - s[i] + v
    decreases |s|
  {
    var n := |s| - 1;
    if i < n {
      SumUpdate(s[..n], i, v);
      assert s[i := v][..n] == s[..n][i := v];
    } else {
      assert s[i := v][..n] == s[..n];
    }
  }

  /** `Sum` over a sequence with one entry added at the end. */
  lemma {:induction false} SumSnoc(s: seq<int>, v: int)
    ensures Sum(s + [v]) == Sum(s) + v
  {
    assert (s + [v])[..|s|] == s;
  }

  /** One `+=` raises the sum of all values by the amount added. */
  lemma {:induction false} AddToSum<K>(d: ODict<K, int>, k: K, delta: int)
    requires Valid(d)
    ensures Valid(AddTo(d, k, delta))
    ensures Sum(Values(AddTo(d, k, delta))) == Sum(Values(d)) + delta
  {
    var r := AddTo(d, k, delta);
    PutValid(d, k, (if k in d.vals then d.vals[k] else 0) + delta);
    if k in d.vals {
      var i :| 0 <= i < |d.keys| && d.keys[i] == k;
      assert Values(r) == Values(d)[i := d.vals[k] + delta];
      SumUpdate(Values(d), i, d.vals[k] + delta);
    } else {
      assert Values(r) == Values(d) + [delta];
      SumSnoc(Values(d), delta);
    }
  }

  /** Whatever keys the items have, the values of a `+=` dictionary add up
      to the total weight of the items. */
  lemma {:induction false} TallyBySum<T, K>(items: seq<T>, key: T -> K, weight: T -> int)
    ensures Valid(TallyBy(items, key, weight))
    ensures Sum(Values(TallyBy(items, key, weight))) == SumAll(items, weight)
    decreases |items|
  {
    FillValid(items, key, weight, weight);
    if items != [] {
      var n := |items| - 1;
      TallyBySum(items[..n], key, weight);
      AddToSum(TallyBy(items[..n], key, weight), key(items[n]), weight(items[n]));
    }
  }
}
