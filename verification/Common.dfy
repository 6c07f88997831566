/** Small shared vocabulary. */
module Common {

  newtype byte = x: int | 0 <= x < 256

  datatype Option<+T> = None | Some(value: T)

  function Elements<T>(s: seq<T>): set<T> {
    set x | x in s
  }

  ghost predicate Distinct<T>(s: seq<T>) {
    forall i, j :: 0 <= i < j < |s| ==> s[i] != s[j]
  }

  lemma ElementsOfPrefix<T>(s: seq<T>, i: nat)
    requires i < |s|
    ensures Elements(s[..i + 1]) == Elements(s[..i]) + {s[i]}
    ensures Distinct(s) ==> s[i] !in s[..i]
  {
    assert s[..i + 1] == s[..i] + [s[i]];
  }

  lemma {:induction false} DistinctLength<T>(s: seq<T>)
    requires Distinct(s)
    ensures |Elements(s)| == |s|
  {
    if s != [] {
      var n := |s| - 1;
      DistinctLength(s[..n]);
      ElementsOfPrefix(s, n);
      assert s[..n + 1] == s;
    }
  }

  /** A map that holds exactly the listed keys, each with its listed value. */
  ghost predicate Tabulates<K, V>(m: map<K, V>, keys: seq<K>, values: seq<V>)
    requires |keys| == |values|
  {
    && |m| == |keys| && m.Keys == Elements(keys)
    && forall i :: 0 <= i < |keys| ==> keys[i] in m && m[keys[i]] == values[i]
  }

  lemma TabulatesMore<K, V>(m: map<K, V>, keys: seq<K>, values: seq<V>, k: K, v: V)
    requires |keys| == |values| && Tabulates(m, keys, values) && k !in keys
    ensures Tabulates(m[k := v], keys + [k], values + [v])
  {
    assert m[k := v].Keys == m.Keys + {k};
    assert Elements(keys + [k]) == Elements(keys) + {k};
  }

  lemma LastSplit<T>(s: seq<T>)
    requires s != []
    ensures s == s[..|s| - 1] + [s[|s| - 1]]
    ensures Distinct(s) ==> s[|s| - 1] !in s[..|s| - 1]
  {
  }

  /** Some enumeration of a set: callers learn nothing about its order. */
  method AnyOrder<T(==)>(s: set<T>) returns (order: seq<T>)
    ensures Distinct(order) && Elements(order) == s
  {
    order := [];
    var rest := s;
    while rest != {}
      invariant Distinct(order) && rest <= s
      invariant forall x :: x in s ==> (x in order <==> x !in rest)
      invariant forall x :: x in order ==> x in s
    {
      var x :| x in rest;
      order, rest := order + [x], rest - {x};
    }
  }

  /** A map with the entries under `seen` updated by `f`. */
  ghost function Updated<K, V>(m: map<K, V>, f: V -> V, seen: set<K>): map<K, V> {
    map k | k in m :: if k in seen then f(m[k]) else m[k]
  }

  lemma UpdatedMore<K, V>(m: map<K, V>, f: V -> V, seen: set<K>, k: K)
    requires k in m && k !in seen
    ensures Updated(m, f, seen)[k := f(Updated(m, f, seen)[k])] == Updated(m, f, seen + {k})
  {
  }

  /** The keys that a range over a Go map may offer while the loop inserts: all
      keys present at the start, each once, and possibly others. */
  method RangeOrder<T(==)>(keys: set<T>) returns (order: seq<T>)
    ensures Distinct(order) && keys <= Elements(order)
  {
    order := AnyOrder(keys);
  }
}
