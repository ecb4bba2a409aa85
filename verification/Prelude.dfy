// Shared vocabulary: results, insertion-ordered dictionaries and sums over maps.

module Prelude {

  datatype Option<+T> = None | Some(value: T)

  datatype Result<+T, +E> = Ok(value: T) | Err(error: E)

  predicate Distinct<T(==)>(s: seq<T>) {
    forall i, j :: 0 <= i < j < |s| ==> s[i] != s[j]
  }

  lemma ConcatAssoc<T>(a: seq<T>, b: seq<T>, c: seq<T>)
    ensures a + (b + c) == (a + b) + c
  {
  }

  // ----- Insertion-ordered dictionaries --------------------------------------

  /** A Python `dict` with string keys: overwriting a key keeps its place, a new key goes last. */
  datatype Dict<V> = Dict(keys: seq<string>, m: map<string, V>) {

    ghost predicate Valid() {
      && Distinct(keys)
      && (forall k :: k in keys <==> k in m)
    }

    function Put(k: string, v: V): (d: Dict<V>)
      ensures Valid() ==> d.Valid() && d.m == m[k := v]
    {
      Dict(if k in m then keys else keys + [k], m[k := v])
    }

    function Remove(k: string): (d: Dict<V>)
      ensures Valid() ==> d.Valid() && d.m == m - {k}
      ensures Valid() && k !in m ==> d == this
    {
      var d := Dict(Without(keys, k), m - {k});
      WithoutMembers(keys, k);
      assert k !in m ==> m - {k} == m;
      d
    }
  }

  // ----- Going through the keys of a dictionary one by one ---------------------

  ghost function KeysUpTo(keys: seq<string>, i: nat): set<string>
    requires i <= |keys|
  {
    set k | k in keys[..i]
  }

  lemma KeysStep(keys: seq<string>, i: nat)
    requires i < |keys|
    ensures KeysUpTo(keys, i + 1) == KeysUpTo(keys, i) + {keys[i]}
    ensures Distinct(keys) ==> keys[i] !in KeysUpTo(keys, i)
  {
    assert keys[..i + 1] == keys[..i] + [keys[i]];
  }

  lemma AllKeys<V>(d: Dict<V>)
    requires d.Valid()
    ensures KeysUpTo(d.keys, |d.keys|) == d.m.Keys
  {
    assert d.keys[..|d.keys|] == d.keys;
  }

  function Without(s: seq<string>, k: string): seq<string> {
    if s == [] then []
    else if s[0] == k then Without(s[1..], k)
    else [s[0]] + Without(s[1..], k)
  }

  lemma WithoutMembers(s: seq<string>, k: string)
    ensures forall x :: x in Without(s, k) <==> x in s && x != k
    ensures Distinct(s) ==> Distinct(Without(s, k))
    ensures k !in s ==> Without(s, k) == s
  {
    if s != [] {
      WithoutMembers(s[1..], k);
      assert forall x :: x in s <==> x == s[0] || x in s[1..];
      if Distinct(s) {
        assert forall i :: 0 <= i < |s[1..]| ==> s[1..][i] == s[i + 1];
        assert s[0] !in Without(s[1..], k);
      }
    }
  }

  // ----- Sums over the values of a map ---------------------------------------

  ghost function MapSum(m: map<string, real>): real {
    if m == map[] then 0.0
    else
      var k :| k in m;
      m[k] + MapSum(m - {k})
  }

  /** The sum does not depend on which key is taken out first. */
  lemma {:induction false} MapSumRemove(m: map<string, real>, k: string)
    requires k in m
    ensures MapSum(m) == m[k] + MapSum(m - {k})
    decreases |m|
  {
    var c :| c in m && MapSum(m) == m[c] + MapSum(m - {c});
    if c != k {
      MapSumRemove(m - {c}, k);
      MapSumRemove(m - {k}, c);
      assert m - {c} - {k} == m - {k} - {c};
    }
  }

  lemma MapSumPut(m: map<string, real>, k: string, v: real)
    ensures MapSum(m[k := v]) == MapSum(m) - (if k in m then m[k] else 0.0) + v
  {
    MapSumRemove(m[k := v], k);
    assert m[k := v] - {k} == m - {k};
    if k in m {
      MapSumRemove(m, k);
    } else {
      assert m - {k} == m;
    }
  }
}
