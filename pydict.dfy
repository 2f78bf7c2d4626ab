/**
  A Python `dict` as the bot uses it: a finite map whose iteration order is
  the order in which its keys were first inserted. Assigning to a key that is
  already present keeps that key's position; `del` takes the key out and the
  remaining keys keep their relative order.
 */
module PyDict {
  import opened Wrappers

  /** No element occurs twice. */
  ghost predicate Distinct<T>(s: seq<T>) {
    forall i, j :: 0 <= i < j < |s| ==> s[i] != s[j]
  }

  /** `s` with every occurrence of `x` taken out, the rest in order. */
  function Without<T(==,!new)>(s: seq<T>, x: T): (r: seq<T>)
    ensures forall y :: y in r <==> y in s && y != x
    ensures x !in s ==> r == s
    ensures Distinct(s) ==> Distinct(r)
    ensures Distinct(s) && x in s ==> |r| == |s| - 1
  {
    if s == [] then []
    else if s[0] == x then Without(s[1..], x)
    else
      var rest := Without(s[1..], x);
      assert Distinct(s) ==> s[0] !in s[1..];
      [s[0]] + rest
  }

  /** Keys in insertion order, and the mapping they index. */
  datatype Dict<K(==,!new), V> = Dict(keys: seq<K>, items: map<K, V>) {

    /** The representation invariant: each key listed once, and exactly the mapped keys listed. */
    ghost predicate Valid() {
      && Distinct(keys)
      && forall k :: k in items <==> k in keys
    }

    /** `d.get(k)`: the value stored under `k`, if any. */
    function Get(k: K): Option<V> {
      if k in items then Some(items[k]) else None
    }

    /** `d[k] = v`: insert a new key at the end, or overwrite in place. */
    function Set(k: K, v: V): (r: Dict<K, V>)
      requires Valid()
      ensures r.Valid()
      ensures r.Get(k) == Some(v)
      ensures forall k' :: k' != k ==> r.Get(k') == Get(k')
      ensures k in items ==> r.keys == keys
      ensures k !in items ==> r.keys == keys + [k]
    {
      if k in items then Dict(keys, items[k := v])
      else Dict(keys + [k], items[k := v])
    }

    /** `del d[k]` for a key that is present (Python raises KeyError otherwise). */
    function Del(k: K): (r: Dict<K, V>)
      requires Valid()
      requires k in items
      ensures r.Valid()
      ensures r.Get(k) == None
      ensures forall k' :: k' != k ==> r.Get(k') == Get(k')
      ensures r.keys == Without(keys, k)
      ensures |r.keys| == |keys| - 1
    {
      Dict(Without(keys, k), items - {k})
    }
  }

  /** `{}` */
  function Empty<K(==,!new), V>(): (d: Dict<K, V>)
    ensures d.Valid()
    ensures forall k :: d.Get(k) == None
  {
    Dict([], map[])
  }

  /** Last write wins: two assignments to one key leave the dict as the second alone would. */
  lemma SetTwice<K(!new), V>(d: Dict<K, V>, k: K, v1: V, v2: V)
    requires d.Valid()
    ensures d.Set(k, v1).Set(k, v2) == d.Set(k, v2)
  {
    var once := d.Set(k, v1);
    assert once.Set(k, v2).items == d.items[k := v2];
  }

  /** Deleting a key that was just inserted gives back the dict as it was, order included. */
  lemma DelUndoesSet<K(!new), V>(d: Dict<K, V>, k: K, v: V)
    requires d.Valid()
    requires k !in d.items
    ensures d.Set(k, v).Del(k) == d
  {
    WithoutAppended(d.keys, k);
    assert d.Set(k, v).Del(k).items == d.items;
  }

  lemma {:induction false} WithoutAppended<T(!new)>(s: seq<T>, x: T)
    requires x !in s
    ensures Without(s + [x], x) == s
  {
    if s == [] {
    } else {
      assert (s + [x])[1..] == s[1..] + [x];
      WithoutAppended(s[1..], x);
    }
  }
}
