/**
  A Python `dict` with string keys: a map together with the order in which
  its keys were first inserted. Assigning to a present key keeps its
  position; `del` removes the key from the order.
 */
module OrderedMaps {
  import opened Common

  /** No key occurs twice in `s`. */
  predicate Distinct(s: seq<string>)
  {
    forall i, j :: 0 <= i < j < |s| ==> s[i] != s[j]
  }

  /** `s` without any occurrence of `k`, the others kept in order. */
  function Without(s: seq<string>, k: string): (r: seq<string>)
    ensures |r| <= |s|
    ensures forall x :: x in r <==> x in s && x != k
    ensures Distinct(s) ==> Distinct(r)
  {
    if s == [] then []
    else if s[0] == k then Without(s[1..], k)
    else
      var rest := Without(s[1..], k);
      assert Distinct(s) ==> Distinct([s[0]] + rest) by {
        if Distinct(s) {
          assert forall j :: 1 <= j < |s| ==> s[j] != s[0];
          assert s[0] !in s[1..];
          assert Distinct(s[1..]);
        }
      }
      [s[0]] + rest
  }

  /** Removing an element of a list without repetitions is cutting it out
      at its one position. */
  lemma {:induction false} WithoutAt(s: seq<string>, i: nat)
    requires Distinct(s) && i < |s|
    ensures Without(s, s[i]) == s[..i] + s[i + 1..]
  {
    if i == 0 {
      WithoutAbsent(s[1..], s[0]);
    } else {
      WithoutAt(s[1..], i - 1);
      assert s[1..][i - 1] == s[i];
      assert s[1..][..i - 1] == s[1..i];
      assert s[1..][i..] == s[i + 1..];
      assert [s[0]] + s[1..i] == s[..i];
    }
  }

  lemma {:induction false} WithoutAbsent(s: seq<string>, k: string)
    requires k !in s
    ensures Without(s, k) == s
  {
    if s != [] {
      WithoutAbsent(s[1..], k);
      assert [s[0]] + s[1..] == s;
    }
  }

  lemma DistinctCons(x: string, s: seq<string>)
    ensures Distinct([x] + s) <==> x !in s && Distinct(s)
  {
    var t := [x] + s;
    if Distinct(t) {
      forall j | 0 <= j < |s|
        ensures s[j] != x
      {
        assert t[0] == x && t[j + 1] == s[j];
      }
      forall i, j | 0 <= i < j < |s|
        ensures s[i] != s[j]
      {
        assert t[i + 1] == s[i] && t[j + 1] == s[j];
      }
    }
    if x !in s && Distinct(s) {
      forall i, j | 0 <= i < j < |t|
        ensures t[i] != t[j]
      {
        assert t[j] == s[j - 1];
        if i > 0 {
          assert t[i] == s[i - 1];
        }
      }
    }
  }

  datatype OrderedMap<V> = OrderedMap(keys: seq<string>, entries: map<string, V>)
  {
    /** The order lists every key of the map exactly once. */
    ghost predicate Valid()
    {
      Distinct(keys) && forall k :: k in entries <==> k in keys
    }

    /** `d.get(k)`. */
    function Get(k: string): (r: Option<V>)
      ensures r.Some? <==> k in entries
    {
      if k in entries then Some(entries[k]) else None
    }

    /** `d[k] = v`. */
    function Put(k: string, v: V): (r: OrderedMap<V>)
      requires Valid()
      ensures r.Valid()
      ensures r.Get(k) == Some(v)
      ensures forall j :: j != k ==> r.Get(j) == Get(j)
      ensures k in entries ==> r.keys == keys
      ensures k !in entries ==> r.keys == keys + [k]
    {
      OrderedMap(if k in entries then keys else keys + [k], entries[k := v])
    }

    /** `del d[k]` for a present `k`; nothing for an absent one. */
    function Remove(k: string): (r: OrderedMap<V>)
      requires Valid()
      ensures r.Valid()
      ensures r.Get(k) == None
      ensures forall j :: j != k ==> r.Get(j) == Get(j)
      ensures forall i :: 0 <= i < |keys| && keys[i] == k ==> r.keys == keys[..i] + keys[i + 1..]
      ensures k !in entries ==> r == this
    {
      if k !in entries then
        WithoutAbsent(keys, k);
        this
      else
        var r := OrderedMap(Without(keys, k), entries - {k});
        assert forall i :: 0 <= i < |keys| && keys[i] == k ==> r.keys == keys[..i] + keys[i + 1..] by {
          forall i | 0 <= i < |keys| && keys[i] == k {
            WithoutAt(keys, i);
          }
        }
        r
    }

    /** `d.items()`, in insertion order. */
    function Items(): (items: seq<(string, V)>)
      requires Valid()
      ensures |items| == |keys|
      ensures forall i :: 0 <= i < |items| ==> items[i].0 == keys[i] && items[i].1 == entries[keys[i]]
    {
      seq(|keys|, i requires 0 <= i < |keys| => (keys[i], entries[keys[i]]))
    }
  }

  function Empty<V>(): (m: OrderedMap<V>)
    ensures m.Valid() && m.keys == [] && forall k :: m.Get(k) == None
  {
    OrderedMap([], map[])
  }
}
