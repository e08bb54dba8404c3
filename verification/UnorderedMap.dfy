/** ecs::unordered_map: a vector of pairs searched linearly, with swap-with-last erase. */
module UnorderedMap {

  /** find_if: the first element the predicate accepts, or the end. */
  method FindIf<T>(s: seq<T>, f: T -> bool) returns (i: nat)
    ensures i <= |s| && (i < |s| ==> f(s[i]))
    ensures forall j :: 0 <= j < i ==> !f(s[j])
  {
    i := 0;
    while i < |s|
      invariant i <= |s| && forall j :: 0 <= j < i ==> !f(s[j])
    {
      if f(s[i]) { return; }
      i := i + 1;
    }
  }

  ghost predicate DistinctKeys<K, V>(s: seq<(K, V)>) {
    forall i, j :: 0 <= i < j < |s| ==> s[i].0 != s[j].0
  }

  /** The finite map a sequence of pairs stands for. */
  ghost function ToMap<K, V>(s: seq<(K, V)>): map<K, V> {
    if s == [] then map[] else ToMap(s[..|s| - 1])[s[|s| - 1].0 := s[|s| - 1].1]
  }

  lemma {:induction false} ToMapKeys<K, V>(s: seq<(K, V)>, k: K)
    ensures k in ToMap(s) <==> exists i :: 0 <= i < |s| && s[i].0 == k
  {
    if s != [] {
      ToMapKeys(s[..|s| - 1], k);
      if k in ToMap(s[..|s| - 1]) {
        var i :| 0 <= i < |s| - 1 && s[..|s| - 1][i].0 == k;
        assert s[i].0 == k;
      }
      if k == s[|s| - 1].0 { assert s[|s| - 1].0 == k; }
      if i :| 0 <= i < |s| && s[i].0 == k { if i < |s| - 1 { assert s[..|s| - 1][i].0 == k; } }
    }
  }

  lemma {:induction false} ToMapAt<K, V>(s: seq<(K, V)>, i: nat)
    requires DistinctKeys(s) && i < |s|
    ensures s[i].0 in ToMap(s) && ToMap(s)[s[i].0] == s[i].1
  {
    if i < |s| - 1 { ToMapAt(s[..|s| - 1], i); }
  }

  /** With distinct keys, a map agrees with the pairs exactly when both directions do. */
  lemma ToMapIs<K, V>(s: seq<(K, V)>, m: map<K, V>)
    requires DistinctKeys(s)
    requires forall i :: 0 <= i < |s| ==> s[i].0 in m && m[s[i].0] == s[i].1
    requires forall k :: k in m ==> exists i :: 0 <= i < |s| && s[i].0 == k
    ensures ToMap(s) == m
  {
    var r := ToMap(s);
    forall k | k in r ensures k in m {
      ToMapKeys(s, k);
    }
    forall k | k in m ensures k in r && r[k] == m[k] {
      var i :| 0 <= i < |s| && s[i].0 == k;
      ToMapAt(s, i);
    }
    assert r.Keys == m.Keys;
  }

  /** `s` without position i, the last pair moved into the hole. */
  function SwapRemove<T>(s: seq<T>, i: nat): seq<T>
    requires i < |s|
  {
    s[i := s[|s| - 1]][..|s| - 1]
  }

  lemma SwapRemovePairs<K, V>(s: seq<(K, V)>, i: nat)
    requires DistinctKeys(s) && i < |s|
    ensures DistinctKeys(SwapRemove(s, i))
    ensures var r, m := SwapRemove(s, i), ToMap(s) - {s[i].0};
      forall j :: 0 <= j < |r| ==> r[j].0 in m && m[r[j].0] == r[j].1
  {
    var r := SwapRemove(s, i);
    forall j | 0 <= j < |r| ensures r[j].0 in ToMap(s) && r[j].0 != s[i].0 && ToMap(s)[r[j].0] == r[j].1 {
      ToMapAt(s, if j == i then |s| - 1 else j);
    }
  }

  lemma SwapRemoveKey<K, V>(s: seq<(K, V)>, i: nat, k: K) returns (j: nat)
    requires DistinctKeys(s) && i < |s| && k in ToMap(s) && k != s[i].0
    ensures j < |SwapRemove(s, i)| && SwapRemove(s, i)[j].0 == k
  {
    ToMapKeys(s, k);
    j :| 0 <= j < |s| && s[j].0 == k;
    if j == |s| - 1 { j := i; }
  }

  /** Swap-with-last removes exactly the pair at i. */
  lemma SwapRemoveIsErase<K, V>(s: seq<(K, V)>, i: nat)
    requires DistinctKeys(s) && i < |s|
    ensures DistinctKeys(SwapRemove(s, i)) && ToMap(SwapRemove(s, i)) == ToMap(s) - {s[i].0}
  {
    var r, m := SwapRemove(s, i), ToMap(s) - {s[i].0};
    SwapRemovePairs(s, i);
    forall k | k in m ensures exists j :: 0 <= j < |r| && r[j].0 == k { var j := SwapRemoveKey(s, i, k); }
    ToMapIs(r, m);
  }

  lemma Overwrite<K, V>(s: seq<(K, V)>, i: nat, v: V)
    requires DistinctKeys(s) && i < |s|
    ensures var r := s[i := (s[i].0, v)]; DistinctKeys(r) && ToMap(r) == ToMap(s)[s[i].0 := v]
  {
    var r, m := s[i := (s[i].0, v)], ToMap(s)[s[i].0 := v];
    forall j | 0 <= j < |r| ensures r[j].0 in m && m[r[j].0] == r[j].1 { ToMapAt(s, j); }
    forall k | k in m ensures exists j :: 0 <= j < |r| && r[j].0 == k {
      ToMapKeys(s, k);
      if k == s[i].0 {
        assert r[i].0 == k;
      } else {
        var j :| 0 <= j < |s| && s[j].0 == k;
        assert r[j].0 == k;
      }
    }
    ToMapIs(r, m);
  }

  class UnorderedMap<K(==), V> {
    var storage: seq<(K, V)>

    ghost predicate Valid()
      reads this
    {
      DistinctKeys(storage)
    }

    ghost function View(): map<K, V>
      reads this
    {
      ToMap(storage)
    }

    constructor ()
      ensures Valid() && View() == map[]
    {
      storage := [];
    }

    method Find(key: K) returns (i: nat)
      requires Valid()
      ensures i <= |storage| && (i < |storage| <==> key in View())
      ensures i < |storage| ==> storage[i].0 == key && View()[key] == storage[i].1
    {
      i := FindIf(storage, (kv: (K, V)) => kv.0 == key);
      ToMapKeys(storage, key);
      if i < |storage| { ToMapAt(storage, i); }
    }

    method Count(key: K) returns (n: nat)
      requires Valid()
      ensures n == if key in View() then 1 else 0
    {
      var i := Find(key);
      n := if i == |storage| then 0 else 1;
    }

    /** operator[]: the value, inserting `initial` (a default value) for a missing key. */
    method Index(key: K, initial: V) returns (v: V)
      requires Valid()
      modifies this
      ensures Valid() && v == (if key in old(View()) then old(View())[key] else initial)
      ensures View() == old(View())[key := v]
    {
      var i := Find(key);
      if i < |storage| {
        assert View() == View()[key := storage[i].1];
        return storage[i].1;
      }
      ToMapKeys(storage, key);
      Append(key, initial);
      v := initial;
    }

    /** The assignment m[key] = v. */
    method Put(key: K, v: V)
      requires Valid()
      modifies this
      ensures Valid() && View() == old(View())[key := v]
    {
      var i := Find(key);
      if i < |storage| {
        Overwrite(storage, i, v);
        storage := storage[i := (key, v)];
      } else {
        ToMapKeys(storage, key);
        Append(key, v);
      }
    }

    method Append(key: K, v: V)
      requires Valid() && forall i :: 0 <= i < |storage| ==> storage[i].0 != key
      modifies this
      ensures Valid() && View() == old(View())[key := v]
    {
      assert (storage + [(key, v)])[..|storage|] == storage;
      storage := storage + [(key, v)];
    }

    method Insert(key: K, v: V) returns (inserted: bool)
      requires Valid()
      modifies this
      ensures Valid() && inserted == (key !in old(View()))
      ensures View() == if inserted then old(View())[key := v] else old(View())
    {
      var i := Find(key);
      inserted := i == |storage|;
      if inserted {
        ToMapKeys(storage, key);
        Append(key, v);
      }
    }

    method Erase(key: K)
      requires Valid()
      modifies this
      ensures Valid() && View() == old(View()) - {key}
    {
      var i := Find(key);
      if i < |storage| {
        SwapRemoveIsErase(storage, i);
        storage := storage[i := storage[|storage| - 1]];
        storage := storage[..|storage| - 1];
      }
    }

    /** The loop of clearFinishedList. */
    method EraseAll(keys: seq<K>)
      requires Valid()
      modifies this
      ensures Valid() && View() == old(View()) - (set k | k in keys)
    {
      var i := 0;
      while i < |keys|
        invariant i <= |keys| && Valid() && View() == old(View()) - (set k | k in keys[..i])
      {
        Erase(keys[i]);
        assert keys[..i + 1] == keys[..i] + [keys[i]];
        i := i + 1;
      }
      assert keys[..i] == keys;
    }
  }
}
