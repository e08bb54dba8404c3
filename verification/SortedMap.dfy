/** ecs::list, a doubly linked list, and ecs::map, a sorted map kept on it. */
module SortedMap {
  import opened UnorderedMap

  class Node<T> {
    var val: T
    var prev: Node?<T>
    var next: Node?<T>

    constructor (val: T)
      ensures this.val == val && prev == null && next == null
    {
      this.val, prev, next := val, null, null;
    }
  }

  /** An iterator is a node and an end flag: end() is the last node with the flag set.  The
      flag is set by default too, and assignment copies the node alone. */
  datatype Iter<T> = Iter(p: Node?<T>, reachEnd: bool) {
    predicate Equals(other: Iter<T>) {
      (p == null && other.p == null) || (p == other.p && reachEnd == other.reachEnd)
    }

    function Assign(other: Iter<T>): Iter<T> { this.(p := other.p) }
  }

  class List<T> {
    var size: nat
    var begin: Node?<T>
    var rbegin: Node?<T>
    ghost var nodes: seq<Node<T>>

    /** prev and next mirror each other along `nodes`, and begin, rbegin and size agree. */
    ghost predicate Valid()
      reads this, nodes
    {
      && size == |nodes|
      && (forall i, j :: 0 <= i < j < |nodes| ==> nodes[i] != nodes[j])
      && begin == (if nodes == [] then null else nodes[0])
      && rbegin == (if nodes == [] then null else nodes[|nodes| - 1])
      && (forall i {:trigger nodes[i].next} :: 0 <= i < |nodes| ==> nodes[i].next == if i + 1 < |nodes| then nodes[i + 1] else null)
      && (forall i {:trigger nodes[i].prev} :: 0 <= i < |nodes| ==> nodes[i].prev == if i > 0 then nodes[i - 1] else null)
    }

    ghost function Contents(): (s: seq<T>)
      reads this, nodes
      ensures |s| == |nodes|
    {
      seq(|nodes|, i requires 0 <= i < |nodes| reads this, nodes => nodes[i].val)
    }

    constructor ()
      ensures Valid() && Contents() == [] && nodes == []
    {
      size, begin, rbegin, nodes := 0, null, null, [];
    }

    method PushBack(val: T)
      requires Valid()
      modifies this, nodes
      ensures Valid() && Contents() == old(Contents()) + [val]
      ensures fresh(nodes[|nodes| - 1]) && nodes[..|nodes| - 1] == old(nodes)
    {
      var n := new Node<T>(val);
      if size == 0 {
        begin := n;
        rbegin := n;
      } else {
        rbegin.next := n;
        n.prev := rbegin;
        rbegin := n;
      }
      nodes := nodes + [n];
      size := size + 1;
    }

    method PushFront(val: T)
      requires Valid()
      modifies this, nodes
      ensures Valid() && Contents() == [val] + old(Contents())
      ensures fresh(nodes[0]) && nodes[1..] == old(nodes)
    {
      var n := new Node<T>(val);
      if size == 0 {
        begin := n;
        rbegin := n;
      } else {
        begin.prev := n;
        n.next := begin;
        begin := n;
      }
      nodes := [n] + nodes;
      size := size + 1;
    }

    method PopBack()
      requires Valid()
      modifies this, nodes
      ensures Valid() && Contents() == if old(Contents()) == [] then [] else old(Contents())[..old(size) - 1]
    {
      if size == 0 { return; }
      if size == 1 {
        begin, rbegin, nodes, size := null, null, [], 0;
        return;
      }
      var last := rbegin.prev;
      last.next := null;
      rbegin := last;
      nodes := nodes[..|nodes| - 1];
      size := size - 1;
    }

    method PopFront()
      requires Valid()
      modifies this, nodes
      ensures Valid() && Contents() == if old(Contents()) == [] then [] else old(Contents())[1..]
    {
      if size == 0 { return; }
      if size == 1 {
        begin, rbegin, nodes, size := null, null, [], 0;
        return;
      }
      var first := begin.next;
      first.prev := null;
      begin := first;
      nodes := nodes[1..];
      size := size - 1;
    }

    /** The iterator at position i, the end at position |nodes|. */
    ghost predicate Points(it: Iter<T>, i: nat)
      reads this, nodes
    {
      && i <= |nodes|
      && (i < |nodes| ==> it == Iter(nodes[i], false))
      && (i == |nodes| ==> it.Equals(Iter(rbegin, true)))
    }

    method Begin() returns (it: Iter<T>)
      requires Valid()
      ensures Points(it, 0)
    {
      it := Iter(begin, false);
    }

    method End() returns (it: Iter<T>)
      requires Valid()
      ensures Points(it, |nodes|) && it == Iter(rbegin, true)
    {
      it := Iter(rbegin, true);
    }

    /** operator++ */
    method Advance(it: Iter<T>, ghost i: nat) returns (r: Iter<T>)
      requires Valid() && Points(it, i) && i < |nodes|
      ensures Points(r, i + 1)
    {
      r := it;
      if it.p != null && !it.reachEnd {
        if it.p.next != null {
          r := it.(p := it.p.next);
        } else {
          r := it.(reachEnd := true);
        }
      }
    }

    /** operator--, which from a node with a predecessor goes on to the next one. */
    method Retreat(it: Iter<T>) returns (r: Iter<T>)
      ensures it.p == null ==> r == it
      ensures it.p != null && it.reachEnd ==> r == Iter(it.p, false)
      ensures it.p != null && !it.reachEnd ==> r == if it.p.prev != null then Iter(it.p.next, false) else it
    {
      r := it;
      if it.p != null {
        if it.reachEnd { return it.(reachEnd := false); }
        if it.p.prev != null { r := it.(p := it.p.next); }
      }
    }

    /** Iterator comparison decides positions. */
    lemma PointsEqual(a: Iter<T>, i: nat, b: Iter<T>, j: nat)
      requires Valid() && Points(a, i) && Points(b, j)
      ensures a.Equals(b) <==> i == j
    {
    }

    method FindIf(f: T -> bool) returns (it: Iter<T>, ghost i: nat)
      requires Valid()
      ensures Points(it, i) && (i < |nodes| ==> f(Contents()[i]))
      ensures forall j :: 0 <= j < i ==> !f(Contents()[j])
    {
      it := Begin();
      var last := End();
      i := 0;
      while !it.Equals(last)
        invariant Points(it, i) && forall j :: 0 <= j < i ==> !f(Contents()[j])
        decreases |nodes| - i
      {
        PointsEqual(it, i, last, |nodes|);
        if f(it.p.val) { return; }
        it := Advance(it, i);
        i := i + 1;
      }
      PointsEqual(it, i, last, |nodes|);
    }

    /** The iterator returned points to the new node, but between two nodes with the end flag
        set. */
    method Insert(pos: Iter<T>, ghost i: nat, val: T) returns (r: Iter<T>)
      requires Valid() && Points(pos, i)
      modifies this, nodes
      ensures Valid() && Contents() == old(Contents())[..i] + [val] + old(Contents())[i..]
      ensures r.p != null && nodes == old(nodes)[..i] + [r.p] + old(nodes)[i..] && fresh(r.p)
      ensures r.reachEnd <==> 0 < i < |old(nodes)|
    {
      var first := Begin();
      PointsEqual(pos, i, first, 0);
      if pos.Equals(first) {
        PushFront(val);
        return Iter(begin, false);
      }
      var last := End();
      PointsEqual(pos, i, last, |nodes|);
      if pos.Equals(last) {
        PushBack(val);
        return Iter(rbegin, false);
      }
      var n := new Node<T>(val);
      Link(pos.p, n, i);
      r := Iter(null, true).(p := n);
    }

    /** With the flag set an iterator to node i is not the one the search finds, and equals the
        end if the node is the last. */
    lemma FlaggedIter(i: nat, it: Iter<T>)
      requires Valid() && i < |nodes| && Points(it, i)
      ensures var r := Iter(nodes[i], true); !r.Equals(it) && (r.Equals(Iter(rbegin, true)) <==> i + 1 == |nodes|)
    {
    }

    /** Links n in front of p, which has a predecessor. */
    method Link(p: Node<T>, n: Node<T>, ghost i: nat)
      requires Valid() && 0 < i < |nodes| && nodes[i] == p && n !in nodes && n.prev == null && n.next == null
      modifies this, nodes, n
      ensures Valid() && nodes == old(nodes)[..i] + [n] + old(nodes)[i..]
      ensures n.val == old(n.val) && forall k :: 0 <= k < |old(nodes)| ==> old(nodes)[k].val == old(nodes[k].val)
    {
      p.prev.next := n;
      n.prev := p.prev;
      p.prev := n;
      n.next := p;
      size := size + 1;
      nodes := nodes[..i] + [n] + nodes[i..];
    }
  }

  // ---- the sorted map ---------------------------------------------------------

  ghost predicate Ascending<V>(s: seq<(int, V)>) {
    forall i, j :: 0 <= i < j < |s| ==> s[i].0 < s[j].0
  }

  /** The place of a key: everything before is smaller, everything from there on is not. */
  ghost predicate PlaceFor<V>(s: seq<(int, V)>, i: nat, key: int) {
    && i <= |s|
    && (forall j :: 0 <= j < i ==> s[j].0 < key)
    && (forall j :: i <= j < |s| ==> s[j].0 >= key)
  }

  /** In an ascending list the search may stop at the first key that is not smaller. */
  lemma StopsEarly<V>(s: seq<(int, V)>, i: nat, key: int)
    requires Ascending(s) && i <= |s| && (i < |s| ==> s[i].0 >= key) && forall j :: 0 <= j < i ==> s[j].0 < key
    ensures PlaceFor(s, i, key)
    ensures key in ToMap(s) <==> i < |s| && s[i].0 == key
    ensures key in ToMap(s) ==> ToMap(s)[key] == s[i].1
  {
    ToMapKeys(s, key);
    if i < |s| { ToMapAt(s, i); }
  }

  function Inserted<V>(s: seq<(int, V)>, i: nat, kv: (int, V)): seq<(int, V)>
    requires i <= |s|
  {
    s[..i] + [kv] + s[i..]
  }

  lemma InsertAscending<V>(s: seq<(int, V)>, i: nat, key: int, v: V)
    requires Ascending(s) && PlaceFor(s, i, key) && !(i < |s| && s[i].0 == key)
    ensures Ascending(Inserted(s, i, (key, v)))
  {
    assert forall j :: i <= j < |s| ==> s[j].0 > key;
  }

  lemma InsertedAt<V>(s: seq<(int, V)>, i: nat, kv: (int, V), j: nat)
    requires i <= |s| && j <= |s|
    ensures |Inserted(s, i, kv)| == |s| + 1
    ensures Inserted(s, i, kv)[j] == if j < i then s[j] else if j == i then kv else s[j - 1]
  {
  }

  lemma InsertedPair<V>(s: seq<(int, V)>, i: nat, key: int, v: V, j: nat)
    requires DistinctKeys(s) && i <= |s| && DistinctKeys(Inserted(s, i, (key, v))) && j <= |s|
    ensures |Inserted(s, i, (key, v))| == |s| + 1
    ensures var r, m := Inserted(s, i, (key, v)), ToMap(s)[key := v]; r[j].0 in m && m[r[j].0] == r[j].1
  {
    InsertedAt(s, i, (key, v), j);
    InsertedAt(s, i, (key, v), i);
    if j != i { ToMapAt(s, if j < i then j else j - 1); }
  }

  lemma InsertedKey<V>(s: seq<(int, V)>, i: nat, key: int, v: V, k: int)
    requires i <= |s| && k in ToMap(s)[key := v]
    ensures exists j :: 0 <= j < |Inserted(s, i, (key, v))| && Inserted(s, i, (key, v))[j].0 == k
  {
    if k == key {
      InsertedAt(s, i, (key, v), i);
      assert Inserted(s, i, (key, v))[i].0 == k;
    } else {
      ToMapKeys(s, k);
      var j :| 0 <= j < |s| && s[j].0 == k;
      var at := if j < i then j else j + 1;
      InsertedAt(s, i, (key, v), at);
      assert Inserted(s, i, (key, v))[at].0 == k;
    }
  }

  lemma InsertMaps<V>(s: seq<(int, V)>, i: nat, key: int, v: V)
    requires DistinctKeys(s) && i <= |s| && DistinctKeys(Inserted(s, i, (key, v)))
    ensures ToMap(Inserted(s, i, (key, v))) == ToMap(s)[key := v]
  {
    var r, m := Inserted(s, i, (key, v)), ToMap(s)[key := v];
    forall j | 0 <= j < |r| ensures r[j].0 in m && m[r[j].0] == r[j].1 { InsertedPair(s, i, key, v, j); }
    forall k | k in m ensures exists j :: 0 <= j < |r| && r[j].0 == k { InsertedKey(s, i, key, v, k); }
    ToMapIs(r, m);
  }

  lemma InsertKeepsOrder<V>(s: seq<(int, V)>, i: nat, key: int, v: V)
    requires Ascending(s) && PlaceFor(s, i, key) && !(i < |s| && s[i].0 == key)
    ensures Ascending(Inserted(s, i, (key, v))) && ToMap(Inserted(s, i, (key, v))) == ToMap(s)[key := v]
  {
    InsertAscending(s, i, key, v);
    InsertMaps(s, i, key, v);
  }

  predicate SomeFrom<V>(m: map<int, V>, key: int) { exists k :: k in m && k >= key }

  class Map<V> {
    const storage: List<(int, V)>

    ghost predicate Valid()
      reads this, storage, storage.nodes
    {
      storage.Valid() && Ascending(storage.Contents())
    }

    ghost function View(): map<int, V>
      reads this, storage, storage.nodes
    {
      ToMap(storage.Contents())
    }

    constructor ()
      ensures Valid() && View() == map[] && fresh(storage) && storage.nodes == []
    {
      storage := new List<(int, V)>();
    }

    method Place(key: int) returns (it: Iter<(int, V)>, ghost i: nat)
      requires Valid()
      ensures storage.Points(it, i) && PlaceFor(storage.Contents(), i, key)
      ensures key in View() <==> i < |storage.nodes| && storage.Contents()[i].0 == key
      ensures key in View() ==> View()[key] == storage.Contents()[i].1
    {
      it, i := storage.FindIf((kv: (int, V)) => kv.0 >= key);
      StopsEarly(storage.Contents(), i, key);
    }

    method Find(key: int) returns (it: Iter<(int, V)>)
      requires Valid()
      ensures !it.Equals(Iter(storage.rbegin, true)) <==> key in View()
      ensures key in View() ==> it.p != null && it.p in storage.nodes && it.p.val == (key, View()[key])
    {
      ghost var i;
      it, i := storage.FindIf((kv: (int, V)) => kv.0 == key);
      ghost var s := storage.Contents();
      ToMapKeys(s, key);
      if i < |s| { ToMapAt(s, i); }
      storage.PointsEqual(it, i, Iter(storage.rbegin, true), |storage.nodes|);
    }

    /** count stops at the first key that is not smaller; that is enough. */
    method Count(key: int) returns (n: nat)
      requires Valid()
      ensures n == if key in View() then 1 else 0
    {
      var it, i := Place(key);
      var last := storage.End();
      storage.PointsEqual(it, i, last, |storage.nodes|);
      if it.Equals(last) { return 0; }
      n := if it.p.val.0 > key then 0 else 1;
    }

    /** operator[]: the node of the key, made with `initial` (a default value) if missing. */
    method Index(key: int, initial: V) returns (n: Node<(int, V)>)
      requires Valid()
      modifies storage, storage.nodes
      ensures Valid() && n in storage.nodes && n.val.0 == key
      ensures n.val.1 == if key in old(View()) then old(View())[key] else initial
      ensures View() == old(View())[key := n.val.1]
      ensures forall x :: x in storage.nodes ==> x in old(storage.nodes) || fresh(x)
    {
      var it, i := Place(key);
      var last := storage.End();
      storage.PointsEqual(it, i, last, |storage.nodes|);
      if !it.Equals(last) && it.p.val.0 == key {
        assert View() == View()[key := it.p.val.1];
        return it.p;
      }
      var r := PutNew(it, i, key, initial);
      n := r.p;
    }

    /** A missing key is put in its place. */
    method PutNew(it: Iter<(int, V)>, ghost i: nat, key: int, v: V) returns (r: Iter<(int, V)>)
      requires Valid() && storage.Points(it, i) && PlaceFor(storage.Contents(), i, key)
      requires !(i < |storage.nodes| && storage.Contents()[i].0 == key)
      modifies storage, storage.nodes
      ensures Valid() && View() == old(View())[key := v]
      ensures r.p != null && r.p in storage.nodes && r.p.val == (key, v)
      ensures forall x :: x in storage.nodes ==> x in old(storage.nodes) || fresh(x)
    {
      InsertKeepsOrder(storage.Contents(), i, key, v);
      r := storage.Insert(it, i, (key, v));
      assert storage.Contents()[i] == (key, v) && storage.nodes[i] == r.p;
    }

    /** Behind all others, and the end stepped back. */
    method PutLast(key: int, v: V) returns (r: Iter<(int, V)>)
      requires Valid() && PlaceFor(storage.Contents(), |storage.nodes|, key)
      modifies storage, storage.nodes
      ensures Valid() && View() == old(View())[key := v]
      ensures r.p != null && r.p in storage.nodes && r.p.val == (key, v) && !r.reachEnd
      ensures forall x :: x in storage.nodes ==> x in old(storage.nodes) || fresh(x)
    {
      ghost var s := storage.Contents();
      InsertKeepsOrder(s, |s|, key, v);
      assert Inserted(s, |s|, (key, v)) == s + [(key, v)];
      storage.PushBack((key, v));
      assert storage.Contents()[|s|] == (key, v);
      var last := storage.End();
      r := storage.Retreat(Iter(null, true).Assign(last));
    }

    /** insert(pair).  The iterator it returns points to the key, but its end flag is clear only
        behind all other keys: the result is built by assignment. */
    method InsertPair(key: int, v: V) returns (r: Iter<(int, V)>, inserted: bool)
      requires Valid()
      modifies storage, storage.nodes
      ensures Valid() && inserted == (key !in old(View()))
      ensures View() == if inserted then old(View())[key := v] else old(View())
      ensures r.p != null && r.p in storage.nodes && r.p.val == (key, View()[key])
      ensures r.reachEnd <==> SomeFrom(old(View()), key)
      ensures forall x :: x in storage.nodes ==> x in old(storage.nodes) || fresh(x)
    {
      var it, i := Place(key);
      var last := storage.End();
      storage.PointsEqual(it, i, last, |storage.nodes|);
      var atEnd := it.Equals(last);
      KeysFrom(storage.Contents(), i, key);
      if !atEnd && it.p.val.0 == key { return Iter(null, true).Assign(it), false; }
      inserted := true;
      if atEnd {
        r := PutLast(key, v);
      } else {
        r := PutNew(it, i, key, v);
        r := Iter(null, true).Assign(r);
      }
    }
  }

  lemma KeysFrom<V>(s: seq<(int, V)>, i: nat, key: int)
    requires PlaceFor(s, i, key)
    ensures i < |s| <==> SomeFrom(ToMap(s), key)
  {
    if i < |s| {
      var k := s[i].0;
      ToMapKeys(s, k);
      assert k in ToMap(s) && k >= key;
    } else {
      forall k | k in ToMap(s) ensures k < key { ToMapKeys(s, k); }
    }
  }
}
