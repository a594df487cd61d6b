/**
 utls/orderedmap: a hash map beside a doubly linked ring of its keys.

 `Pairs` is the simple form, a sequence of key/value pairs in insertion order. The class is the code's
 form, with the sentinel node, both link directions, `store` and `mapper`; its methods are proved to
 do to the ring what `Put` and `Drop` do to the sequence.
 */
module OrderedMap {
  import opened Wrappers

  // ----- the simple form

  type Pairs<K, V> = seq<(K, V)>

  function KeysOf<K, V>(s: Pairs<K, V>): (ks: seq<K>)
    ensures |ks| == |s|
    ensures forall i :: 0 <= i < |s| ==> ks[i] == s[i].0
  {
    seq(|s|, i requires 0 <= i < |s| => s[i].0)
  }

  function Put<K(==), V>(s: Pairs<K, V>, key: K, value: V): Pairs<K, V> {
    if s == [] then [(key, value)]
    else if s[0].0 == key then [(key, value)] + s[1..]
    else [s[0]] + Put(s[1..], key, value)
  }

  function Drop<K(==), V>(s: Pairs<K, V>, key: K): Pairs<K, V> {
    if s == [] then []
    else if s[0].0 == key then s[1..]
    else [s[0]] + Drop(s[1..], key)
  }

  function Look<K(==), V>(s: Pairs<K, V>, key: K): Option<V> {
    if s == [] then None
    else if s[0].0 == key then Some(s[0].1)
    else Look(s[1..], key)
  }

  function Reverse<T>(s: seq<T>): (r: seq<T>)
    ensures |r| == |s|
    ensures forall i :: 0 <= i < |s| ==> r[i] == s[|s| - 1 - i]
  {
    seq(|s|, i requires 0 <= i < |s| => s[|s| - 1 - i])
  }

  ghost predicate Distinct<T>(s: seq<T>) {
    forall i, j :: 0 <= i < j < |s| ==> s[i] != s[j]
  }

  /** The same said by recursion, which class invariants use: it costs the verifier less. */
  ghost predicate Unique<T>(s: seq<T>) {
    s == [] || (s[0] !in s[1..] && Unique(s[1..]))
  }

  lemma {:induction false} UniqueIsDistinct<T>(s: seq<T>)
    ensures Unique(s) <==> Distinct(s)
  {
    if s != [] {
      UniqueIsDistinct(s[1..]);
      if Distinct(s) {
        assert forall i, j :: 0 <= i < j < |s[1..]| ==> s[1..][i] == s[i + 1] && s[1..][j] == s[j + 1];
        assert s[0] !in s[1..];
      }
      if Unique(s) {
        assert forall i :: 0 < i < |s| ==> s[i] == s[1..][i - 1];
      }
    }
  }

  lemma {:induction false} UniqueAppend<T>(s: seq<T>, x: T)
    requires Unique(s) && x !in s
    ensures Unique(s + [x])
  {
    if s != [] {
      UniqueAppend(s[1..], x);
      assert (s + [x])[1..] == s[1..] + [x];
    }
  }

  // ----- runs of the simple form

  datatype Op<K, V> = SetOp(key: K, value: V) | DeleteOp(key: K)

  function Run<K(==), V>(ops: seq<Op<K, V>>): Pairs<K, V> {
    if ops == [] then [] else
    var before := Run(ops[..|ops| - 1]);
    match ops[|ops| - 1]
    case SetOp(k, v) => Put(before, k, v)
    case DeleteOp(k) => Drop(before, k)
  }

  /** What a reader of `key` must see, judged from the history alone. */
  function LastWrite<K(==), V>(ops: seq<Op<K, V>>, key: K): Option<V> {
    if ops == [] then None
    else if ops[|ops| - 1].key != key then LastWrite(ops[..|ops| - 1], key)
    else match ops[|ops| - 1]
      case SetOp(_, v) => Some(v)
      case DeleteOp(_) => None
  }

  /** When the present stay of `key` in the map began: its first Set since its last Delete. */
  function Since<K(==), V>(ops: seq<Op<K, V>>, key: K): Option<nat> {
    if ops == [] then None else
    var last := |ops| - 1;
    var before := Since(ops[..last], key);
    if ops[last].key != key then before
    else if ops[last].DeleteOp? then None
    else if before.Some? then before
    else Some(last)
  }

  lemma {:induction false} LookAfterPut<K, V>(s: Pairs<K, V>, key: K, value: V, other: K)
    ensures Look(Put(s, key, value), other) == if other == key then Some(value) else Look(s, other)
  {
    if s != [] && s[0].0 != key {
      LookAfterPut(s[1..], key, value, other);
    }
  }

  lemma {:induction false} LookAfterDrop<K, V>(s: Pairs<K, V>, key: K, other: K)
    requires Unique(KeysOf(s))
    ensures Look(Drop(s, key), other) == if other == key then None else Look(s, other)
  {
    if s != [] {
      assert KeysOf(s)[1..] == KeysOf(s[1..]);
      if s[0].0 == key {
        AbsentLook(s[1..], key);
      } else {
        LookAfterDrop(s[1..], key, other);
      }
    }
  }

  lemma {:induction false} AbsentLook<K, V>(s: Pairs<K, V>, key: K)
    ensures Look(s, key).None? <==> key !in KeysOf(s)
  {
    if s != [] {
      AbsentLook(s[1..], key);
      assert KeysOf(s) == [s[0].0] + KeysOf(s[1..]);
    }
  }

  lemma KeysCons<K, V>(p: (K, V), s: Pairs<K, V>)
    ensures KeysOf([p] + s) == [p.0] + KeysOf(s)
  {
  }

  lemma {:induction false} PutKeys<K, V>(s: Pairs<K, V>, key: K, value: V)
    ensures KeysOf(Put(s, key, value)) == if key in KeysOf(s) then KeysOf(s) else KeysOf(s) + [key]
  {
    hide KeysOf;
    if s != [] {
      assert s == [s[0]] + s[1..];
      KeysCons(s[0], s[1..]);
      if s[0].0 == key {
        KeysCons((key, value), s[1..]);
      } else {
        PutKeys(s[1..], key, value);
        KeysCons(s[0], Put(s[1..], key, value));
      }
    }
  }

  function Without<K(==)>(ks: seq<K>, key: K): seq<K> {
    if ks == [] then [] else if ks[0] == key then ks[1..] else [ks[0]] + Without(ks[1..], key)
  }

  lemma {:induction false} DropKeys<K, V>(s: Pairs<K, V>, key: K)
    ensures KeysOf(Drop(s, key)) == Without(KeysOf(s), key)
  {
    if s != [] {
      KeysHead(s);
      if s[0].0 != key {
        DropKeys(s[1..], key);
        KeysHead([s[0]] + Drop(s[1..], key));
      }
    }
  }

  lemma KeysHead<K, V>(s: Pairs<K, V>)
    requires s != []
    ensures KeysOf(s) == [s[0].0] + KeysOf(s[1..]) && KeysOf(s)[0] == s[0].0 && KeysOf(s)[1..] == KeysOf(s[1..])
  {
  }

  lemma {:induction false} WithoutAt<K>(ks: seq<K>, key: K, at: nat)
    requires at < |ks| && ks[at] == key && key !in ks[..at]
    ensures Without(ks, key) == ks[..at] + ks[at + 1..]
  {
    if at > 0 {
      assert ks[0] == ks[..at][0];
      assert ks[1..][..at - 1] == ks[..at][1..];
      WithoutAt(ks[1..], key, at - 1);
    }
  }

  lemma {:induction false} WithoutAbsent<K>(ks: seq<K>, key: K)
    requires key !in ks
    ensures Without(ks, key) == ks
  {
    if ks != [] {
      WithoutAbsent(ks[1..], key);
    }
  }

  function IndexOf<K(==)>(ks: seq<K>, key: K): (at: nat)
    requires key in ks
    ensures at < |ks| && ks[at] == key && key !in ks[..at]
  {
    if ks[0] == key then 0
    else
      var at := IndexOf(ks[1..], key) + 1;
      assert ks[..at] == [ks[0]] + ks[1..][..at - 1];
      at
  }

  lemma WithoutKeeps<K>(ks: seq<K>, key: K)
    requires Unique(ks)
    ensures Unique(Without(ks, key))
    ensures forall k :: k in Without(ks, key) <==> k in ks && k != key
  {
    UniqueIsDistinct(ks);
    UniqueIsDistinct(Without(ks, key));
    if key in ks {
      var at := IndexOf(ks, key);
      WithoutAt(ks, key, at);
      assert ks == ks[..at] + [key] + ks[at + 1..];
    } else {
      WithoutAbsent(ks, key);
    }
  }

  /** `ks` lists exactly the keys whose present stay the history dates, in the order of those dates. */
  ghost predicate Dated<K(!new), V>(ops: seq<Op<K, V>>, ks: seq<K>) {
    && (forall k :: k in ks <==> Since(ops, k).Some?)
    && (forall k :: Since(ops, k).Some? ==> Since(ops, k).value < |ops|)
    && (forall i, j :: 0 <= i < j < |ks| ==> Since(ops, ks[i]).value < Since(ops, ks[j]).value)
  }

  lemma DatedSet<K(!new), V>(ops: seq<Op<K, V>>, key: K, value: V, ks: seq<K>)
    requires Dated(ops, ks)
    ensures Dated(ops + [SetOp(key, value)], if key in ks then ks else ks + [key])
  {
    var all := ops + [SetOp(key, value)];
    assert all[..|ops|] == ops;
    assert forall k :: Since(all, k) == if k == key && Since(ops, k).None? then Some(|ops|) else Since(ops, k);
  }

  /** What is left keeps its order. */
  lemma {:induction false} WithoutInOrder<K>(ks: seq<K>, key: K, i: nat, j: nat) returns (x: nat, y: nat)
    requires i < j < |Without(ks, key)|
    ensures x < y < |ks| && ks[x] == Without(ks, key)[i] && ks[y] == Without(ks, key)[j]
  {
    if ks[0] == key {
      x, y := i + 1, j + 1;
    } else if i > 0 {
      x, y := WithoutInOrder(ks[1..], key, i - 1, j - 1);
      x, y := x + 1, y + 1;
    } else {
      x, y := 0, WithoutAmong(ks[1..], key, j - 1) + 1;
    }
  }

  function WithoutAmong<K(==)>(ks: seq<K>, key: K, j: nat): (y: nat)
    requires j < |Without(ks, key)|
    ensures y < |ks| && ks[y] == Without(ks, key)[j]
  {
    if ks[0] == key then j + 1 else if j == 0 then 0 else WithoutAmong(ks[1..], key, j - 1) + 1
  }

  lemma SinceDelete<K(!new), V>(ops: seq<Op<K, V>>, key: K)
    ensures forall k :: Since(ops + [DeleteOp(key)], k) == if k == key then None else Since(ops, k)
  {
    assert (ops + [DeleteOp(key)])[..|ops|] == ops;
  }

  lemma DatedDelete<K(!new), V>(ops: seq<Op<K, V>>, key: K, ks: seq<K>)
    requires Dated(ops, ks) && Unique(ks)
    ensures Dated(ops + [DeleteOp(key)], Without(ks, key))
  {
    hide Since, Without, Unique;
    var all, left := ops + [DeleteOp(key)], Without(ks, key);
    SinceDelete(ops, key);
    WithoutKeeps(ks, key);
    assert forall i :: 0 <= i < |left| ==> left[i] in left;
    forall i, j | 0 <= i < j < |left|
      ensures Since(all, left[i]).value < Since(all, left[j]).value
    {
      var x, y := WithoutInOrder(ks, key, i, j);
    }
  }

  /**
   Every run of Set and Delete: keys stay distinct, a lookup gives the last value written and not deleted,
   and the pairs stand in the order in which their present stays began.
   */
  lemma {:induction false} EveryRun<K(!new), V>(ops: seq<Op<K, V>>)
    ensures Unique(KeysOf(Run(ops)))
    ensures forall k :: Look(Run(ops), k) == LastWrite(ops, k)
    ensures Dated(ops, KeysOf(Run(ops)))
  {
    if ops != [] {
      var last := |ops| - 1;
      EveryRun(ops[..last]);
      var before := Run(ops[..last]);
      assert ops == ops[..last] + [ops[last]];
      match ops[last]
      case SetOp(k, v) =>
        PutKeys(before, k, v);
        if k !in KeysOf(before) {
          UniqueAppend(KeysOf(before), k);
        }
        forall o ensures Look(Run(ops), o) == LastWrite(ops, o) { LookAfterPut(before, k, v, o); }
        DatedSet(ops[..last], k, v, KeysOf(before));
      case DeleteOp(k) =>
        DropKeys(before, k);
        WithoutKeeps(KeysOf(before), k);
        forall o ensures Look(Run(ops), o) == LastWrite(ops, o) { LookAfterDrop(before, k, o); }
        DatedDelete(ops[..last], k, KeysOf(before));
    }
  }

  // ----- the code's form

  function PairsOf<K, V>(ks: seq<K>, m: map<K, V>): (s: Pairs<K, V>)
    requires forall k :: k in ks ==> k in m
    ensures KeysOf(s) == ks
    ensures forall i :: 0 <= i < |ks| ==> s[i] == (ks[i], m[ks[i]])
  {
    seq(|ks|, i requires 0 <= i < |ks| => (ks[i], m[ks[i]]))
  }

  class Node<K> {
    var Prev: Node<K>
    var Next: Node<K>
    const Value: Option<K>

    constructor Root()
      ensures Prev == this && Next == this && Value == None
    {
      Prev, Next, Value := this, this, None;
    }

    constructor (prev: Node<K>, next: Node<K>, key: K)
      ensures Prev == prev && Next == next && Value == Some(key)
    {
      Prev, Next, Value := prev, next, Some(key);
    }
  }

  /** The ring as a closed walk: the sentinel stands at both ends of the nodes of the live keys. */
  ghost function RingOf<K>(root: Node<K>, mapper: map<K, Node<K>>, keys: seq<K>): (r: seq<Node<K>>)
    requires forall k :: k in keys ==> k in mapper
    ensures |r| == |keys| + 2 && r[0] == root && r[|keys| + 1] == root
    ensures forall i :: 0 < i <= |keys| ==> r[i] == mapper[keys[i - 1]]
  {
    [root] + seq(|keys|, i requires 0 <= i < |keys| => mapper[keys[i]]) + [root]
  }

  /** `nx` and `pv` hold the forward and backward links of all nodes; the walk `ring` follows both. */
  ghost predicate Linked<N>(ring: seq<N>, nx: map<N, N>, pv: map<N, N>) {
    forall i :: 0 <= i < |ring| - 1 ==> Joined(ring, nx, pv, i)
  }

  ghost predicate Joined<N>(ring: seq<N>, nx: map<N, N>, pv: map<N, N>, i: nat)
    requires i < |ring| - 1
  {
    var a, b := ring[i], ring[i + 1];
    a in nx && b in pv && nx[a] == b && pv[b] == a
  }

  /** A walk that comes back to where it began and meets no other node twice. */
  ghost predicate Closed<N>(ring: seq<N>) {
    && |ring| >= 2 && ring[0] == ring[|ring| - 1]
    && (forall i, j :: 0 <= i < j < |ring| - 1 ==> ring[i] != ring[j])
  }

  /** The assignments of `Set` put a new node before the sentinel. */
  lemma SpliceIn<N>(ring: seq<N>, root: N, last: N, nx: map<N, N>, pv: map<N, N>, n: N)
    requires Closed(ring) && Linked(ring, nx, pv) && n !in ring
    requires root == ring[0] && root in pv && last == pv[root]
    ensures Linked(ring[..|ring| - 1] + [n, root], nx[last := n][n := root], pv[n := last][root := n])
  {
    var m := |ring| - 1;
    assert Joined(ring, nx, pv, m - 1);
    var out := ring[..m] + [n, root];
    var nx', pv' := nx[last := n][n := root], pv[n := last][root := n];
    forall i | 0 <= i < m + 1
      ensures Joined(out, nx', pv', i)
    {
      if i < m - 1 {
        assert Joined(ring, nx, pv, i);
      }
    }
  }

  /** The two assignments of `Delete`, made for a node on the ring, take it out. */
  lemma SpliceOut<N>(ring: seq<N>, nx: map<N, N>, pv: map<N, N>, at: nat)
    requires Closed(ring) && Linked(ring, nx, pv) && 0 < at < |ring| - 1
    requires ring[at] in nx && ring[at] in pv
    ensures var n := ring[at];
            Linked(ring[..at] + ring[at + 1..], nx[pv[n] := nx[n]], pv[nx[n] := pv[n]])
  {
    var n := ring[at];
    assert Joined(ring, nx, pv, at - 1) && Joined(ring, nx, pv, at);
    var out := ring[..at] + ring[at + 1..];
    var nx', pv' := nx[pv[n] := nx[n]], pv[nx[n] := pv[n]];
    forall i | 0 <= i < |out| - 1
      ensures Joined(out, nx', pv', i)
    {
      var j := if i < at then i else i + 1;
      assert Joined(ring, nx, pv, j);
    }
  }

  /** To splice out `n` would write what the links of the ring already hold. */
  ghost predicate Unseen<N>(ring: seq<N>, nx: map<N, N>, pv: map<N, N>, n: N)
    requires n in nx && n in pv
  {
    && (pv[n] in ring ==> pv[n] in nx && nx[pv[n]] == nx[n])
    && (nx[n] in ring ==> nx[n] in pv && pv[nx[n]] == pv[n])
  }

  /** Made for a node off the ring, they leave it linked iff they write what the live links already hold. */
  lemma SpliceStale<N>(ring: seq<N>, nx: map<N, N>, pv: map<N, N>, n: N)
    requires Closed(ring) && Linked(ring, nx, pv)
    requires n in nx && n in pv
    ensures Linked(ring, nx[pv[n] := nx[n]], pv[nx[n] := pv[n]]) <==> Unseen(ring, nx, pv, n)
  {
    forall i | 0 <= i < |ring|
      ensures ring[i] in nx && ring[i] in pv
    {
      assert Joined(ring, nx, pv, if i == |ring| - 1 then 0 else i);
      assert Joined(ring, nx, pv, if i == 0 then |ring| - 2 else i - 1);
    }
    var prev, next := pv[n], nx[n];
    var nx', pv' := nx[prev := next], pv[next := prev];
    if prev in ring && nx[prev] != next {
      var i :| 0 <= i < |ring| && ring[i] == prev;
      var j := if i == |ring| - 1 then 0 else i;
      assert Joined(ring, nx, pv, j) && !Joined(ring, nx', pv', j);
    } else if next in ring && pv[next] != prev {
      var i :| 0 <= i < |ring| && ring[i] == next;
      var j := if i == 0 then |ring| - 2 else i - 1;
      assert Joined(ring, nx, pv, j) && !Joined(ring, nx', pv', j);
    } else {
      assert forall i :: 0 <= i < |ring| - 1 && Joined(ring, nx, pv, i) ==> Joined(ring, nx', pv', i);
    }
  }

  ghost predicate Adjacent<N>(ring: seq<N>, p: N, q: N) {
    exists i :: 0 <= i < |ring| - 1 && ring[i] == p && ring[i + 1] == q
  }

  lemma BothOn<N>(ring: seq<N>, nx: map<N, N>, pv: map<N, N>, n: N)
    requires Closed(ring) && Linked(ring, nx, pv) && n in nx && n in pv && nx[n] in ring && Unseen(ring, nx, pv, n)
    ensures pv[n] in ring
  {
    var i :| 0 <= i < |ring| && ring[i] == nx[n];
    assert Joined(ring, nx, pv, if i == 0 then |ring| - 2 else i - 1);
  }

  /** That is so iff the node's neighbours are still neighbours on the ring, or are both off it. */
  lemma UnseenIff<N>(ring: seq<N>, nx: map<N, N>, pv: map<N, N>, n: N)
    requires Closed(ring) && Linked(ring, nx, pv) && n in nx && n in pv
    ensures Unseen(ring, nx, pv, n) <==> Adjacent(ring, pv[n], nx[n]) || (pv[n] !in ring && nx[n] !in ring)
  {
    if nx[n] in ring && Unseen(ring, nx, pv, n) {
      BothOn(ring, nx, pv, n);
    }
    if pv[n] in ring && Unseen(ring, nx, pv, n) {
      var i :| 0 <= i < |ring| && ring[i] == pv[n];
      assert Joined(ring, nx, pv, if i == |ring| - 1 then 0 else i);
    }
    if i :| 0 <= i < |ring| - 1 && ring[i] == pv[n] && ring[i + 1] == nx[n] {
      assert Joined(ring, nx, pv, i);
    }
  }

  /** Pairs that read their values off the same map differ only if their keys do. */
  ghost predicate ReadOff<K(!new), V>(s: Pairs<K, V>, m: map<K, V>) {
    forall i :: 0 <= i < |s| ==> s[i].0 in m && m[s[i].0] == s[i].1
  }

  lemma SamePairs<K(!new), V>(s: Pairs<K, V>, t: Pairs<K, V>, m: map<K, V>)
    requires KeysOf(s) == KeysOf(t) && ReadOff(s, m) && ReadOff(t, m)
    ensures s == t
  {
    forall j | 0 <= j < |t|
      ensures t[j] == s[j]
    {
      assert t[j].0 == KeysOf(t)[j] == KeysOf(s)[j] == s[j].0;
    }
  }

  lemma {:induction false} PutIsRead<K(!new), V>(s: Pairs<K, V>, key: K, value: V, m: map<K, V>)
    requires ReadOff(s, m) && Unique(KeysOf(s))
    ensures ReadOff(Put(s, key, value), m[key := value])
  {
    if s != [] {
      assert s == [s[0]] + s[1..];
      KeysCons(s[0], s[1..]);
      assert KeysOf(s)[1..] == KeysOf(s[1..]);
      if s[0].0 == key {
        assert forall i :: 0 < i < |s| ==> KeysOf(s[1..])[i - 1] == s[i].0;
      } else {
        PutIsRead(s[1..], key, value, m);
      }
    }
  }

  lemma {:induction false} DropIsRead<K(!new), V>(s: Pairs<K, V>, key: K, m: map<K, V>)
    requires ReadOff(s, m)
    ensures ReadOff(Drop(s, key), m)
  {
    if s != [] && s[0].0 != key {
      DropIsRead(s[1..], key, m);
    }
  }

  lemma {:induction false} LookView<K, V>(s: Pairs<K, V>, key: K, m: map<K, V>)
    requires forall i :: 0 <= i < |s| ==> s[i].0 in m && m[s[i].0] == s[i].1
    requires key in m ==> key in KeysOf(s)
    ensures Look(s, key) == if key in m then Some(m[key]) else None
  {
    if s != [] {
      assert KeysOf(s) == [s[0].0] + KeysOf(s[1..]);
      if s[0].0 != key {
        LookView(s[1..], key, m);
      }
    }
  }

  /** What `Set` does to `keys` and `store` is `Put` on the pairs they stand for. */
  lemma PutRefines<K(!new), V>(keys: seq<K>, store: map<K, V>, key: K, value: V)
    requires Unique(keys) && forall k :: k in keys <==> k in store
    ensures var keys' := if key in store then keys else keys + [key];
            && Unique(keys')
            && (forall k :: k in keys' <==> k in store[key := value])
            && PairsOf(keys', store[key := value]) == Put(PairsOf(keys, store), key, value)
  {
    var keys' := if key in store then keys else keys + [key];
    if key !in store {
      UniqueAppend(keys, key);
    }
    PutKeys(PairsOf(keys, store), key, value);
    PutIsRead(PairsOf(keys, store), key, value, store);
    SamePairs(PairsOf(keys', store[key := value]), Put(PairsOf(keys, store), key, value), store[key := value]);
  }

  /** What `Delete` does to `keys` and `store` is `Drop`. */
  lemma DropRefines<K(!new), V>(keys: seq<K>, store: map<K, V>, key: K)
    requires Unique(keys) && forall k :: k in keys <==> k in store
    ensures var keys' := Without(keys, key);
            && Unique(keys')
            && (forall k :: k in keys' <==> k in store - {key})
            && PairsOf(keys', store - {key}) == Drop(PairsOf(keys, store), key)
  {
    WithoutKeeps(keys, key);
    DropKeys(PairsOf(keys, store), key);
    DropIsRead(PairsOf(keys, store), key, store);
    SamePairs(PairsOf(Without(keys, key), store - {key}), Drop(PairsOf(keys, store), key), store);
  }

  /** What `Get` reads from `store` is `Look`. */
  lemma LookRefines<K, V>(keys: seq<K>, store: map<K, V>, key: K)
    requires forall k :: k in keys <==> k in store
    ensures Look(PairsOf(keys, store), key) == if key in store then Some(store[key]) else None
  {
    LookView(PairsOf(keys, store), key, store);
  }

  ghost predicate Named<K>(mapper: map<K, Node<K>>) {
    forall k :: k in mapper ==> mapper[k].Value == Some(k)
  }

  /** A new key at the end of the walk. */
  lemma WalkGrows<K>(root: Node<K>, last: Node<K>, mapper: map<K, Node<K>>, keys: seq<K>, key: K, n: Node<K>,
                     nx: map<Node<K>, Node<K>>, pv: map<Node<K>, Node<K>>)
    requires Unique(keys) && key !in keys && (forall k :: k in keys ==> k in mapper)
    requires Named(mapper) && root.Value == None && root in pv && last == pv[root] && n.Value == Some(key)
    requires Linked<Node<K>>(RingOf(root, mapper, keys), nx, pv)
    ensures Linked<Node<K>>(RingOf(root, mapper[key := n], keys + [key]), nx[last := n][n := root], pv[n := last][root := n])
  {
    var walk := RingOf(root, mapper, keys);
    WalkIsClosed(root, mapper, keys);
    assert forall i :: 0 < i <= |keys| ==> walk[i].Value == Some(keys[i - 1]);
    assert RingOf(root, mapper[key := n], keys + [key]) == walk[..|walk| - 1] + [n, root];
    SpliceIn<Node<K>>(walk, root, last, nx, pv, n);
  }

  /** A live key taken out of the walk. */
  lemma WalkShrinks<K>(root: Node<K>, mapper: map<K, Node<K>>, keys: seq<K>, key: K,
                       nx: map<Node<K>, Node<K>>, pv: map<Node<K>, Node<K>>)
    requires Unique(keys) && key in keys && (forall k :: k in keys ==> k in mapper)
    requires Named(mapper) && root.Value == None && mapper[key] in nx && mapper[key] in pv
    requires Linked<Node<K>>(RingOf(root, mapper, keys), nx, pv)
    ensures forall k :: k in Without(keys, key) ==> k in mapper
    ensures var n := mapper[key];
            Linked<Node<K>>(RingOf(root, mapper, Without(keys, key)), nx[pv[n] := nx[n]], pv[nx[n] := pv[n]])
  {
    hide Linked, Without, IndexOf, Unique, Closed;
    var walk := RingOf(root, mapper, keys);
    WalkIsClosed(root, mapper, keys);
    var at := IndexOf(keys, key);
    WithoutAt(keys, key, at);
    WithoutKeeps(keys, key);
    assert RingOf(root, mapper, Without(keys, key)) == walk[..at + 1] + walk[at + 2..];
    SpliceOut<Node<K>>(walk, nx, pv, at + 1);
  }

  /** The nodes of keys that are gone have the links `left` recalls. */
  ghost predicate Recalled<K>(mapper: map<K, Node<K>>, keys: seq<K>, left: map<K, (Node<K>, Node<K>)>,
                              nx: map<Node<K>, Node<K>>, pv: map<Node<K>, Node<K>>)
  {
    forall k :: k in mapper && k !in keys ==>
      k in left && mapper[k] in pv && mapper[k] in nx && left[k] == (pv[mapper[k]], nx[mapper[k]])
  }

  lemma OnWalk<K>(root: Node<K>, mapper: map<K, Node<K>>, keys: seq<K>, i: nat)
    requires (forall k :: k in keys ==> k in mapper) && Named(mapper) && root.Value == None && i < |keys| + 2
    ensures forall k :: k in mapper && k !in keys ==> mapper[k] != RingOf(root, mapper, keys)[i]
  {
    if 0 < i <= |keys| {
      assert keys[i - 1] in keys;
    }
  }

  /** What the two assignments of `Delete` do to the links, for a key that is there and for one that is gone. */
  lemma Unlinked<K>(root: Node<K>, mapper: map<K, Node<K>>, keys: seq<K>, key: K,
                    nx: map<Node<K>, Node<K>>, pv: map<Node<K>, Node<K>>, left: map<K, (Node<K>, Node<K>)>)
    requires Unique(keys) && (forall k :: k in keys ==> k in mapper) && Named(mapper) && root.Value == None
    requires key in mapper && mapper[key] in nx && mapper[key] in pv
    ensures forall k :: k in Without(keys, key) ==> k in mapper
    ensures var n, walk := mapper[key], RingOf(root, mapper, keys);
            var nx', pv' := nx[pv[n] := nx[n]], pv[nx[n] := pv[n]];
            Linked<Node<K>>(walk, nx, pv) ==>
              if key in keys then
                && Linked<Node<K>>(RingOf(root, mapper, Without(keys, key)), nx', pv')
                && (Recalled(mapper, keys, left, nx, pv) ==>
                      var at := IndexOf(keys, key);
                      Recalled(mapper, Without(keys, key), left[key := (walk[at], walk[at + 2])], nx', pv'))
              else Linked<Node<K>>(walk, nx', pv') <==> Unseen<Node<K>>(walk, nx, pv, n)
  {
    hide Linked, Recalled, Unseen;
    WithoutKeeps(keys, key);
    if Linked<Node<K>>(RingOf(root, mapper, keys), nx, pv) {
      WalkIsClosed(root, mapper, keys);
      if key in keys {
        WalkShrinks(root, mapper, keys, key, nx, pv);
        if Recalled(mapper, keys, left, nx, pv) {
          DeleteRecalls(root, mapper, keys, key, nx, pv, left);
        }
      } else {
        SpliceStale<Node<K>>(RingOf(root, mapper, keys), nx, pv, mapper[key]);
      }
    }
  }

  /** A new key touches no node that is off the ring. */
  lemma SetRecalls<K>(root: Node<K>, last: Node<K>, mapper: map<K, Node<K>>, keys: seq<K>, key: K, n: Node<K>,
                      nx: map<Node<K>, Node<K>>, pv: map<Node<K>, Node<K>>, left: map<K, (Node<K>, Node<K>)>)
    requires (forall k :: k in keys ==> k in mapper) && Named(mapper) && root.Value == None && root in pv && last == pv[root]
    requires Linked<Node<K>>(RingOf(root, mapper, keys), nx, pv) && Recalled(mapper, keys, left, nx, pv)
    requires key !in keys && forall k :: k in mapper ==> mapper[k] != n
    ensures Recalled(mapper[key := n], keys + [key], left, nx[last := n][n := root], pv[n := last][root := n])
  {
    assert Joined(RingOf(root, mapper, keys), nx, pv, |keys|);
    OnWalk(root, mapper, keys, |keys|);
  }

  lemma Grown<K>(root: Node<K>, last: Node<K>, mapper: map<K, Node<K>>, keys: seq<K>, key: K, n: Node<K>,
                 nx: map<Node<K>, Node<K>>, pv: map<Node<K>, Node<K>>, left: map<K, (Node<K>, Node<K>)>)
    requires Unique(keys) && key !in keys && (forall k :: k in keys ==> k in mapper)
    requires Named(mapper) && root.Value == None && root in pv && last == pv[root] && n.Value == Some(key)
    requires forall k :: k in mapper ==> mapper[k] != n
    ensures Unique(keys + [key]) && Named(mapper[key := n])
    ensures var nx', pv' := nx[last := n][n := root], pv[n := last][root := n];
            Linked<Node<K>>(RingOf(root, mapper, keys), nx, pv) ==>
              && Linked<Node<K>>(RingOf(root, mapper[key := n], keys + [key]), nx', pv')
              && (Recalled(mapper, keys, left, nx, pv) ==> Recalled(mapper[key := n], keys + [key], left, nx', pv'))
  {
    UniqueAppend(keys, key);
    hide Linked, Recalled, Unique;
    if Linked<Node<K>>(RingOf(root, mapper, keys), nx, pv) {
      WalkGrows(root, last, mapper, keys, key, n, nx, pv);
      if Recalled(mapper, keys, left, nx, pv) {
        SetRecalls(root, last, mapper, keys, key, n, nx, pv, left);
      }
    }
  }

  /** A live key that goes takes its neighbours with it, and its node keeps them. */
  lemma DeleteRecalls<K>(root: Node<K>, mapper: map<K, Node<K>>, keys: seq<K>, key: K,
                         nx: map<Node<K>, Node<K>>, pv: map<Node<K>, Node<K>>, left: map<K, (Node<K>, Node<K>)>)
    requires Unique(keys) && key in keys && (forall k :: k in keys ==> k in mapper) && Named(mapper) && root.Value == None
    requires mapper[key] in nx && mapper[key] in pv
    requires Linked<Node<K>>(RingOf(root, mapper, keys), nx, pv) && Recalled(mapper, keys, left, nx, pv)
    ensures var n, at, walk := mapper[key], IndexOf(keys, key), RingOf(root, mapper, keys);
            && (pv[n], nx[n]) == (walk[at], walk[at + 2])
            && Recalled(mapper, Without(keys, key), left[key := (walk[at], walk[at + 2])], nx[pv[n] := nx[n]], pv[nx[n] := pv[n]])
  {
    var n, at, walk := mapper[key], IndexOf(keys, key), RingOf(root, mapper, keys);
    assert Joined(walk, nx, pv, at) && Joined(walk, nx, pv, at + 1);
    OnWalk(root, mapper, keys, at);
    OnWalk(root, mapper, keys, at + 2);
    WithoutKeeps(keys, key);
    WalkIsClosed(root, mapper, keys);
  }

  lemma WalkIsClosed<K>(root: Node<K>, mapper: map<K, Node<K>>, keys: seq<K>)
    requires Unique(keys) && (forall k :: k in keys ==> k in mapper)
    requires Named(mapper) && root.Value == None
    ensures Closed<Node<K>>(RingOf(root, mapper, keys))
  {
    var walk := RingOf(root, mapper, keys);
    UniqueIsDistinct(keys);
    assert forall i :: 0 < i <= |keys| ==> walk[i].Value == Some(keys[i - 1]);
  }

  /**
   The sentinel of list.go with all nodes ever linked to it. `nx` and `pv` repeat the link fields of these
   nodes as values, so that what is said about links needs no heap.
   */
  class Ring<K> {
    const root: Node<K>
    ghost var Repr: set<Node<K>>
    ghost var nx: map<Node<K>, Node<K>>
    ghost var pv: map<Node<K>, Node<K>>

    ghost predicate Tracked(n: Node<K>)
      reads this, n
    {
      n in nx && n in pv && n.Next == nx[n] && n.Prev == pv[n] && n.Next in Repr && n.Prev in Repr
    }

    ghost predicate Valid()
      reads this, Repr
    {
      && root in Repr && root.Value == None
      && forall n {:trigger Tracked(n)} :: n in Repr ==> Tracked(n)
    }

    constructor ()
      ensures Valid() && fresh(Repr) && Repr == {root}
      ensures nx == map[root := root] && pv == map[root := root]
    {
      var r := new Node<K>.Root();
      root, Repr, nx, pv := r, {r}, map[r := r], map[r := r];
    }

    method Add(key: K) returns (n: Node<K>)
      requires Valid()
      modifies this, Repr
      ensures Valid() && fresh(n) && n.Value == Some(key) && Repr == old(Repr) + {n}
      ensures root in old(pv) && old(root.Prev) == old(pv[root])
      ensures nx == old(nx)[old(root.Prev) := n][n := root] && pv == old(pv)[n := old(root.Prev)][root := n]
    {
      assert Tracked(root);
      var last := root.Prev;
      last.Next := new Node(last, root, key);
      root.Prev := last.Next;
      n := last.Next;
      Repr, nx, pv := Repr + {n}, nx[last := n][n := root], pv[n := last][root := n];
      forall m {:trigger Tracked(m)} | m in Repr
        ensures Tracked(m)
      {
        if m in old(Repr) {
          assert old(Tracked(m));
        }
      }
    }

    /** The two assignments with which `Delete` takes a node out from between its neighbours. */
    method Splice(n: Node<K>)
      requires Valid() && n in Repr
      modifies `nx, `pv, Repr
      ensures Valid()
      ensures n in old(nx) && n in old(pv)
      ensures nx == old(nx[pv[n] := nx[n]]) && pv == old(pv[nx[n] := pv[n]])
    {
      assert Tracked(n);
      var prev := n.Prev;
      var next := n.Next;
      prev.Next := next;
      next.Prev := prev;
      nx, pv := nx[prev := next], pv[next := prev];
      forall m {:trigger Tracked(m)} | m in Repr
        ensures Tracked(m)
      {
        assert old(Tracked(m));
      }
    }
  }

  class OrderedMap<K(==, !new), V> {
    var store: map<K, V>
    var mapper: map<K, Node<K>>
    const ring: Ring<K>
    ghost var keys: seq<K>
    ghost var left: map<K, (Node<K>, Node<K>)>

    /** `keys` lists the live keys, and `mapper` has a node for each and for stale keys too. */
    ghost predicate Agree()
      reads this, ring
    {
      && Named(mapper) && ring.root.Value == None
      && (forall k :: k in mapper ==> mapper[k] in ring.Repr)
      && Unique(keys)
      && (forall k :: k in keys <==> k in store)
      && (forall k :: k in keys ==> k in mapper)
    }

    /** Everything but the order of the links. */
    ghost predicate Shape()
      reads this, ring, ring.Repr
    {
      ring.Valid() && Agree()
    }

    ghost function Walk(): seq<Node<K>>
      reads this, ring
      requires Agree()
    {
      RingOf(ring.root, mapper, keys)
    }

    ghost predicate Links()
      reads this, ring
      requires Agree()
    {
      Linked<Node<K>>(RingOf(ring.root, mapper, keys), ring.nx, ring.pv)
    }

    ghost predicate Valid()
      reads this, ring, ring.Repr
    {
      Shape() && Links()
    }

    ghost function View(): Pairs<K, V>
      reads this, ring
      requires Agree()
    {
      PairsOf(keys, store)
    }

    constructor ()
      ensures Valid() && fresh(ring) && fresh(ring.Repr)
      ensures View() == [] && store == map[] && mapper == map[] && keys == [] && left == map[] && Recalls()
    {
      store, mapper, keys, left := map[], map[], [], map[];
      ring := new Ring();
    }

    /** The neighbours of a live key on the ring. */
    ghost function Around(key: K): (Node<K>, Node<K>)
      reads this, ring
      requires Agree() && key in keys
    {
      var at := IndexOf(keys, key);
      (Walk()[at], Walk()[at + 2])
    }

    /** The node of a key that is gone still has the neighbours it was taken out from between. */
    ghost predicate Recalls()
      reads this, ring
    {
      Recalled(mapper, keys, left, ring.nx, ring.pv)
    }

    /** A node for a new key goes to the end of the ring. */
    method Link(key: K, value: V)
      requires Shape() && key !in store
      modifies this, ring, ring.Repr
      ensures ring.Valid() && fresh(ring.Repr - old(ring.Repr)) && old(ring.Repr) <= ring.Repr
      ensures Agree() && (old(Links()) ==> Links())
      ensures mapper.Keys == old(mapper).Keys + {key} && left == old(left)
      ensures store == old(store)[key := value] && keys == old(keys) + [key]
      ensures old(Links() && Recalls()) ==> Recalls()
    {
      hide Linked, Recalled, Unique, Named;
      var n := ring.Add(key);
      Grown(ring.root, old(ring.root.Prev), mapper, keys, key, n, old(ring.nx), old(ring.pv), left);
      mapper, keys, store := mapper[key := n], keys + [key], store[key := value];
    }

    method Set(key: K, value: V)
      requires Shape()
      modifies this, ring, ring.Repr
      ensures Shape() && fresh(ring.Repr - old(ring.Repr)) && old(ring.Repr) <= ring.Repr
      ensures old(Links()) ==> Links()
      ensures store == old(store)[key := value]
      ensures mapper.Keys == old(mapper).Keys + {key}
      ensures keys == if key in old(store) then old(keys) else old(keys) + [key]
      ensures View() == Put(old(View()), key, value)
      ensures left == old(left) && (old(Links() && Recalls()) ==> Recalls())
    {
      hide Linked, Recalled, Unique, Named;
      PutRefines(keys, store, key, value);
      if key !in store {
        Link(key, value);
      } else {
        store := store[key := value];
      }
    }

    method Get(key: K) returns (value: Option<V>)
      requires Shape()
      ensures value == Look(View(), key)
      ensures value == if key in store then Some(store[key]) else None
    {
      value := if key in store then Some(store[key]) else None;
      LookRefines(keys, store, key);
    }

    /** Would splicing out the stale node of `key` leave every link of the live ring as it is? */
    ghost predicate Harmless(key: K)
      reads this, ring
      requires Agree() && key in mapper
    {
      var n := mapper[key];
      n in ring.nx && n in ring.pv && Unseen<Node<K>>(Walk(), ring.nx, ring.pv, n)
    }

    /**
     `Delete` never forgets the node in `mapper`, so deleting a key that is already gone splices the old
     neighbours of its node together again. The ring survives exactly when that changes no live link.
     */
    method Delete(key: K)
      requires Shape()
      modifies this, ring, ring.Repr
      ensures Shape() && mapper == old(mapper) && ring.Repr == old(ring.Repr)
      ensures store == old(store) - {key}
      ensures keys == Without(old(keys), key)
      ensures View() == Drop(old(View()), key)
      ensures old(Links()) && (key in old(store) || key !in mapper) ==> Links()
      ensures old(Links()) && key !in old(store) && key in mapper ==> (Links() <==> old(Harmless(key)))
      ensures left == if key in old(store) then old(left)[key := old(Around(key))] else old(left)
      ensures old(Links() && Recalls()) && (key in old(store) || key !in mapper) ==> Recalls()
    {
      hide Linked, Recalled, Unseen, Unique, Named, IndexOf, Without, Drop;
      DropRefines(keys, store, key);
      ghost var live, around := key in store, if key in keys then Around(key) else (ring.root, ring.root);
      if key in store {
        store := store - {key};
      }
      Unlink(key);
      if key in mapper {
        Unlinked(ring.root, mapper, keys, key, old(ring.nx), old(ring.pv), left);
      }
      if live {
        left := left[key := around];
      } else {
        WithoutAbsent(keys, key);
      }
      keys := Without(keys, key);
    }

    method Unlink(key: K)
      requires ring.Valid() && (key in mapper ==> mapper[key] in ring.Repr)
      modifies ring, ring.Repr
      ensures ring.Valid() && ring.Repr == old(ring.Repr)
      ensures key !in mapper ==> ring.nx == old(ring.nx) && ring.pv == old(ring.pv)
      ensures key in mapper ==>
                var n := mapper[key];
                && n in old(ring.nx) && n in old(ring.pv)
                && ring.nx == old(ring.nx[ring.pv[n] := ring.nx[n]]) && ring.pv == old(ring.pv[ring.nx[n] := ring.pv[n]])
    {
      if key in mapper {
        ring.Splice(mapper[key]);
      }
    }

    /**
     As long as only live or unknown keys were deleted, deleting a key that is gone does no harm iff the neighbours
     its node was taken out from between are still neighbours, or have both gone too.
     */
    lemma HarmlessIff(key: K)
      requires Valid() && Recalls() && key in mapper && key !in store
      ensures key in left
      ensures Harmless(key) <==>
              Adjacent<Node<K>>(Walk(), left[key].0, left[key].1) || (left[key].0 !in Walk() && left[key].1 !in Walk())
    {
      WalkIsClosed(ring.root, mapper, keys);
      UnseenIff<Node<K>>(Walk(), ring.nx, ring.pv, mapper[key]);
    }

    method Len() returns (n: nat)
      requires Shape()
      ensures n == |View()|
    {
      n := |store|;
      DistinctCount(keys, store.Keys);
    }
  }

  lemma {:induction false} DistinctCount<T>(s: seq<T>, elements: set<T>)
    requires Unique(s)
    requires forall x :: x in s <==> x in elements
    ensures |s| == |elements|
  {
    if s != [] {
      DistinctCount(s[1..], elements - {s[0]});
    }
  }

  // ----- runs of the code's form

  predicate EverSet<K(==), V>(ops: seq<Op<K, V>>, key: K) {
    ops != [] && ((ops[|ops| - 1].SetOp? && ops[|ops| - 1].key == key) || EverSet(ops[..|ops| - 1], key))
  }

  /** No key is deleted that has been there and is gone. */
  ghost predicate NoStale<K, V>(ops: seq<Op<K, V>>) {
    ops == [] ||
    (var front, l := ops[..|ops| - 1], ops[|ops| - 1];
     NoStale(front) && (l.DeleteOp? ==> Since(front, l.key).Some? || !EverSet(front, l.key)))
  }

  lemma HistoryStep<K(!new), V>(ops: seq<Op<K, V>>, i: nat)
    requires i < |ops|
    ensures var front, now := ops[..i], ops[..i + 1];
            && Run(now) == (match ops[i] case SetOp(k, v) => Put(Run(front), k, v) case DeleteOp(k) => Drop(Run(front), k))
            && (forall k :: EverSet(now, k) <==> (ops[i].SetOp? && ops[i].key == k) || EverSet(front, k))
            && (NoStale(now) ==>
                  NoStale(front) && (ops[i].DeleteOp? ==> ops[i].key in KeysOf(Run(front)) || !EverSet(front, ops[i].key)))
  {
    assert ops[..i + 1][..i] == ops[..i];
    EveryRun(ops[..i]);
  }

  /** The object is where the first `i` operations lead. */
  ghost predicate Played<K(!new), V>(om: OrderedMap<K, V>, ops: seq<Op<K, V>>, i: nat)
    requires i <= |ops|
    reads om, om.ring, om.ring.Repr
  {
    && om.Shape() && om.View() == Run(ops[..i])
    && (forall k :: k in om.mapper <==> EverSet(ops[..i], k))
    && (NoStale(ops[..i]) ==> om.Links() && om.Recalls())
  }

  method PlayNext<K(==, !new), V>(om: OrderedMap<K, V>, ops: seq<Op<K, V>>, i: nat)
    requires i < |ops| && Played(om, ops, i)
    modifies om, om.ring, om.ring.Repr
    ensures fresh(om.ring.Repr - old(om.ring.Repr)) && Played(om, ops, i + 1)
  {
    hide Linked, Recalled, Unique, Named, Joined, Run, EverSet, NoStale, Put, Drop;
    HistoryStep(ops, i);
    match ops[i]
    case SetOp(key, value) => om.Set(key, value);
    case DeleteOp(key) => om.Delete(key);
  }

  /** Any run on an object is the run on pairs, and without stale deletes the ring stays whole. */
  method Replay<K(==, !new), V>(ops: seq<Op<K, V>>) returns (om: OrderedMap<K, V>)
    ensures fresh(om) && om.Shape() && om.View() == Run(ops)
    ensures NoStale(ops) ==> om.Valid() && om.Recalls()
  {
    om := new OrderedMap();
    NothingPlayed(om, ops);
    for i := 0 to |ops|
      invariant fresh(om) && fresh(om.ring) && fresh(om.ring.Repr) && Played(om, ops, i)
    {
      hide Played;
      PlayNext(om, ops, i);
    }
    assert ops[..|ops|] == ops;
  }

  lemma NothingPlayed<K(!new), V>(om: OrderedMap<K, V>, ops: seq<Op<K, V>>)
    requires om.Valid() && om.Recalls() && om.View() == [] && om.mapper == map[]
    ensures Played(om, ops, 0)
  {
    assert ops[..0] == [];
  }

  /** A key set and deleted: its node was between the sentinel and itself. */
  method SetAndGone<K(==, !new), V>(om: OrderedMap<K, V>, a: K, v: V)
    requires om.Valid() && om.Recalls() && om.keys == [] && om.store == map[]
    modifies om, om.ring, om.ring.Repr
    ensures om.Valid() && om.Recalls() && om.keys == [] && om.store == map[] && fresh(om.ring.Repr - old(om.ring.Repr))
    ensures a in om.mapper && a in om.left && om.left[a] == (om.ring.root, om.ring.root)
  {
    hide Linked, Recalled, Named;
    om.Set(a, v);
    assert om.keys == [] + [a] == [a];
    om.Delete(a);
  }

  /** Deleting it once more, with `b` set meanwhile, breaks the ring: `b` is there, but the sentinel is its own neighbour. */
  method StaleBreaks<K(==, !new), V>(a: K, b: K, v: V) returns (om: OrderedMap<K, V>)
    requires a != b
    ensures fresh(om) && om.Shape() && om.View() == [(b, v)] && !om.Links()
  {
    hide Linked, Recalled;
    om := new OrderedMap();
    SetAndGone(om, a, v);
    om.Set(b, v);
    assert om.keys == [] + [b] == [b];
    assert om.View() == [(b, v)];
    om.HarmlessIff(a);
    assert !Adjacent<Node<K>>(om.Walk(), om.ring.root, om.ring.root) by {
      assert om.mapper[b].Value == Some(b);
    }
    assert om.Walk()[0] == om.ring.root;
    om.Delete(a);
    WithoutAbsent([b], a);
  }

  // ----- iteration

  datatype KVPair<K, V> = KVPair(key: K, value: Option<V>)

  /** The closure `IterFunc` returns: a cursor that moves along Next until it is back at the sentinel. */
  class Iterator<K(==, !new), V> {
    const om: OrderedMap<K, V>
    var curr: Node<K>

    /** The cursor is at live position `pos`, with `pos == |keys|` once the walk is over. */
    ghost predicate AtPos(pos: int)
      reads this, om, om.ring, om.ring.Repr
    {
      om.Valid() && 0 <= pos <= |om.keys| && curr == om.Walk()[pos + 1]
    }

    constructor (om: OrderedMap<K, V>)
      requires om.Valid()
      ensures this.om == om && AtPos(0)
    {
      this.om := om;
      curr := om.ring.root.Next;
      new;
      assert om.ring.Tracked(om.ring.root) && Joined(om.Walk(), om.ring.nx, om.ring.pv, 0);
    }

    method Next(ghost pos: int) returns (kv: Option<KVPair<K, V>>)
      requires AtPos(pos)
      modifies this
      ensures kv == if pos < |om.keys| then Some(KVPair(om.View()[pos].0, Some(om.View()[pos].1))) else None
      ensures AtPos(if pos < |om.keys| then pos + 1 else pos)
    {
      if curr != om.ring.root {
        var tmp := curr;
        assert om.ring.Tracked(curr) && Joined(om.Walk(), om.ring.nx, om.ring.pv, pos + 1);
        curr := curr.Next;
        var key := tmp.Value.value;
        return Some(KVPair(key, if key in om.store then Some(om.store[key]) else None));
      }
      assert pos == |om.keys|;
      return None;
    }
  }

  /** The closure `RevIterFunc` returns; its search for a starting point stops at the sentinel at once. */
  class RevIterator<K(==, !new), V> {
    const om: OrderedMap<K, V>
    const start: Node<K>
    var curr: Node<K>

    /** The cursor is at live position `pos`, with `pos == -1` once the walk is over. */
    ghost predicate AtPos(pos: int)
      reads this, om, om.ring, om.ring.Repr
    {
      om.Valid() && -1 <= pos < |om.keys| && curr == om.Walk()[pos + 1] && start == om.ring.root
    }

    constructor (om: OrderedMap<K, V>)
      requires om.Valid()
      ensures this.om == om && AtPos(|om.keys| - 1)
    {
      this.om := om;
      start := om.ring.root;
      curr := om.ring.root.Prev;
      new;
      assert om.ring.Tracked(om.ring.root) && Joined(om.Walk(), om.ring.nx, om.ring.pv, |om.keys|);
    }

    method Next(ghost pos: int) returns (kv: Option<KVPair<K, V>>)
      requires AtPos(pos)
      modifies this
      ensures kv == if pos >= 0 then Some(KVPair(om.View()[pos].0, Some(om.View()[pos].1))) else None
      ensures AtPos(if pos >= 0 then pos - 1 else pos)
    {
      if curr != start {
        var tmp := curr;
        assert om.ring.Tracked(curr) && Joined(om.Walk(), om.ring.nx, om.ring.pv, pos);
        curr := curr.Prev;
        var key := tmp.Value.value;
        return Some(KVPair(key, if key in om.store then Some(om.store[key]) else None));
      }
      return None;
    }
  }

  /** Draining `IterFunc` visits exactly the live pairs, oldest first. */
  method Iterate<K(==, !new), V>(om: OrderedMap<K, V>) returns (kvs: Pairs<K, V>)
    requires om.Valid()
    ensures kvs == om.View()
  {
    hide Unique, Linked, Joined, Named;
    kvs := [];
    var iter := new Iterator(om);
    var kv := iter.Next(0);
    ghost var pos := 0;
    while kv.Some?
      invariant 0 <= pos <= |om.keys|
      invariant iter.om == om && iter.AtPos(if pos < |om.keys| then pos + 1 else pos)
      invariant kv == if pos < |om.keys| then Some(KVPair(om.View()[pos].0, Some(om.View()[pos].1))) else None
      invariant kvs == om.View()[..pos]
      decreases |om.keys| - pos, if kv.Some? then 1 else 0
    {
      kvs := kvs + [(kv.value.key, kv.value.value.value)];
      pos := pos + 1;
      kv := iter.Next(pos);
    }
  }

  /** Draining `RevIterFunc` gives exactly the reverse. */
  method RevIterate<K(==, !new), V>(om: OrderedMap<K, V>) returns (kvs: Pairs<K, V>)
    requires om.Valid()
    ensures kvs == Reverse(om.View())
  {
    hide Unique, Linked, Joined, Named;
    kvs := [];
    var iter := new RevIterator(om);
    ghost var pos := |om.keys| - 1;
    var kv := iter.Next(pos);
    while kv.Some?
      invariant -1 <= pos < |om.keys|
      invariant iter.om == om && iter.AtPos(if pos >= 0 then pos - 1 else pos)
      invariant kv == if pos >= 0 then Some(KVPair(om.View()[pos].0, Some(om.View()[pos].1))) else None
      invariant kvs == Reverse(om.View())[..|om.keys| - 1 - pos]
      decreases pos
    {
      kvs := kvs + [(kv.value.key, kv.value.value.value)];
      pos := pos - 1;
      kv := iter.Next(pos);
    }
  }
}
