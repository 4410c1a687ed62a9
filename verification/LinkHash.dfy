/** linkhash: an open-addressing table with tombstones whose live slots are threaded by
    a doubly linked list in insertion order.  Pointers into the table are slot numbers,
    NULL is -1.  Keys are compared with `==`; the hash is any function of the key. */
module LinkHash {

  const INT_MAX: int := 0x7FFF_FFFF
  const NIL: int := -1

  /** The key word of an lh_entry: LH_EMPTY, LH_FREED or a key. */
  datatype Slot<K> = Empty | Freed | Key(key: K)

  datatype Maybe<V> = NoValue | Value(value: V)

  datatype Entry<K, V> = Entry(k: Slot<K>, v: Maybe<V>, next: int, prev: int)

  /** The table as a plain list of pairs in insertion order. */
  type Pairs<K, V> = seq<(K, Maybe<V>)>

  // ---- probing ----------------------------------------------------------------------

  /** The slot d steps after h, going round the end of the table. */
  function At(h: nat, d: nat, size: nat): (n: nat)
    requires h < size && d <= size
    ensures n < size
  {
    if h + d < size then h + d else h + d - size
  }

  /** The number of steps from h to n. */
  function Dist(h: nat, n: nat, size: nat): (d: nat)
    requires h < size && n < size
    ensures d < size && At(h, d, size) == n
  {
    if n >= h then n - h else n - h + size
  }

  ghost predicate Live<K, V>(table: seq<Entry<K, V>>, n: int) {
    0 <= n < |table| && table[n].k.Key?
  }

  /** No empty slot lies between the home slot of a key and the slot that holds it. */
  ghost predicate Reachable<K, V>(table: seq<Entry<K, V>>, hash: K -> nat, n: nat)
    requires n < |table| && table[n].k.Key?
  {
    var h := hash(table[n].k.key) % |table|;
    forall d :: 0 <= d < Dist(h, n, |table|) ==> !table[At(h, d, |table|)].k.Empty?
  }

  ghost predicate Probing<K, V>(table: seq<Entry<K, V>>, hash: K -> nat) {
    forall n :: 0 <= n < |table| && table[n].k.Key? ==> Reachable(table, hash, n)
  }

  // ---- the list -----------------------------------------------------------------------

  /** `order` lists exactly the live slots, once each. */
  ghost predicate Lists<K, V>(table: seq<Entry<K, V>>, order: seq<int>) {
    && (forall i :: 0 <= i < |order| ==> Live(table, order[i]))
    && (forall i, j :: 0 <= i < j < |order| ==> order[i] != order[j])
    && (forall n :: 0 <= n < |table| && table[n].k.Key? ==> n in order)
  }

  /** prev and next of the i-th element, as `order` has them. */
  ghost predicate Linked<K, V>(table: seq<Entry<K, V>>, order: seq<int>, i: nat)
    requires i < |order|
  {
    && 0 <= order[i] < |table|
    && table[order[i]].prev == (if i == 0 then NIL else order[i - 1])
    && table[order[i]].next == (if i == |order| - 1 then NIL else order[i + 1])
  }

  ghost predicate Threads<K, V>(table: seq<Entry<K, V>>, order: seq<int>, head: int, tail: int) {
    && head == (if order == [] then NIL else order[0])
    && tail == (if order == [] then NIL else order[|order| - 1])
    && forall i :: 0 <= i < |order| ==> Linked(table, order, i)
  }

  ghost function PairsOf<K, V>(table: seq<Entry<K, V>>, order: seq<int>): (p: Pairs<K, V>)
    requires forall i :: 0 <= i < |order| ==> Live(table, order[i])
    ensures |p| == |order|
    ensures forall i :: 0 <= i < |p| ==>
              Live(table, order[i]) && p[i] == (table[order[i]].k.key, table[order[i]].v)
  {
    seq(|order|, i requires 0 <= i < |order| =>
      assert Live(table, order[i]); (table[order[i]].k.key, table[order[i]].v))
  }

  ghost predicate Consistent<K, V>(table: seq<Entry<K, V>>, hash: K -> nat, order: seq<int>,
                                   head: int, tail: int)
  {
    Lists(table, order) && Threads(table, order, head, tail) && Probing(table, hash)
  }

  /** The table is below the load factor 0.66 that triggers growth. */
  predicate HasRoom(count: nat, size: nat) { 50 * count < 33 * size }

  /** No more live entries than one insertion can bring: the last one found room. */
  predicate LoadOk(count: nat, size: nat) { count == 0 || HasRoom(count - 1, size) }

  // ---- insertion-ordered maps -----------------------------------------------------------

  ghost predicate DistinctKeys<K, V>(p: Pairs<K, V>) {
    forall i, j :: 0 <= i < j < |p| ==> p[i].0 != p[j].0
  }

  function Find<K(==), V>(p: Pairs<K, V>, k: K): (r: int)
    ensures -1 <= r < |p|
    ensures r >= 0 ==> p[r].0 == k
    ensures r < 0 ==> forall i :: 0 <= i < |p| ==> p[i].0 != k
  {
    if p == [] then -1
    else if p[0].0 == k then 0
    else
      var r := Find(p[1..], k);
      if r < 0 then -1 else r + 1
  }

  /** A new key goes last; an old one keeps its place. */
  function PutPair<K(==), V>(p: Pairs<K, V>, k: K, v: Maybe<V>): Pairs<K, V> {
    var r := Find(p, k);
    if r >= 0 then p[r := (k, v)] else p + [(k, v)]
  }

  function RemovePair<K(==), V>(p: Pairs<K, V>, k: K): Pairs<K, V> {
    var r := Find(p, k);
    if r >= 0 then p[..r] + p[r + 1..] else p
  }

  lemma {:induction false} PutKeepsDistinct<K, V>(p: Pairs<K, V>, k: K, v: Maybe<V>)
    requires DistinctKeys(p)
    ensures DistinctKeys(PutPair(p, k, v))
  {
  }

  lemma {:induction false} RemoveKeepsDistinct<K, V>(p: Pairs<K, V>, k: K)
    requires DistinctKeys(p)
    ensures DistinctKeys(RemovePair(p, k)) && Find(RemovePair(p, k), k) < 0
  {
    var r := Find(p, k);
    if r >= 0 {
      var q := RemovePair(p, k);
      forall i | 0 <= i < |q| ensures q[i] == p[if i < r then i else i + 1] && q[i].0 != k {
      }
    }
  }

  // ---- a free slot ------------------------------------------------------------------------

  lemma {:induction false} SeqCovers(order: seq<int>, n: nat)
    requires forall x :: 0 <= x < n ==> x in order
    ensures n <= |order|
    decreases n
  {
    if n > 0 {
      assert n - 1 in order;
      var i :| 0 <= i < |order| && order[i] == n - 1;
      var rest := order[..i] + order[i + 1..];
      forall y | 0 <= y < n - 1 ensures y in rest {
        assert y in order;
        var j :| 0 <= j < |order| && order[j] == y;
        assert rest[if j < i then j else j - 1] == y;
      }
      SeqCovers(rest, n - 1);
    }
  }

  /** A table with fewer live entries than slots has a slot to insert into. */
  lemma {:induction false} FreeSlot<K, V>(table: seq<Entry<K, V>>, order: seq<int>) returns (n: nat)
    requires Lists(table, order) && |order| < |table|
    ensures n < |table| && !table[n].k.Key?
  {
    if forall m :: 0 <= m < |table| ==> table[m].k.Key? {
      SeqCovers(order, |table|);
      assert false;
    }
    n :| 0 <= n < |table| && !table[n].k.Key?;
  }

  // ---- one insertion --------------------------------------------------------------------------

  /** Slot n takes the pair and goes to the end of the list. */
  function Inserted<K, V>(table: seq<Entry<K, V>>, n: nat, k: K, v: Maybe<V>, tail: int)
    : (t: seq<Entry<K, V>>)
    requires n < |table| && (tail == NIL || 0 <= tail < |table|)
    ensures |t| == |table|
  {
    var linked := if tail == NIL then table else table[tail := table[tail].(next := n)];
    linked[n := Entry(Key(k), v, NIL, tail)]
  }

  lemma {:induction false} InsertedLists<K, V>(table: seq<Entry<K, V>>, order: seq<int>, n: nat, k: K, v: Maybe<V>, tail: int)
    requires Lists(table, order) && n < |table| && !table[n].k.Key?
    requires tail == NIL || Live(table, tail)
    ensures Lists(Inserted(table, n, k, v, tail), order + [n])
  {
    var t, o := Inserted(table, n, k, v, tail), order + [n];
    forall i | 0 <= i < |o| ensures Live(t, o[i]) {
      assert i < |order| ==> Live(table, order[i]);
    }
    assert forall i :: 0 <= i < |order| ==> Live(table, order[i]);
    assert n !in order;
    forall m | 0 <= m < |t| && t[m].k.Key? ensures m in o {
      if m != n {
        assert table[m].k.Key? && m in order;
      } else {
        assert o[|order|] == n;
      }
    }
  }

  lemma {:induction false} InsertedThreads<K, V>(table: seq<Entry<K, V>>, order: seq<int>, head: int, tail: int,
                              n: nat, k: K, v: Maybe<V>)
    requires Lists(table, order) && Threads(table, order, head, tail)
    requires n < |table| && !table[n].k.Key?
    ensures tail == NIL || Live(table, tail)
    ensures Threads(Inserted(table, n, k, v, tail), order + [n],
                    if order == [] then n else head, n)
  {
    var last := |order| - 1;
    assert order != [] ==> Live(table, order[last]);
    var t, o := Inserted(table, n, k, v, tail), order + [n];
    assert forall i :: 0 <= i < |order| ==> Live(table, order[i]);
    assert n !in order;
    forall i | 0 <= i < |o| ensures Linked(t, o, i) {
      if i < |order| {
        assert Linked(table, order, i);
        assert i < last ==> order[i] != order[last];
      }
    }
  }

  /** All slots the probe passed on its way to n were taken. */
  ghost predicate Passed<K, V>(table: seq<Entry<K, V>>, h: nat, d: nat)
    requires h < |table| && d <= |table|
  {
    forall e :: 0 <= e < d ==> table[At(h, e, |table|)].k.Key?
  }

  lemma {:induction false} InsertedProbing<K, V>(table: seq<Entry<K, V>>, hash: K -> nat, h: nat, d: nat,
                              k: K, v: Maybe<V>, tail: int)
    requires Probing(table, hash) && d < |table| && h == hash(k) % |table|
    requires Passed(table, h, d) && !table[At(h, d, |table|)].k.Key?
    requires tail == NIL || Live(table, tail)
    ensures Probing(Inserted(table, At(h, d, |table|), k, v, tail), hash)
  {
    var n := At(h, d, |table|);
    var t := Inserted(table, n, k, v, tail);
    assert forall m :: 0 <= m < |t| && m != n ==> t[m].k == table[m].k;
    forall m | 0 <= m < |t| && t[m].k.Key? ensures Reachable(t, hash, m) {
      if m == n {
        assert Dist(h, n, |t|) == d;
      } else {
        assert Reachable(table, hash, m);
      }
    }
  }

  lemma {:induction false} InsertedPairs<K, V>(table: seq<Entry<K, V>>, order: seq<int>, n: nat, k: K, v: Maybe<V>, tail: int)
    requires Lists(table, order) && n < |table| && !table[n].k.Key?
    requires tail == NIL || Live(table, tail)
    requires Lists(Inserted(table, n, k, v, tail), order + [n])
    ensures PairsOf(Inserted(table, n, k, v, tail), order + [n]) == PairsOf(table, order) + [(k, v)]
  {
    var t, o := Inserted(table, n, k, v, tail), order + [n];
    forall i | 0 <= i < |order|
      ensures PairsOf(t, o)[i] == PairsOf(table, order)[i]
    {
      assert Live(table, order[i]) && o[i] == order[i];
    }
    assert Live(t, o[|order|]);
  }

  // ---- one deletion ---------------------------------------------------------------------------

  /** Slot n becomes a tombstone; its neighbours in the list are linked to each other. */
  function Deleted<K, V>(table: seq<Entry<K, V>>, n: nat): (t: seq<Entry<K, V>>)
    requires n < |table|
    requires var e := table[n];
             (e.prev == NIL || 0 <= e.prev < |table|) && (e.next == NIL || 0 <= e.next < |table|)
    ensures |t| == |table|
  {
    var e := table[n];
    var a := if e.prev == NIL then table else table[e.prev := table[e.prev].(next := e.next)];
    var b := if e.next == NIL then a else a[e.next := a[e.next].(prev := e.prev)];
    b[n := Entry(Freed, NoValue, NIL, NIL)]
  }

  function Without(order: seq<int>, i: nat): seq<int>
    requires i < |order|
  {
    order[..i] + order[i + 1..]
  }

  lemma {:induction false} DeletedKeys<K, V>(table: seq<Entry<K, V>>, order: seq<int>, head: int, tail: int, i: nat)
    requires Lists(table, order) && Threads(table, order, head, tail) && i < |order|
    ensures Linked(table, order, i)
    ensures var t := Deleted(table, order[i]);
            t[order[i]].k.Freed?
            && forall m :: 0 <= m < |table| && m != order[i] ==> t[m].k == table[m].k && t[m].v == table[m].v
  {
    assert Linked(table, order, i);
    assert i > 0 ==> Live(table, order[i - 1]);
    assert i < |order| - 1 ==> Live(table, order[i + 1]);
  }

  lemma {:induction false} DeletedLists<K, V>(table: seq<Entry<K, V>>, order: seq<int>, head: int, tail: int, i: nat)
    requires Lists(table, order) && Threads(table, order, head, tail) && i < |order|
    ensures Linked(table, order, i) && Lists(Deleted(table, order[i]), Without(order, i))
  {
    DeletedKeys(table, order, head, tail, i);
    var n, o := order[i], Without(order, i);
    var t := Deleted(table, n);
    forall j | 0 <= j < |o| ensures Live(t, o[j]) && o[j] == order[if j < i then j else j + 1] {
      assert Live(table, order[if j < i then j else j + 1]);
    }
    forall m | 0 <= m < |t| && t[m].k.Key? ensures m in o {
      var j :| 0 <= j < |order| && order[j] == m;
      assert o[if j < i then j else j - 1] == m;
    }
  }

  lemma {:induction false} DeletedThreads<K, V>(table: seq<Entry<K, V>>, order: seq<int>, head: int, tail: int, i: nat)
    requires Lists(table, order) && Threads(table, order, head, tail) && i < |order|
    ensures Linked(table, order, i)
    ensures var e := table[order[i]];
            Threads(Deleted(table, order[i]), Without(order, i),
                    if head == order[i] then e.next else head, if tail == order[i] then e.prev else tail)
  {
    DeletedKeys(table, order, head, tail, i);
    var n, o := order[i], Without(order, i);
    var t := Deleted(table, n);
    forall j | 0 <= j < |o| ensures Linked(t, o, j) {
      DeletedLink(table, order, head, tail, i, j);
    }
  }

  lemma {:induction false} DeletedLink<K, V>(table: seq<Entry<K, V>>, order: seq<int>, head: int, tail: int, i: nat, j: nat)
    requires Lists(table, order) && Threads(table, order, head, tail) && i < |order|
    requires j < |order| - 1
    ensures Linked(table, order, i) && Linked(Deleted(table, order[i]), Without(order, i), j)
  {
    var k := if j < i then j else j + 1;
    assert Linked(table, order, i) && Linked(table, order, k);
    assert Live(table, order[k]);
    assert i > 0 ==> Live(table, order[i - 1]);
    assert i < |order| - 1 ==> Live(table, order[i + 1]);
    assert i > 0 && k != i - 1 ==> order[k] != order[i - 1];
    assert i < |order| - 1 && k != i + 1 ==> order[k] != order[i + 1];
  }

  lemma {:induction false} DeletedProbing<K, V>(table: seq<Entry<K, V>>, hash: K -> nat, t: seq<Entry<K, V>>, n: nat)
    requires Probing(table, hash) && |t| == |table| && n < |t| && t[n].k.Freed?
    requires forall m :: 0 <= m < |table| && m != n ==> t[m].k == table[m].k
    ensures Probing(t, hash)
  {
    forall m | 0 <= m < |t| && t[m].k.Key? ensures Reachable(t, hash, m) {
      assert Reachable(table, hash, m);
    }
  }

  lemma {:induction false} DeletedPairs<K, V>(table: seq<Entry<K, V>>, order: seq<int>, i: nat, t: seq<Entry<K, V>>)
    requires Lists(table, order) && i < |order| && Lists(t, Without(order, i)) && |t| == |table|
    requires forall m :: 0 <= m < |table| && m != order[i] ==> t[m].k == table[m].k && t[m].v == table[m].v
    ensures var p := PairsOf(table, order); PairsOf(t, Without(order, i)) == p[..i] + p[i + 1..]
  {
    var o := Without(order, i);
    var p, q := PairsOf(table, order), PairsOf(t, o);
    forall j | 0 <= j < |o| ensures q[j] == (p[..i] + p[i + 1..])[j] {
      var k := if j < i then j else j + 1;
      assert Live(t, o[j]) && Live(table, order[k]) && o[j] == order[k] && order[k] != order[i];
    }
  }

  // ---- one lookup -----------------------------------------------------------------------------

  /** The probe has seen d slots, none empty and none with the key. */
  ghost predicate Missed<K, V>(table: seq<Entry<K, V>>, k: K, h: nat, d: nat)
    requires h < |table| && d <= |table|
  {
    forall e :: 0 <= e < d ==>
      var s := table[At(h, e, |table|)].k; !s.Empty? && s != Key(k)
  }

  /** When the probe stops, the key is in no slot. */
  lemma {:induction false} NotFound<K, V>(table: seq<Entry<K, V>>, hash: K -> nat, k: K, d: nat, n: nat)
    requires Probing(table, hash) && 0 < |table| && d <= |table| && n < |table|
    requires Missed(table, k, hash(k) % |table|, d)
    requires d == |table| || table[At(hash(k) % |table|, d, |table|)].k.Empty?
    ensures table[n].k != Key(k)
  {
    var h := hash(k) % |table|;
    var e := Dist(h, n, |table|);
    assert At(h, e, |table|) == n;
    assert table[n].k.Key? ==> Reachable(table, hash, n);
  }
}
