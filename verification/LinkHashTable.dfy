/** struct lh_table: the operations of linkhash.c on an array of entries, and the object
    layer's add-or-replace on top of them. */
module LinkHashTable {
  import opened LinkHash

  class LhTable<K(==), V> {
    const hash: K -> nat
    var table: seq<Entry<K, V>>
    var size: nat
    var count: nat
    var head: int
    var tail: int
    ghost var order: seq<int>        // the live slots in list order
    ghost var pairs: Pairs<K, V>     // what they hold: the map this table stands for

    ghost predicate Valid()
      reads this
    {
      && 0 < size <= INT_MAX && size == |table| && count == |order| == |pairs|
      && Stands(|order| + 3, table, hash, order, head, tail, pairs)
      && LoadOk(count, size)
    }

    /** lh_table_new */
    constructor (size: nat, hash: K -> nat)
      requires 0 < size <= INT_MAX
      ensures Valid() && this.size == size && this.hash == hash
      ensures count == 0 && pairs == []
    {
      this.hash := hash;
      this.size := size;
      count, head, tail := 0, NIL, NIL;
      table := seq(size, _ => Entry(Empty, NoValue, NIL, NIL));
      order, pairs := [], [];
      new;
      StandsFor(3, table, hash, order, head, tail, pairs);
    }

    // ---- lookup ---------------------------------------------------------------------------

    /** lh_table_lookup_entry_w_hash: the slot of a key, or NIL. */
    method LookupEntry(k: K) returns (e: int)
      requires Valid()
      ensures e == NIL || Live(table, e)
      ensures e != NIL ==> table[e].k == Key(k) && exists i :: 0 <= i < |order| && order[i] == e
      ensures e == NIL ==> forall i :: 0 <= i < |pairs| ==> pairs[i].0 != k
    {
      StandsFor(|order| + 3, table, hash, order, head, tail, pairs);
      var h := hash(k) % size;
      var n, seen := h, 0;
      ghost var t := table;
      while seen < size
        invariant 0 <= seen <= size && 0 <= n < size && (seen < size ==> n == At(h, seen, size))
        invariant Missed(t, k, h, seen)
      {
        if table[n].k.Empty? {
          break;
        }
        if table[n].k != Freed && table[n].k.key == k {
          assert t[n].k.Key? && n in order;
          return n;
        }
        assert t[At(h, seen, size)].k == table[n].k;
        n := n + 1;
        if n == size {
          n := 0;
        }
        seen := seen + 1;
      }
      forall i | 0 <= i < |order| ensures pairs[i].0 != k {
        assert Live(t, order[i]);
        NotFound(t, hash, k, seen, order[i]);
      }
      return NIL;
    }

    // ---- insertion ------------------------------------------------------------------------

    /** The uncounted probe loop of lh_table_insert_w_hash: it ends because there is a slot
        that is not live. */
    method ProbeFree(k: K) returns (n: int, ghost d: nat)
      requires Valid() && HasRoom(count, size)
      ensures d < size && n == At(hash(k) % size, d, size) && !table[n].k.Key?
      ensures Passed(table, hash(k) % size, d)
    {
      StandsFor(|order| + 3, table, hash, order, head, tail, pairs);
      var h := hash(k) % size;
      ghost var t := table;
      ghost var free := FreeSlot(t, order);
      ghost var stop := Dist(h, free, size);
      n, d := h, 0;
      while !(table[n].k.Empty? || table[n].k.Freed?)
        invariant d <= stop < size && n == At(h, d, size)
        invariant Passed(t, h, d)
        decreases stop - d
      {
        n := n + 1;
        if n == size {
          n := 0;
        }
        d := d + 1;
      }
    }

    /** The part of lh_table_insert_w_hash after the growth check. */
    method Place(k: K, v: Maybe<V>)
      requires Valid() && HasRoom(count, size)
      modifies this
      ensures Valid() && size == old(size) && count == old(count) + 1
      ensures pairs == old(pairs) + [(k, v)]
    {
      var n, d := ProbeFree(k);
      ghost var t, o := table, order;
      PlaceKeeps(t, hash, o, head, tail, pairs, d, k, v);
      table := table[n := table[n].(k := Key(k), v := v)];
      count := count + 1;
      if head == NIL {
        head, tail := n, n;
        table := table[n := table[n].(next := NIL, prev := NIL)];
      } else {
        table := table[tail := table[tail].(next := n)];
        table := table[n := table[n].(prev := tail, next := NIL)];
        tail := n;
      }
      order, pairs := order + [n], pairs + [(k, v)];
      assert table == Inserted(t, n, k, v, old(tail));
    }

    /** lh_table_insert_w_hash */
    method Insert(k: K, v: Maybe<V>) returns (r: int)
      requires Valid()
      modifies this
      ensures Valid() && (r == 0 || r == -1)
      ensures r == 0 ==> pairs == old(pairs) + [(k, v)] && count == old(count) + 1
      ensures r == 0 ==> size == (if HasRoom(old(count), old(size)) then old(size) else Grown(old(size)))
      ensures r != 0 <==> !HasRoom(old(count), old(size)) && old(size) == INT_MAX
      ensures r != 0 ==> pairs == old(pairs) && size == old(size)
      decreases if HasRoom(count, size) then 0 else 2
    {
      if !HasRoom(count, size) {
        var newSize := Grown(size);
        if size == INT_MAX {
          return -1;
        }
        var grown := Resize(newSize);
        if grown != 0 {
          return -1;
        }
      }
      Place(k, v);
      return 0;
    }

    /** lh_table_resize: every entry is inserted into a new table, in list order.  The
        recorded size is the length of the array exactly when none of those insertions had
        to grow the new table again. */
    method Resize(newSize: nat) returns (r: int)
      requires Valid() && 0 < newSize <= INT_MAX
      modifies this
      ensures r == 0 || r == -1
      ensures r != 0 ==> Valid() && pairs == old(pairs) && size == old(size)
                         && count == old(count)
      ensures r == 0 <==> LoadOk(count, INT_MAX)
      ensures r == 0 ==> size == newSize && count == old(count)
      ensures r == 0 ==> pairs == old(pairs) && Stands(|order| + 3, table, hash, order, head, tail, pairs)
      ensures r == 0 ==> (size == |table| <==> LoadOk(count, newSize))
      ensures r == 0 && LoadOk(count, newSize) ==> Valid()
      decreases if LoadOk(count, newSize) then 1 else 3
    {
      var newT := new LhTable<K, V>(newSize, hash);
      var ent := head;
      ghost var i := 0;
      ghost var all := pairs;
      Ends(table, hash, order, head, tail, pairs);
      while ent != NIL
        modifies newT
        invariant fresh(newT) && newT.Valid() && newT.hash == hash
        invariant Valid() && pairs == all && i <= |order|
        invariant ent == (if i < |order| then order[i] else NIL) && (ent == NIL <==> i == |order|)
        invariant newT.count == i && newT.pairs == all[..i]
        invariant newSize <= newT.size
        invariant newSize == newT.size <==> LoadOk(i, newSize)
        decreases |order| - i
      {
        ListAt(table, hash, order, head, tail, pairs, i);
        var failed := newT.Insert(table[ent].k.key, table[ent].v);
        if failed != 0 {
          return -1;
        }
        assert all[..i + 1] == all[..i] + [all[i]];
        ent := table[ent].next;
        i := i + 1;
      }
      assert all[..i] == all;
      table := newT.table;
      size := newSize;
      head := newT.head;
      tail := newT.tail;
      order, pairs := newT.order, newT.pairs;
      return 0;
    }

    // ---- deletion -------------------------------------------------------------------------

    /** lh_table_delete_entry */
    method DeleteEntry(n: int) returns (r: int, ghost i: int)
      requires Valid() && 0 <= n < size
      modifies this
      ensures Valid() && size == old(size)
      ensures r == (if old(table[n].k.Key?) then 0 else -1)
      ensures r != 0 ==> pairs == old(pairs) && order == old(order)
      ensures r == 0 ==> 0 <= i < |old(order)| && old(order)[i] == n && order == Without(old(order), i)
      ensures r == 0 ==> pairs == old(pairs)[..i] + old(pairs)[i + 1..]
      ensures r == 0 ==> old(table[n].k) == Key(old(pairs)[i].0)
      ensures r == 0 ==> forall j :: 0 <= j < |old(order)| && old(order)[j] == n ==> j == i
    {
      if table[n].k.Empty? || table[n].k.Freed? {
        return -1, -1;
      }
      i := PlaceOf(table, hash, order, head, tail, pairs, n);
      DeleteLive(n, i);
      return 0, i;
    }

    method DeleteLive(n: int, ghost i: nat)
      requires Valid() && i < |order| && order[i] == n
      modifies this
      ensures Valid() && size == old(size)
      ensures order == Without(old(order), i) && pairs == old(pairs)[..i] + old(pairs)[i + 1..]
    {
      ghost var t := table;
      NeighboursApart(t, hash, order, head, tail, pairs, i);
      DeleteKeeps(t, hash, order, head, tail, pairs, i);
      count := count - 1;
      table := table[n := table[n].(v := NoValue, k := Freed)];
      Unlink(n, t);
      order, pairs := Without(order, i), pairs[..i] + pairs[i + 1..];
    }

    /** The relinking at the end of lh_table_delete_entry. */
    method Unlink(n: int, ghost t: seq<Entry<K, V>>)
      requires 0 <= n < |t| && Apart(t, head, tail, n)
      requires table == t[n := t[n].(v := NoValue, k := Freed)]
      modifies this`head, this`tail, this`table
      ensures table == Deleted(t, n)
      ensures head == (if old(head) == n then t[n].next else old(head))
      ensures tail == (if old(tail) == n then t[n].prev else old(tail))
    {
      if tail == n && head == n {
        head, tail := NIL, NIL;
      } else if head == n {
        var next := table[head].next;
        table := table[next := table[next].(prev := NIL)];
        head := next;
      } else if tail == n {
        var prev := table[tail].prev;
        table := table[prev := table[prev].(next := NIL)];
        tail := prev;
      } else {
        var prev, next := table[n].prev, table[n].next;
        table := table[prev := table[prev].(next := next)];
        table := table[next := table[next].(prev := prev)];
      }
      table := table[n := table[n].(next := NIL, prev := NIL)];
    }

    /** lh_table_delete_entry_to_tail: from the tail back to `first`; everything when `first`
        is not in the list. */
    method DeleteEntryToTail(first: int) returns (r: int, ghost i: nat)
      requires Valid() && count > 0 && 0 <= first < size
      modifies this
      ensures Valid() && size == old(size) && r == 0
      ensures i < |old(order)| && order == old(order)[..i] && pairs == old(pairs)[..i]
      ensures old(order)[i] == first || (i == 0 && first !in old(order))
    {
      ghost var o, p := order, pairs;
      Ends(table, hash, order, head, tail, pairs);
      var entry := tail;
      i := |order| - 1;
      while true
        invariant Valid() && size == old(size)
        invariant i < |o| && entry == o[i] && order == o[..i + 1] && pairs == p[..i + 1]
        invariant forall j :: i < j < |o| ==> o[j] != first
        decreases i
      {
        ListAt(table, hash, order, head, tail, pairs, i);
        var prev := table[entry].prev;
        ghost var j;
        r, j := DeleteEntry(entry);
        assert j == i && order == o[..i] && pairs == p[..i];
        if entry == first {
          break;
        }
        if prev == NIL {
          break;
        }
        entry, i := prev, i - 1;
      }
    }

    /** lh_table_delete */
    method Delete(k: K) returns (r: int, ghost i: int)
      requires Valid()
      modifies this
      ensures Valid() && size == old(size) && (r == 0 || r == -1)
      ensures r == 0 ==> 0 <= i < |old(pairs)| && old(pairs)[i].0 == k
                         && pairs == old(pairs)[..i] + old(pairs)[i + 1..]
      ensures r != 0 ==> pairs == old(pairs) && forall j :: 0 <= j < |pairs| ==> pairs[j].0 != k
    {
      var e := LookupEntry(k);
      if e == NIL {
        return -1, -1;
      }
      r, i := DeleteEntry(e);
    }

    /** A public resize below the load leaves `size` different from the array's length. */
    static method ShrinkExample(hash: K -> nat, a: K, b: K)
      returns (t: LhTable<K, V>)
      ensures t.size == 1 && |t.table| != 1
    {
      t := new LhTable<K, V>(16, hash);
      var r := t.Insert(a, NoValue);
      r := t.Insert(b, NoValue);
      r := t.Resize(1);
      assert r == 0;
    }

    // ---- the object layer -----------------------------------------------------------------

    /** json_object_object_add_ex; `isSelf` says that the value is the object itself.
        `released` is the value it replaces, which loses a reference. */
    method ObjectAdd(k: K, v: Maybe<V>, keyIsNew: bool, isSelf: bool)
      returns (r: int, released: Maybe<V>, ghost i: int)
      requires Valid()
      modifies this
      ensures Valid() && (r == 0 || r == -1)
      ensures r != 0 ==> pairs == old(pairs) && size == old(size) && released == NoValue
      ensures r != 0 <==> isSelf || (i < 0 && !HasRoom(old(count), old(size)) && old(size) == INT_MAX)
      ensures i < 0 ==> keyIsNew || forall j :: 0 <= j < |old(pairs)| ==> old(pairs)[j].0 != k
      ensures i >= 0 ==> !keyIsNew && i < |old(pairs)| && old(pairs)[i].0 == k
      ensures r == 0 && i < 0 ==> pairs == old(pairs) + [(k, v)] && released == NoValue
      ensures r == 0 && i >= 0 ==> pairs == old(pairs)[i := (k, v)] && released == old(pairs)[i].1
    {
      var e := NIL;
      released, i := NoValue, -1;
      if !keyIsNew {
        e := LookupEntry(k);
      }
      if e != NIL {
        i := PlaceOf(table, hash, order, head, tail, pairs, e);
      }
      if isSelf {
        return -1, NoValue, i;
      }
      if e == NIL {
        r := Insert(k, v);
        return;
      }
      released := table[e].v;
      SetValKeeps(table, hash, order, head, tail, pairs, i, v);
      table := table[e := table[e].(v := v)];
      pairs := pairs[i := (k, v)];
      r := 0;
    }

    /** json_object_object_get_ex */
    method ObjectGet(k: K) returns (found: Maybe<Maybe<V>>, ghost i: int)
      requires Valid()
      ensures found.NoValue? ==> forall j :: 0 <= j < |pairs| ==> pairs[j].0 != k
      ensures found.Value? ==> 0 <= i < |pairs| && pairs[i].0 == k && found == Value(pairs[i].1)
    {
      var e := LookupEntry(k);
      if e == NIL {
        return NoValue, -1;
      }
      i := PlaceOf(table, hash, order, head, tail, pairs, e);
      return Value(table[e].v), i;
    }

    /** One call of the object interface. */
    method Do(op: Op<K, V>) returns (ok: bool, answer: Maybe<Maybe<V>>)
      requires Valid() && DistinctKeys(pairs)
      modifies this
      ensures Valid() && DistinctKeys(pairs)
      ensures ok ==> pairs == Step(old(pairs), op) && answer == Answer(old(pairs), op)
      ensures !ok ==> op.Put? && pairs == old(pairs) && size == old(size) == INT_MAX && !HasRoom(count, size)
    {
      ok, answer := true, NoValue;
      match op {
        case Put(k, v) =>
          PutKeepsDistinct(pairs, k, v);
          var r, _, _ := ObjectAdd(k, v, false, false);
          ok := r == 0;
        case Remove(k) =>
          RemoveKeepsDistinct(pairs, k);
          var _, _ := Delete(k);
        case Get(k) =>
          var found, _ := ObjectGet(k);
          answer := found;
      }
    }

    /** Any run of adds, deletes and lookups, up to the first add that would have to grow a
        table of INT_MAX slots: contents, order and every answer are those of the
        insertion-ordered map. */
    method Perform(ops: seq<Op<K, V>>) returns (done: nat, answers: seq<Maybe<Maybe<V>>>)
      requires Valid() && DistinctKeys(pairs)
      modifies this
      ensures Valid() && DistinctKeys(pairs) && done <= |ops|
      ensures pairs == Played(old(pairs), ops[..done])
      ensures answers == Answers(old(pairs), ops[..done])
      ensures done < |ops| ==> size == INT_MAX && !HasRoom(count, size)
    {
      done, answers := 0, [];
      ghost var was := pairs;
      while done < |ops|
        invariant Valid() && DistinctKeys(pairs) && done <= |ops|
        invariant pairs == Played(was, ops[..done]) && answers == Answers(was, ops[..done])
      {
        PlayedSnoc(was, ops, done);
        var ok, answer := Do(ops[done]);
        if !ok {
          return;
        }
        answers := answers + [answer];
        done := done + 1;
      }
    }
  }

  // ---- the map the table stands for -------------------------------------------------------

  datatype Op<K, V> = Put(k: K, v: Maybe<V>) | Remove(k: K) | Get(k: K)

  function Step<K(==), V>(p: Pairs<K, V>, op: Op<K, V>): Pairs<K, V> {
    match op
    case Put(k, v) => PutPair(p, k, v)
    case Remove(k) => RemovePair(p, k)
    case Get(_) => p
  }

  function Answer<K(==), V>(p: Pairs<K, V>, op: Op<K, V>): Maybe<Maybe<V>> {
    if op.Get? && Find(p, op.k) >= 0 then Value(p[Find(p, op.k)].1) else NoValue
  }

  function Played<K(==), V>(p: Pairs<K, V>, ops: seq<Op<K, V>>): Pairs<K, V> {
    if ops == [] then p else Step(Played(p, ops[..|ops| - 1]), ops[|ops| - 1])
  }

  function Answers<K(==), V>(p: Pairs<K, V>, ops: seq<Op<K, V>>): seq<Maybe<Maybe<V>>> {
    if ops == [] then []
    else
      var front := ops[..|ops| - 1];
      Answers(p, front) + [Answer(Played(p, front), ops[|ops| - 1])]
  }

  lemma {:induction false} PlayedSnoc<K, V>(p: Pairs<K, V>, ops: seq<Op<K, V>>, n: nat)
    requires n < |ops|
    ensures Played(p, ops[..n + 1]) == Step(Played(p, ops[..n]), ops[n])
    ensures Answers(p, ops[..n + 1]) == Answers(p, ops[..n]) + [Answer(Played(p, ops[..n]), ops[n])]
  {
    assert ops[..n + 1][..n] == ops[..n];
  }

  /** After any run a lookup gives the value of the last add of that key, or nothing when a
      delete came after it. */
  ghost function LastWrite<K, V>(ops: seq<Op<K, V>>, k: K): Maybe<Maybe<V>> {
    if ops == [] then NoValue
    else
      var op := ops[|ops| - 1];
      if op.Put? && op.k == k then Value(op.v)
      else if op.Remove? && op.k == k then NoValue
      else LastWrite(ops[..|ops| - 1], k)
  }

  lemma {:induction false} PlayedDistinct<K, V>(p: Pairs<K, V>, ops: seq<Op<K, V>>)
    requires DistinctKeys(p)
    ensures DistinctKeys(Played(p, ops))
    decreases |ops|
  {
    if ops != [] {
      var q, op := Played(p, ops[..|ops| - 1]), ops[|ops| - 1];
      PlayedDistinct(p, ops[..|ops| - 1]);
      match op
      case Put(k, v) => PutKeepsDistinct(q, k, v);
      case Remove(k) => RemoveKeepsDistinct(q, k);
      case Get(_) =>
    }
  }

  lemma {:induction false} PutAnswers<K, V>(p: Pairs<K, V>, key: K, v: Maybe<V>, k: K)
    requires DistinctKeys(p)
    ensures Answer(PutPair(p, key, v), Get(k)) == (if key == k then Value(v) else Answer(p, Get(k)))
  {
    var q := PutPair(p, key, v);
    PutKeepsDistinct(p, key, v);
    var a, b, r := Find(p, k), Find(q, k), Find(p, key);
    assert q[if r < 0 then |p| else r] == (key, v);
    assert a >= 0 && k != key ==> q[a] == p[a];
    assert b >= 0 && k != key ==> q[b] == p[b];
  }

  lemma {:induction false} RemoveAnswers<K, V>(p: Pairs<K, V>, key: K, k: K)
    requires DistinctKeys(p)
    ensures Answer(RemovePair(p, key), Get(k)) == (if key == k then NoValue else Answer(p, Get(k)))
  {
    var q, r := RemovePair(p, key), Find(p, key);
    RemoveKeepsDistinct(p, key);
    if r >= 0 && k != key {
      var a, b := Find(p, k), Find(q, k);
      assert b >= 0 ==> q[b] == p[if b < r then b else b + 1];
      assert a >= 0 ==> q[if a < r then a else a - 1] == p[a];
    }
  }

  lemma {:induction false} StepAnswers<K, V>(p: Pairs<K, V>, op: Op<K, V>, k: K)
    requires DistinctKeys(p)
    ensures Answer(Step(p, op), Get(k)) ==
            (if op.Put? && op.k == k then Value(op.v)
             else if op.Remove? && op.k == k then NoValue
             else Answer(p, Get(k)))
  {
    match op
    case Put(key, v) => PutAnswers(p, key, v, k);
    case Remove(key) => RemoveAnswers(p, key, k);
    case Get(_) =>
  }

  lemma {:induction false} PlayedLookup<K, V>(ops: seq<Op<K, V>>, k: K)
    ensures Answer(Played([], ops), Get(k)) == LastWrite(ops, k)
    decreases |ops|
  {
    if ops != [] {
      var front := ops[..|ops| - 1];
      PlayedDistinct<K, V>([], front);
      StepAnswers(Played([], front), ops[|ops| - 1], k);
      PlayedLookup(front, k);
    }
  }

  // ---- the invariant as one fact ----------------------------------------------------------

  /** `Consistent`, and `pairs` is what the table holds.  It is written with a counter so
      that the methods above carry it as one fact; `StandsFor` opens it. */
  ghost predicate Stands<K, V>(d: nat, t: seq<Entry<K, V>>, hash: K -> nat, order: seq<int>,
                               head: int, tail: int, pairs: Pairs<K, V>)
    decreases d
  {
    if d > 0 then Stands(d - 1, t, hash, order, head, tail, pairs)
    else Consistent(t, hash, order, head, tail) && pairs == PairsOf(t, order)
  }

  lemma {:induction false} StandsFor<K, V>(d: nat, t: seq<Entry<K, V>>, hash: K -> nat,
                                           order: seq<int>, head: int, tail: int, pairs: Pairs<K, V>)
    ensures Stands(d, t, hash, order, head, tail, pairs)
            <==> Consistent(t, hash, order, head, tail) && pairs == PairsOf(t, order)
    decreases d
  {
    if d > 0 {
      StandsFor(d - 1, t, hash, order, head, tail, pairs);
    }
  }

  /** Where growth goes: double, without overflowing an int. */
  function Grown(size: nat): nat { if size > INT_MAX / 2 then INT_MAX else size * 2 }

  /** The ends and the neighbours of a live slot. */
  ghost predicate Apart<K, V>(t: seq<Entry<K, V>>, head: int, tail: int, n: int)
    requires 0 <= n < |t|
  {
    var prev, next := t[n].prev, t[n].next;
    && (head == n <==> prev == NIL) && (tail == n <==> next == NIL)
    && (prev != NIL ==> 0 <= prev < |t| && prev != n)
    && (next != NIL ==> 0 <= next < |t| && next != n && next != prev)
  }

  /** Element i of the list, and where its link leads. */
  lemma {:induction false} ListAt<K, V>(t: seq<Entry<K, V>>, hash: K -> nat, order: seq<int>, head: int, tail: int,
                     pairs: Pairs<K, V>, i: nat)
    requires Stands(|order| + 3, t, hash, order, head, tail, pairs) && i < |order|
    ensures |pairs| == |order| && 0 <= order[i] < |t|
    ensures t[order[i]].k == Key(pairs[i].0) && t[order[i]].v == pairs[i].1
    ensures t[order[i]].next == if i + 1 < |order| then order[i + 1] else NIL
    ensures t[order[i]].prev == if i > 0 then order[i - 1] else NIL
    ensures i + 1 < |order| ==> 0 <= order[i + 1]
    ensures i > 0 ==> 0 <= order[i - 1]
  {
    StandsFor(|order| + 3, t, hash, order, head, tail, pairs);
    assert Live(t, order[i]) && Linked(t, order, i);
    assert i + 1 < |order| ==> Live(t, order[i + 1]);
    assert i > 0 ==> Live(t, order[i - 1]);
  }

  lemma {:induction false} Ends<K, V>(t: seq<Entry<K, V>>, hash: K -> nat, order: seq<int>, head: int, tail: int,
                   pairs: Pairs<K, V>)
    requires Stands(|order| + 3, t, hash, order, head, tail, pairs)
    ensures head == (if order == [] then NIL else order[0])
    ensures tail == (if order == [] then NIL else order[|order| - 1])
    ensures order != [] ==> 0 <= head < |t| && 0 <= tail < |t|
  {
    StandsFor(|order| + 3, t, hash, order, head, tail, pairs);
    assert order != [] ==> Live(t, order[0]) && Live(t, order[|order| - 1]);
  }

  /** A live slot is in the list. */
  lemma {:induction false} PlaceOf<K, V>(t: seq<Entry<K, V>>, hash: K -> nat, order: seq<int>, head: int, tail: int,
                      pairs: Pairs<K, V>, n: nat) returns (i: nat)
    requires Stands(|order| + 3, t, hash, order, head, tail, pairs) && Live(t, n)
    ensures i < |order| == |pairs| && order[i] == n
    ensures forall j :: 0 <= j < |order| && order[j] == n ==> j == i
    ensures t[n].k == Key(pairs[i].0) && t[n].v == pairs[i].1
  {
    StandsFor(|order| + 3, t, hash, order, head, tail, pairs);
    assert t[n].k.Key? && n in order;
    i :| 0 <= i < |order| && order[i] == n;
  }

  /** Overwriting the value of a live slot changes one pair and nothing else. */
  lemma {:induction false} SetValKeeps<K, V>(t: seq<Entry<K, V>>, hash: K -> nat, order: seq<int>, head: int, tail: int,
                          pairs: Pairs<K, V>, i: nat, v: Maybe<V>)
    requires Stands(|order| + 3, t, hash, order, head, tail, pairs) && i < |order|
    ensures 0 <= order[i] < |t| && |pairs| == |order|
    ensures Stands(|order| + 3, t[order[i] := t[order[i]].(v := v)], hash, order, head, tail,
                   pairs[i := (pairs[i].0, v)])
  {
    ListAt(t, hash, order, head, tail, pairs, i);
    var n := order[i];
    var t', pairs' := t[n := t[n].(v := v)], pairs[i := (pairs[i].0, v)];
    assert Consistent(t', hash, order, head, tail) && pairs' == PairsOf(t', order) by {
      StandsFor(|order| + 3, t, hash, order, head, tail, pairs);
      SetValLists(t, order, n, v);
      SetValThreads(t, order, head, tail, n, v);
      SetValProbing(t, hash, n, v);
      SetValPairs(t, order, i, v);
    }
    StandsFor(|order| + 3, t', hash, order, head, tail, pairs');
  }

  lemma {:induction false} SetValLists<K, V>(t: seq<Entry<K, V>>, order: seq<int>, n: nat, v: Maybe<V>)
    requires Lists(t, order) && n < |t|
    ensures Lists(t[n := t[n].(v := v)], order)
  {
  }

  lemma {:induction false} SetValThreads<K, V>(t: seq<Entry<K, V>>, order: seq<int>, head: int, tail: int, n: nat, v: Maybe<V>)
    requires Threads(t, order, head, tail) && n < |t|
    ensures Threads(t[n := t[n].(v := v)], order, head, tail)
  {
    var t' := t[n := t[n].(v := v)];
    forall i | 0 <= i < |order| ensures Linked(t', order, i) {
      assert Linked(t, order, i);
    }
  }

  lemma {:induction false} SetValProbing<K, V>(t: seq<Entry<K, V>>, hash: K -> nat, n: nat, v: Maybe<V>)
    requires Probing(t, hash) && n < |t|
    ensures Probing(t[n := t[n].(v := v)], hash)
  {
  }

  lemma {:induction false} SetValPairs<K, V>(t: seq<Entry<K, V>>, order: seq<int>, i: nat, v: Maybe<V>)
    requires Lists(t, order) && i < |order| && 0 <= order[i] < |t|
    requires Lists(t[order[i] := t[order[i]].(v := v)], order)
    ensures var p := PairsOf(t, order);
            PairsOf(t[order[i] := t[order[i]].(v := v)], order) == p[i := (p[i].0, v)]
  {
  }

  lemma {:induction false} NeighboursApart<K, V>(t: seq<Entry<K, V>>, hash: K -> nat, order: seq<int>, head: int,
                              tail: int, pairs: Pairs<K, V>, i: nat)
    requires Stands(|order| + 3, t, hash, order, head, tail, pairs) && i < |order|
    ensures 0 <= order[i] < |t| && Apart(t, head, tail, order[i]) && |pairs| == |order|
  {
    StandsFor(|order| + 3, t, hash, order, head, tail, pairs);
    assert Linked(t, order, i) && Live(t, order[i]);
    assert i > 0 ==> Live(t, order[i - 1]) && order[0] != order[i];
    assert i < |order| - 1 ==> Live(t, order[i + 1]) && order[i] != order[|order| - 1];
  }

  lemma {:induction false} DeleteKeeps<K, V>(t: seq<Entry<K, V>>, hash: K -> nat, order: seq<int>, head: int, tail: int,
                          pairs: Pairs<K, V>, i: nat)
    requires Stands(|order| + 3, t, hash, order, head, tail, pairs) && i < |order|
    ensures 0 <= order[i] < |t| && |pairs| == |order| && Apart(t, head, tail, order[i])
    ensures var n, o := order[i], Without(order, i);
            Stands(|o| + 3, Deleted(t, n), hash, o, if head == n then t[n].next else head,
                   if tail == n then t[n].prev else tail, pairs[..i] + pairs[i + 1..])
  {
    NeighboursApart(t, hash, order, head, tail, pairs, i);
    var n, o := order[i], Without(order, i);
    var head', tail' := if head == n then t[n].next else head, if tail == n then t[n].prev else tail;
    var pairs' := pairs[..i] + pairs[i + 1..];
    assert Consistent(Deleted(t, n), hash, o, head', tail') && pairs' == PairsOf(Deleted(t, n), o) by {
      StandsFor(|order| + 3, t, hash, order, head, tail, pairs);
      DeletedKeys(t, order, head, tail, i);
      DeletedLists(t, order, head, tail, i);
      DeletedThreads(t, order, head, tail, i);
      DeletedProbing(t, hash, Deleted(t, n), n);
      DeletedPairs(t, order, i, Deleted(t, n));
    }
    StandsFor(|o| + 3, Deleted(t, n), hash, o, head', tail', pairs');
  }

  lemma {:induction false} PlaceKeeps<K, V>(t: seq<Entry<K, V>>, hash: K -> nat, order: seq<int>, head: int, tail: int,
                         pairs: Pairs<K, V>, d: nat, k: K, v: Maybe<V>)
    requires 0 < |t| && Stands(|order| + 3, t, hash, order, head, tail, pairs)
    requires d < |t| && Passed(t, hash(k) % |t|, d) && !t[At(hash(k) % |t|, d, |t|)].k.Key?
    ensures tail == NIL || (0 <= tail < |t| && t[tail].k.Key?)
    ensures (head == NIL) == (tail == NIL) == (order == [])
    ensures var n := At(hash(k) % |t|, d, |t|);
            Stands(|order| + 4, Inserted(t, n, k, v, tail), hash, order + [n],
                   if head == NIL then n else head, n, pairs + [(k, v)])
  {
    StandsFor(|order| + 3, t, hash, order, head, tail, pairs);
    var h := hash(k) % |t|;
    var n := At(h, d, |t|);
    assert order != [] ==> Live(t, order[0]) && Live(t, order[|order| - 1]);
    InsertedThreads(t, order, head, tail, n, k, v);
    InsertedLists(t, order, n, k, v, tail);
    InsertedProbing(t, hash, h, d, k, v, tail);
    InsertedPairs(t, order, n, k, v, tail);
    StandsFor(|order| + 4, Inserted(t, n, k, v, tail), hash, order + [n],
              if head == NIL then n else head, n, pairs + [(k, v)]);
  }
}
