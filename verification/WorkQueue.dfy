/** The work queue of a client: a ring buffer with two ends and coalescing of upload
    notifications when it is full. */
module WorkQueue {

  const MSG_ACTIVE_UPLOAD := 8

  datatype Msg = Msg(kind: int, body: seq<int>)

  // ---- the queue as a bounded deque ------------------------------------------------------

  /** The first upload notification, or -1. */
  function FirstUpload(items: seq<Msg>): (i: int)
    ensures -1 <= i < |items|
    ensures i >= 0 ==> items[i].kind == MSG_ACTIVE_UPLOAD
    ensures forall j :: 0 <= j < (if i < 0 then |items| else i) ==> items[j].kind != MSG_ACTIVE_UPLOAD
  {
    if items == [] then -1
    else if items[0].kind == MSG_ACTIVE_UPLOAD then 0
    else
      var i := FirstUpload(items[1..]);
      if i < 0 then -1 else i + 1
  }

  /** Whether a message is taken. */
  predicate Accepts(items: seq<Msg>, capacity: nat, msg: Msg) {
    |items| < capacity || (msg.kind == MSG_ACTIVE_UPLOAD && FirstUpload(items) >= 0)
  }

  function Pushed(items: seq<Msg>, capacity: nat, msg: Msg, high: bool): (r: seq<Msg>)
    requires |items| <= capacity
    ensures |r| <= capacity
    ensures Accepts(items, capacity, msg) ==> msg in r
  {
    if |items| < capacity then
      if high then [msg] + items else items + [msg]
    else if Accepts(items, capacity, msg) then
      var i := FirstUpload(items);
      assert items[i := msg][i] == msg;
      items[i := msg]
    else items
  }

  /** n modulo the capacity, for the n that occur. */
  function Wrap(n: nat, capacity: nat): (r: nat)
    requires 0 < capacity && n < 2 * capacity
    ensures r < capacity
  {
    if n < capacity then n else n - capacity
  }

  lemma {:induction false} WrapIsMod(n: nat, capacity: nat)
    requires 0 < capacity && n < 2 * capacity
    ensures n % capacity == Wrap(n, capacity)
  {
  }

  class Ring {
    const capacity: nat
    const queue: array<Msg>
    var head: nat
    var tail: nat
    var count: nat
    ghost var items: seq<Msg>

    ghost predicate Valid()
      reads this, queue
    {
      && queue.Length == capacity && |items| == count <= capacity
      && (capacity == 0 ==> head == 0 && tail == 0)
      && (capacity > 0 ==> head < capacity && tail == Wrap(head + count, capacity))
      && forall i :: 0 <= i < count ==> queue[Wrap(head + i, capacity)] == items[i]
    }

    /** client_context_init */
    constructor (capacity: nat)
      ensures Valid() && items == [] && this.capacity == capacity && fresh(queue)
    {
      this.capacity := capacity;
      queue := new Msg[capacity](_ => Msg(0, []));
      head, tail, count, items := 0, 0, 0, [];
    }

    /** queue_push_locked */
    method Push(msg: Msg, high: bool) returns (ok: bool)
      requires Valid()
      modifies this, queue
      ensures Valid()
      ensures ok == Accepts(old(items), capacity, msg)
      ensures items == Pushed(old(items), capacity, msg, high)
    {
      if count >= capacity {
        if msg.kind == MSG_ACTIVE_UPLOAD {
          ok := Coalesce(msg);
          return;
        }
        return false;
      }
      if high {
        PushFront(msg);
      } else {
        PushBack(msg);
      }
      return true;
    }

    method PushFront(msg: Msg)
      requires Valid() && count < capacity
      modifies this, queue
      ensures Valid() && items == [msg] + old(items)
    {
      WrapIsMod(head + (capacity - 1), capacity);
      ghost var was := head;
      head := (head - 1 + capacity) % capacity;
      queue[head] := msg;
      items := [msg] + items;
      count := count + 1;
      forall j | 0 <= j < count ensures queue[Wrap(head + j, capacity)] == items[j] {
        assert j > 0 ==> Wrap(head + j, capacity) == Wrap(was + (j - 1), capacity) != head;
      }
    }

    method PushBack(msg: Msg)
      requires Valid() && count < capacity
      modifies this, queue
      ensures Valid() && items == old(items) + [msg]
    {
      WrapIsMod(tail + 1, capacity);
      queue[tail] := msg;
      tail := (tail + 1) % capacity;
      items := items + [msg];
      count := count + 1;
    }

    /** The replacement in queue_push_locked when the queue is full. */
    method Coalesce(msg: Msg) returns (ok: bool)
      requires Valid() && count == capacity
      modifies this`items, queue
      ensures Valid()
      ensures ok == (FirstUpload(old(items)) >= 0)
      ensures items == if ok then old(items)[FirstUpload(old(items)) := msg] else old(items)
    {
      var i := FindUpload();
      if i < 0 {
        return false;
      }
      Overwrite(i, msg);
      return true;
    }

    method Overwrite(i: nat, msg: Msg)
      requires Valid() && i < count
      modifies this`items, queue
      ensures Valid() && items == old(items)[i := msg]
    {
      WrapIsMod(head + i, capacity);
      var index := (head + i) % capacity;
      queue[index] := msg;
      items := items[i := msg];
      forall j | 0 <= j < count ensures queue[Wrap(head + j, capacity)] == items[j] {
        assert j != i ==> Wrap(head + j, capacity) != index;
      }
    }

    method FindUpload() returns (i: int)
      requires Valid()
      ensures i == FirstUpload(items)
    {
      i := 0;
      while i < count
        invariant 0 <= i <= count
        invariant forall j :: 0 <= j < i ==> items[j].kind != MSG_ACTIVE_UPLOAD
      {
        WrapIsMod(head + i, capacity);
        var index := (head + i) % capacity;
        assert queue[index] == items[i];
        if queue[index].kind == MSG_ACTIVE_UPLOAD {
          return;
        }
        i := i + 1;
      }
      return -1;
    }

    /** The locked part of queue_pop. */
    method Pop() returns (ok: bool, msg: Msg)
      requires Valid()
      modifies this
      ensures Valid() && ok == (old(items) != [])
      ensures ok ==> [msg] + items == old(items)
      ensures !ok ==> items == old(items)
    {
      if count == 0 {
        return false, Msg(0, []);
      }
      assert queue[Wrap(head + 0, capacity)] == items[0];
      msg := queue[head];
      WrapIsMod(head + 1, capacity);
      ghost var was := head;
      head := (head + 1) % capacity;
      count := count - 1;
      items := items[1..];
      forall i | 0 <= i < count ensures queue[Wrap(head + i, capacity)] == items[i] {
        assert Wrap(head + i, capacity) == Wrap(was + (i + 1), capacity);
      }
      return true, msg;
    }

    /** What binding and closing a connection do to the queue. */
    method Reset()
      requires Valid()
      modifies this
      ensures Valid() && items == []
    {
      head, tail, count, items := 0, 0, 0, [];
    }
  }
}
