/** The event ring of the upload area and the scheduler that moves its entries into the
    event history: the ring overwrites its oldest entry, the scheduler takes what is newer
    than its last snapshot. */
module SoeTransfer {
  import opened ActiveUpload

  type Event = Slot<SoeData>

  /** `puts`, `since` and `lost` are histories: every event, those since the last transfer or
      clear, and those that were overwritten or cleared before a transfer took them. */
  datatype Log = Log(ring: seq<Event>, next: nat, version: nat, last: nat, delivered: seq<Event>,
                     puts: seq<Event>, since: seq<Event>, lost: seq<Event>)

  datatype Action =
    | Event(ioa: int, data: SoeData)   // put_soe_locked
    | Other                            // any other put: only the version moves
    | Transfer                         // snapshot after `last`, append, remember its version
    | Clear                            // active_upload_clear

  function Init(capacity: nat): Log
    requires capacity > 0
  {
    Log(seq(capacity, _ => Empty), 0, 0, 0, [], [], [], [])
  }

  /** The part of a list of events that a ring of this size still holds. */
  function Recent(since: seq<Event>, capacity: nat): seq<Event> {
    if |since| <= capacity then since else since[|since| - capacity..]
  }

  /** The events that wait for the next transfer: what it would take. */
  function Waiting(s: Log): seq<Event> { After(s.ring, s.last) }

  function Step(s: Log, a: Action): Log
    requires s.next < |s.ring|
  {
    match a
    case Event(ioa, data) =>
      var e := Pending(ioa, data, s.version + 1);
      s.(ring := s.ring[s.next := e], next := (s.next + 1) % |s.ring|, version := s.version + 1,
         puts := s.puts + [e], since := s.since + [e], lost := s.lost + After([s.ring[s.next]], s.last))
    case Other => s.(version := s.version + 1)
    case Transfer =>
      s.(delivered := s.delivered + Waiting(s), last := s.version, since := [])
    case Clear =>
      s.(ring := seq(|s.ring|, _ => Empty), next := 0, version := s.version + 1,
         since := [], lost := s.lost + Waiting(s))
  }

  // ---- what the ring holds ------------------------------------------------------------------

  /** How many puts ago slot i was written: 1 for the slot before `next`. */
  function Age(next: nat, i: nat, capacity: nat): (a: nat)
    requires next < capacity && i < capacity
    ensures 1 <= a <= capacity
  {
    if i < next then next - i else next - i + capacity
  }

  ghost predicate Newer(e: Event, last: nat) { e.Pending? && e.version > last }

  ghost predicate SlotOk(s: Log, i: nat)
    requires s.next < |s.ring| && i < |s.ring|
  {
    var a := Age(s.next, i, |s.ring|);
    if a <= |s.since| then s.ring[i] == s.since[|s.since| - a] else !Newer(s.ring[i], s.last)
  }

  ghost predicate Bounds(s: Log) {
    && s.next < |s.ring| && s.last <= s.version
    && (forall i :: 0 <= i < |s.since| ==> Newer(s.since[i], s.last) && s.since[i].version <= s.version)
    && (forall i :: 0 <= i < |s.ring| && s.ring[i].Pending? ==> s.ring[i].version <= s.version)
  }

  ghost predicate RingOk(s: Log) {
    Bounds(s) && forall i :: 0 <= i < |s.ring| ==> SlotOk(s, i)
  }

  /** Every event put has been delivered, waits in the ring, or was lost; once. */
  ghost predicate Conserves(s: Log) {
    multiset(s.puts) == multiset(s.delivered) + multiset(s.lost) + multiset(Waiting(s))
  }

  ghost predicate Inv(s: Log) { RingOk(s) && Conserves(s) }

  lemma {:induction false} NextMod(next: nat, capacity: nat)
    requires next < capacity
    ensures (next + 1) % capacity == if next + 1 == capacity then 0 else next + 1
  {
  }

  lemma {:induction false} EventRing(s: Log, ioa: int, data: SoeData)
    requires RingOk(s)
    ensures RingOk(Step(s, Event(ioa, data)))
  {
    var s' := Step(s, Event(ioa, data));
    NextMod(s.next, |s.ring|);
    forall i | 0 <= i < |s'.ring| ensures SlotOk(s', i) {
      assert SlotOk(s, i);
      assert Age(s'.next, i, |s.ring|) == if i == s.next then 1 else Age(s.next, i, |s.ring|) + 1;
    }
  }

  lemma {:induction false} AfterAll(slots: seq<Event>, last: nat)
    requires forall i :: 0 <= i < |slots| ==> Newer(slots[i], last)
    ensures After(slots, last) == slots
    decreases |slots|
  {
    if slots != [] {
      AfterAll(slots[..|slots| - 1], last);
      assert slots == slots[..|slots| - 1] + [slots[|slots| - 1]];
    }
  }

  lemma {:induction false} AfterNone(slots: seq<Event>, last: nat)
    requires forall i :: 0 <= i < |slots| ==> !Newer(slots[i], last)
    ensures After(slots, last) == []
    decreases |slots|
  {
    if slots != [] {
      AfterNone(slots[..|slots| - 1], last);
    }
  }

  /** The n slots before the write position hold the last n events. */
  lemma {:induction false} RecentBefore(s: Log, n: nat)
    requires RingOk(s) && n <= s.next && n <= |s.since|
    ensures After(s.ring[s.next - n..s.next], s.last) == s.since[|s.since| - n..]
  {
    var slice, tail := s.ring[s.next - n..s.next], s.since[|s.since| - n..];
    forall j | 0 <= j < n ensures slice[j] == tail[j] && Newer(slice[j], s.last) {
      assert SlotOk(s, s.next - n + j);
    }
    assert slice == tail;
    AfterAll(slice, s.last);
  }

  /** The last n slots of the ring hold the n events before those. */
  lemma {:induction false} RecentAfter(s: Log, n: nat)
    requires RingOk(s) && n + s.next <= |s.ring| && n + s.next <= |s.since|
    ensures After(s.ring[|s.ring| - n..], s.last) == s.since[|s.since| - s.next - n..|s.since| - s.next]
  {
    var slice, part := s.ring[|s.ring| - n..], s.since[|s.since| - s.next - n..|s.since| - s.next];
    forall j | 0 <= j < n ensures slice[j] == part[j] && Newer(slice[j], s.last) {
      assert SlotOk(s, |s.ring| - n + j);
    }
    assert slice == part;
    AfterAll(slice, s.last);
  }

  lemma {:induction false} OldSlots(s: Log, lo: nat, hi: nat)
    requires RingOk(s) && lo <= hi <= |s.ring|
    requires forall i :: lo <= i < hi ==> Age(s.next, i, |s.ring|) > |s.since|
    ensures After(s.ring[lo..hi], s.last) == []
  {
    var slice := s.ring[lo..hi];
    forall j | 0 <= j < hi - lo ensures !Newer(slice[j], s.last) {
      assert SlotOk(s, lo + j);
    }
    AfterNone(slice, s.last);
  }

  lemma {:induction false} AfterThree(ring: seq<Event>, i: nat, j: nat, last: nat)
    requires i <= j <= |ring|
    ensures After(ring, last) == After(ring[..i], last) + After(ring[i..j], last) + After(ring[j..], last)
  {
    var a, b, c := ring[..i], ring[i..j], ring[j..];
    assert ring == (a + b) + c;
    AfterConcat(a + b, c, last);
    AfterConcat(a, b, last);
  }

  lemma {:induction false} TakesUnwrapped(s: Log)
    requires RingOk(s) && |s.since| <= s.next
    ensures After(s.ring, s.last) == s.since
  {
    var m, next := |s.since|, s.next;
    assert After(s.ring[..next - m], s.last) == [] by {
      OldSlots(s, 0, next - m);
      assert s.ring[0..next - m] == s.ring[..next - m];
    }
    assert After(s.ring[next - m..next], s.last) == s.since by {
      RecentBefore(s, m);
      assert s.since[|s.since| - m..] == s.since;
    }
    assert After(s.ring[next..], s.last) == [] by {
      OldSlots(s, next, |s.ring|);
      assert s.ring[next..|s.ring|] == s.ring[next..];
    }
    AfterThree(s.ring, next - m, next, s.last);
  }

  lemma {:induction false} RecentParts(since: seq<Event>, cap: nat, next: nat)
    requires next < |since| && next < cap
    ensures var recent := Recent(since, cap);
            var m := |recent|;
            && next < m && recent[m - next..] == since[|since| - next..]
            && recent[..m - next] == since[|since| - m..|since| - next]
  {
  }

  /** The end of a wrapped ring: the slots from the cut on hold the older recent events, and
      those between the write position and the cut none. */
  lemma {:induction false} TakesEnd(s: Log)
    requires RingOk(s) && s.next < |s.since|
    ensures var recent := Recent(s.since, |s.ring|);
            var m, next := |recent|, s.next;
            var cut := |s.ring| - (m - next);
            && next < m && next <= cut <= |s.ring|
            && After(s.ring[next..cut], s.last) == []
            && After(s.ring[cut..], s.last) == recent[..m - next]
  {
    var m := |Recent(s.since, |s.ring|)|;
    RecentParts(s.since, |s.ring|, s.next);
    OldSlots(s, s.next, |s.ring| - (m - s.next));
    RecentAfter(s, m - s.next);
  }

  /** The front of a wrapped ring: the slots before the write position hold the latest. */
  lemma {:induction false} TakesFront(s: Log)
    requires RingOk(s) && s.next < |s.since|
    ensures var recent := Recent(s.since, |s.ring|);
            s.next < |recent| && After(s.ring[..s.next], s.last) == recent[|recent| - s.next..]
  {
    RecentParts(s.since, |s.ring|, s.next);
    RecentBefore(s, s.next);
    assert s.ring[s.next - s.next..s.next] == s.ring[..s.next];
  }

  lemma {:induction false} TakesWrapped(s: Log)
    requires RingOk(s) && s.next < |s.since|
    ensures var recent := Recent(s.since, |s.ring|);
            && s.next < |recent|
            && After(s.ring, s.last) == recent[|recent| - s.next..] + recent[..|recent| - s.next]
  {
    TakesFront(s);
    TakesEnd(s);
    AfterThree(s.ring, s.next, |s.ring| - (|Recent(s.since, |s.ring|)| - s.next), s.last);
  }

  /** A transfer takes exactly the recent events, in slot order: of a ring in which they go
      round the end, what lies before the write position comes first. */
  lemma {:induction false} TransferTakes(s: Log)
    requires RingOk(s)
    ensures var recent := Recent(s.since, |s.ring|);
            After(s.ring, s.last) ==
            if |recent| <= s.next then recent
            else recent[|recent| - s.next..] + recent[..|recent| - s.next]
  {
    if |s.since| <= s.next {
      TakesUnwrapped(s);
    } else {
      TakesWrapped(s);
    }
  }

  /** What waits is the recent events. */
  lemma {:induction false} WaitingBag(s: Log)
    requires RingOk(s)
    ensures multiset(Waiting(s)) == multiset(Recent(s.since, |s.ring|))
  {
    var recent := Recent(s.since, |s.ring|);
    TransferTakes(s);
    if |recent| > s.next {
      var k := |recent| - s.next;
      assert recent == recent[..k] + recent[k..];
    }
  }

  /** The oldest of the recent events, when there is no room for one more. */
  function Oldest(since: seq<Event>, capacity: nat): seq<Event>
    requires capacity > 0
  {
    if |since| < capacity then [] else [since[|since| - capacity]]
  }

  lemma {:induction false} AfterOne(e: Event, last: nat)
    ensures After([e], last) == if Newer(e, last) then [e] else []
  {
    assert [e][..0] == [];
  }

  /** An event overwrites one that waits exactly when the ring is full of such. */
  lemma {:induction false} EventLoses(s: Log)
    requires RingOk(s)
    ensures After([s.ring[s.next]], s.last) == Oldest(s.since, |s.ring|)
  {
    assert SlotOk(s, s.next) && Age(s.next, s.next, |s.ring|) == |s.ring|;
    AfterOne(s.ring[s.next], s.last);
  }

  lemma {:induction false} RecentMore(since: seq<Event>, e: Event, capacity: nat)
    requires capacity > 0
    ensures multiset(Oldest(since, capacity)) + multiset(Recent(since + [e], capacity)) ==
            multiset(Recent(since, capacity)) + multiset{e}
  {
    var oldest, later := Oldest(since, capacity), Recent(since + [e], capacity);
    assert oldest + later == Recent(since, capacity) + [e];
    assert multiset(oldest + later) == multiset(oldest) + multiset(later);
  }

  /** An event waits in the place of the one it overwrites. */
  lemma {:induction false} EventBag(s: Log, s': Log, e: Event)
    requires RingOk(s) && RingOk(s') && |s'.ring| == |s.ring| && s'.since == s.since + [e]
    ensures multiset(After([s.ring[s.next]], s.last)) + multiset(Waiting(s')) ==
            multiset(Waiting(s)) + multiset{e}
  {
    var capacity := |s.ring|;
    calc {
      multiset(After([s.ring[s.next]], s.last)) + multiset(Waiting(s'));
      { EventLoses(s); WaitingBag(s'); }
      multiset(Oldest(s.since, capacity)) + multiset(Recent(s'.since, capacity));
      { RecentMore(s.since, e, capacity); }
      multiset(Recent(s.since, capacity)) + multiset{e};
      { WaitingBag(s); }
      multiset(Waiting(s)) + multiset{e};
    }
  }

  lemma {:induction false} Regroup<T(!new)>(delivered: multiset<T>, lost: multiset<T>, gone: multiset<T>,
                                      before: multiset<T>, after: multiset<T>, put: multiset<T>)
    requires gone + after == before + put
    ensures delivered + lost + before + put == delivered + (lost + gone) + after
  {
    forall x ensures (delivered + lost + before + put)[x] == (delivered + (lost + gone) + after)[x] {
      assert (gone + after)[x] == (before + put)[x];
    }
  }

  lemma {:induction false} EventKeeps(s: Log, ioa: int, data: SoeData)
    requires Inv(s)
    ensures Inv(Step(s, Event(ioa, data)))
  {
    var s', e := Step(s, Event(ioa, data)), Pending(ioa, data, s.version + 1);
    var gone := After([s.ring[s.next]], s.last);
    EventRing(s, ioa, data);
    assert Conserves(s') by {
      EventBag(s, s', e);
      Regroup(multiset(s.delivered), multiset(s.lost), multiset(gone),
              multiset(Waiting(s)), multiset(Waiting(s')), multiset{e});
      assert multiset(s'.lost) == multiset(s.lost) + multiset(gone);
      assert multiset(s'.puts) == multiset(s.puts) + multiset{e};
    }
  }

  lemma {:induction false} TransferKeeps(s: Log)
    requires Inv(s)
    ensures Inv(Step(s, Transfer))
  {
    var s' := Step(s, Transfer);
    forall i | 0 <= i < |s'.ring| ensures SlotOk(s', i) {
    }
    AfterNone(s'.ring, s'.last);
  }

  lemma {:induction false} ClearKeeps(s: Log)
    requires Inv(s)
    ensures Inv(Step(s, Clear))
  {
    AfterNone(Step(s, Clear).ring, s.last);
  }

  lemma {:induction false} StepKeeps(s: Log, a: Action)
    requires Inv(s)
    ensures Inv(Step(s, a)) && |Step(s, a).ring| == |s.ring|
  {
    match a
    case Event(ioa, data) => EventKeeps(s, ioa, data);
    case Other =>
      forall i | 0 <= i < |s.ring| ensures SlotOk(Step(s, a), i) { assert SlotOk(s, i); }
    case Transfer => TransferKeeps(s);
    case Clear => ClearKeeps(s);
  }

  // ---- runs -------------------------------------------------------------------------------------

  lemma {:induction false} InitKeeps(capacity: nat)
    requires capacity > 0
    ensures Inv(Init(capacity))
  {
    AfterNone(Init(capacity).ring, 0);
  }

  /** `Inv`, with a counter so that runs carry it as one fact. */
  ghost predicate Holds(d: nat, s: Log) {
    if d > 0 then Holds(d - 1, s) else Inv(s)
  }

  lemma {:induction false} HoldsMeans(d: nat, s: Log)
    ensures Holds(d, s) <==> Inv(s)
  {
    if d > 0 {
      HoldsMeans(d - 1, s);
    }
  }

  lemma {:induction false} HoldsNext(d: nat, s: Log, a: Action)
    requires Holds(d, s)
    ensures s.next < |s.ring|
    ensures var r := Step(s, a); Holds(d + 1, r) && r.next < |r.ring| == |s.ring|
  {
    HoldsMeans(d, s);
    StepKeeps(s, a);
    HoldsMeans(d + 1, Step(s, a));
  }

  ghost function Run(capacity: nat, acts: seq<Action>): (r: Log)
    requires capacity > 0
    ensures Holds(|acts| + 3, r) && r.next < |r.ring| == capacity
    decreases |acts|
  {
    if acts == [] then
      InitKeeps(capacity);
      HoldsMeans(3, Init(capacity));
      Init(capacity)
    else
      var s := Run(capacity, acts[..|acts| - 1]);
      HoldsNext(|acts| + 2, s, acts[|acts| - 1]);
      Step(s, acts[|acts| - 1])
  }

  /** In every run the ring holds the recent events and every event is accounted for. */
  lemma {:induction false} RunInv(capacity: nat, acts: seq<Action>)
    requires capacity > 0
    ensures Inv(Run(capacity, acts))
  {
    HoldsMeans(|acts| + 3, Run(capacity, acts));
  }

  /** The events put since the last transfer or clear. */
  function Outstanding(acts: seq<Action>): nat {
    if acts == [] then 0
    else
      match acts[|acts| - 1]
      case Event(_, _) => Outstanding(acts[..|acts| - 1]) + 1
      case Other => Outstanding(acts[..|acts| - 1])
      case _ => 0
  }

  /** Never more events between transfers than the ring holds, and no clear after any. */
  predicate Careful(capacity: nat, acts: seq<Action>) {
    if acts == [] then true
    else
      var front := acts[..|acts| - 1];
      && Careful(capacity, front)
      && (acts[|acts| - 1].Event? ==> Outstanding(front) < capacity)
      && (acts[|acts| - 1].Clear? ==> Outstanding(front) == 0)
  }

  lemma {:induction false} StepLost(s: Log, a: Action)
    requires RingOk(s)
    ensures var r := Step(s, a);
            && |r.since| == (if a.Event? then |s.since| + 1 else if a.Other? then |s.since| else 0)
            && (r.lost == [] <==> s.lost == [] && (a.Event? ==> |s.since| < |s.ring|)
                                  && (a.Clear? ==> |s.since| == 0))
  {
    EventLoses(s);
    WaitingBag(s);
    assert |Waiting(s)| == |multiset(Waiting(s))| == |multiset(Recent(s.since, |s.ring|))|;
  }

  /** An event is lost, overwritten or cleared while it waits, exactly in the careless runs. */
  lemma {:induction false} LostIffCareless(capacity: nat, acts: seq<Action>)
    requires capacity > 0
    ensures |Run(capacity, acts).since| == Outstanding(acts)
    ensures Run(capacity, acts).lost == [] <==> Careful(capacity, acts)
    decreases |acts|
  {
    if acts != [] {
      var front, a := acts[..|acts| - 1], acts[|acts| - 1];
      var s := Run(capacity, front);
      LostIffCareless(capacity, front);
      RunInv(capacity, front);
      StepLost(s, a);
      assert Run(capacity, acts) == Step(s, a);
    }
  }

  lemma {:induction false} NoneLost(s: Log)
    requires Conserves(s)
    ensures multiset(s.puts) == multiset(s.delivered) + multiset(Waiting(s)) <==> s.lost == []
  {
    if s.lost != [] {
      assert s.lost[0] in multiset(s.lost);
    }
  }

  /** Exactly once: over every run, the events delivered and those that wait in the ring are
      the events put, no more and no fewer, if and only if the run is careful. */
  lemma {:induction false} ExactlyOnce(capacity: nat, acts: seq<Action>)
    requires capacity > 0
    ensures var s := Run(capacity, acts);
            multiset(s.puts) == multiset(s.delivered) + multiset(Waiting(s)) <==> Careful(capacity, acts)
  {
    LostIffCareless(capacity, acts);
    RunInv(capacity, acts);
    NoneLost(Run(capacity, acts));
  }

  lemma {:induction false} RunMore(capacity: nat, acts: seq<Action>, a: Action)
    requires capacity > 0
    ensures Run(capacity, acts + [a]) == Step(Run(capacity, acts), a)
  {
    assert (acts + [a])[..|acts|] == acts;
  }

  /** A ring of one slot and two events: the first is gone for good. */
  lemma {:induction false} OverwrittenIsLost(a: SoeData, b: SoeData)
    ensures Run(1, [Event(1, a)] + [Event(2, b)]).lost == [Pending(1, a, 1)]
  {
    RunMore(1, [], Event(1, a));
    assert [] + [Event(1, a)] == [Event(1, a)];
    RunMore(1, [Event(1, a)], Event(2, b));
    AfterNone([Empty], 0);
    AfterAll([Pending(1, a, 1)], 0);
  }

  // ---- order --------------------------------------------------------------------------------------

  /** Events in the order of their puts. */
  ghost predicate InOrder(events: seq<Event>) {
    forall i, j :: 0 <= i < j < |events| ==>
      events[i].Pending? && events[j].Pending? && events[i].version < events[j].version
  }

  /** The events put since the last clear; the write position is this modulo the capacity. */
  function Written(acts: seq<Action>): nat {
    if acts == [] then 0
    else
      match acts[|acts| - 1]
      case Event(_, _) => Written(acts[..|acts| - 1]) + 1
      case Clear => 0
      case _ => Written(acts[..|acts| - 1])
  }

  /** The waiting events do not go round the end of the ring. */
  predicate Unbroken(capacity: nat, acts: seq<Action>)
    requires capacity > 0
  {
    var next := Written(acts) % capacity;
    next == 0 || Outstanding(acts) <= next
  }

  /** Every transfer found them so. */
  predicate Orderly(capacity: nat, acts: seq<Action>)
    requires capacity > 0
  {
    acts == [] ||
    var front := acts[..|acts| - 1];
    Orderly(capacity, front) && (acts[|acts| - 1].Transfer? ==> Unbroken(capacity, front))
  }

  /** What a transfer delivered is no newer than it, and what came since is in order. */
  ghost predicate Aged(s: Log) {
    && InOrder(s.since)
    && forall i :: 0 <= i < |s.delivered| ==> s.delivered[i].Pending? && s.delivered[i].version <= s.last
  }

  lemma {:induction false} AfterNewer(ring: seq<Event>, last: nat)
    ensures forall i :: 0 <= i < |After(ring, last)| ==> Newer(After(ring, last)[i], last)
  {
    forall i | 0 <= i < |After(ring, last)| ensures Newer(After(ring, last)[i], last) {
      AfterMember(ring, last, After(ring, last)[i]);
    }
  }

  lemma {:induction false} WaitingBounded(s: Log)
    requires RingOk(s)
    ensures forall i :: 0 <= i < |Waiting(s)| ==> Newer(Waiting(s)[i], s.last) && Waiting(s)[i].version <= s.version
  {
    AfterNewer(s.ring, s.last);
    forall i | 0 <= i < |Waiting(s)| ensures Waiting(s)[i].version <= s.version {
      AfterMember(s.ring, s.last, Waiting(s)[i]);
    }
  }

  lemma {:induction false} StepAged(s: Log, a: Action)
    requires RingOk(s) && Aged(s)
    ensures Aged(Step(s, a))
  {
    WaitingBounded(s);
  }

  lemma {:induction false} Multiples(x: int, capacity: nat)
    requires x > 0
    ensures x * capacity >= capacity
  {
  }

  lemma {:induction false} NoMultiple(x: int, capacity: nat, r: nat, m: nat)
    requires r < capacity && m < capacity && x * capacity == r - m
    ensures x == 0
  {
    if x > 0 {
      Multiples(x, capacity);
    } else if x < 0 {
      Multiples(-x, capacity);
    }
  }

  lemma {:induction false} Remainder(n: nat, q: nat, r: nat, capacity: nat)
    requires r < capacity && n == q * capacity + r
    ensures n % capacity == r
  {
    var d, m := n / capacity, n % capacity;
    assert n == d * capacity + m;
    assert (d - q) * capacity == d * capacity - q * capacity;
    NoMultiple(d - q, capacity, r, m);
  }

  lemma {:induction false} NextWraps(n: nat, capacity: nat)
    requires capacity > 0
    ensures (n % capacity + 1) % capacity == (n + 1) % capacity
  {
    var q, next := n / capacity, n % capacity;
    NextMod(next, capacity);
    if next + 1 == capacity {
      assert n + 1 == (q + 1) * capacity + 0;
      Remainder(n + 1, q + 1, 0, capacity);
    } else {
      Remainder(n + 1, q, next + 1, capacity);
    }
  }

  lemma {:induction false} StepNext(s: Log, a: Action, n: nat)
    requires s.next < |s.ring| && s.next == n % |s.ring|
    ensures Step(s, a).next == (if a.Event? then n + 1 else if a.Clear? then 0 else n) % |s.ring|
  {
    NextWraps(n, |s.ring|);
  }

  lemma {:induction false} RunNext(capacity: nat, acts: seq<Action>)
    requires capacity > 0
    ensures Run(capacity, acts).next == Written(acts) % capacity
    decreases |acts|
  {
    if acts != [] {
      var front := acts[..|acts| - 1];
      RunNext(capacity, front);
      StepNext(Run(capacity, front), acts[|acts| - 1], Written(front));
    }
  }

  lemma {:induction false} RunAged(capacity: nat, acts: seq<Action>)
    requires capacity > 0
    ensures Aged(Run(capacity, acts))
    decreases |acts|
  {
    if acts != [] {
      var front := acts[..|acts| - 1];
      RunAged(capacity, front);
      RunInv(capacity, front);
      StepAged(Run(capacity, front), acts[|acts| - 1]);
    }
  }

  /** Turned by some of its events, a list in order is not, unless all or none of them go. */
  lemma {:induction false} TurnedIff(recent: seq<Event>, next: nat)
    requires InOrder(recent) && next < |recent|
    ensures InOrder(recent[|recent| - next..] + recent[..|recent| - next]) <==> next == 0
  {
    var turned := recent[|recent| - next..] + recent[..|recent| - next];
    if next == 0 {
      assert turned == recent;
    } else {
      assert turned[0] == recent[|recent| - next] && turned[next] == recent[0];
    }
  }

  /** What waits is in order exactly when it does not go round the end of the ring. */
  lemma {:induction false} WaitingInOrder(s: Log)
    requires RingOk(s) && Aged(s)
    ensures InOrder(Waiting(s)) <==> s.next == 0 || |s.since| <= s.next
  {
    var recent := Recent(s.since, |s.ring|);
    TransferTakes(s);
    assert InOrder(recent);
    if |recent| > s.next {
      TurnedIff(recent, s.next);
    }
  }

  /** Over every run: the events that wait come out in the order of their puts if and only if
      the write position is at the start of the ring or as far from it as events came since
      the last transfer. */
  lemma {:induction false} InOrderIff(capacity: nat, acts: seq<Action>)
    requires capacity > 0
    ensures InOrder(Waiting(Run(capacity, acts))) <==> Unbroken(capacity, acts)
  {
    RunAged(capacity, acts);
    RunNext(capacity, acts);
    LostIffCareless(capacity, acts);
    RunInv(capacity, acts);
    WaitingInOrder(Run(capacity, acts));
  }

  lemma {:induction false} OrderSplit(a: seq<Event>, b: seq<Event>, last: nat)
    requires forall i :: 0 <= i < |a| ==> a[i].Pending? && a[i].version <= last
    requires forall i :: 0 <= i < |b| ==> Newer(b[i], last)
    ensures InOrder(a + b) <==> InOrder(a) && InOrder(b)
  {
    if InOrder(a + b) {
      forall i, j | 0 <= i < j < |a| ensures a[i].version < a[j].version {
        assert (a + b)[i] == a[i] && (a + b)[j] == a[j];
      }
      forall i, j | 0 <= i < j < |b| ensures b[i].version < b[j].version {
        assert (a + b)[|a| + i] == b[i] && (a + b)[|a| + j] == b[j];
      }
    }
  }

  lemma {:induction false} TransferInOrder(s: Log)
    requires RingOk(s) && Aged(s)
    ensures InOrder(s.delivered + Waiting(s)) <==> InOrder(s.delivered) && InOrder(Waiting(s))
  {
    WaitingBounded(s);
    OrderSplit(s.delivered, Waiting(s), s.last);
  }

  lemma {:induction false} RunTransfer(capacity: nat, acts: seq<Action>)
    requires capacity > 0
    ensures var s := Run(capacity, acts);
            InOrder(s.delivered + Waiting(s)) <==> InOrder(s.delivered) && Unbroken(capacity, acts)
  {
    RunAged(capacity, acts);
    RunInv(capacity, acts);
    TransferInOrder(Run(capacity, acts));
    InOrderIff(capacity, acts);
  }

  /** The whole history is in the order of the puts if and only if no transfer came while
      the waiting events went round the end of the ring. */
  lemma {:induction false} DeliveredInOrderIff(capacity: nat, acts: seq<Action>)
    requires capacity > 0
    ensures InOrder(Run(capacity, acts).delivered) <==> Orderly(capacity, acts)
    decreases |acts|
  {
    if acts != [] {
      var front := acts[..|acts| - 1];
      DeliveredInOrderIff(capacity, front);
      RunTransfer(capacity, front);
    }
  }

  /** A ring of two slots, one event, a transfer, two events: the newer one comes first. */
  lemma {:induction false} NewerComesFirst(a: SoeData, b: SoeData, c: SoeData)
    ensures var s := Run(2, [Event(1, a)] + [Transfer] + [Event(2, b)] + [Event(3, c)]);
            Waiting(s) == [Pending(3, c, 3), Pending(2, b, 2)] && !InOrder(Waiting(s))
  {
    RunMore(2, [], Event(1, a));
    assert [] + [Event(1, a)] == [Event(1, a)];
    RunMore(2, [Event(1, a)], Transfer);
    RunMore(2, [Event(1, a)] + [Transfer], Event(2, b));
    RunMore(2, [Event(1, a)] + [Transfer] + [Event(2, b)], Event(3, c));
    var s := Run(2, [Event(1, a)] + [Transfer] + [Event(2, b)] + [Event(3, c)]);
    assert s.ring == [Pending(3, c, 3), Pending(2, b, 2)] && s.last == 1;
    AfterAll(s.ring, s.last);
    assert Waiting(s)[0].version > Waiting(s)[1].version;
  }
}
