/** The readers/writer lock of the point table, as interleaved steps of any number of
    threads over two semaphores and a plain reader counter.  The increments are split into a
    load and a store, so that the counter is safe only if the mutex protects it. */
module RwLock {

  /** Where a thread is.  The names give the statement it is about to execute. */
  datatype Pc =
    | Idle                      // outside; may ask for the read or the write lock
    | RWaitMutex | RLoad | RStore(tmp: int) | RTest | RWaitResource | RPostMutex
    | Reading                   // inside, as a reader
    | UWaitMutex | ULoad | UStore(tmp: int) | UTest | UPostResource | UPostMutex
    | WWaitResource
    | Writing                   // inside, as a writer
    | WPostResource

  datatype State = State(pcs: seq<Pc>, mutex: nat, resource: nat, readers: int)

  function Init(threads: nat): State {
    State(seq(threads, _ => Idle), 1, 1, 0)
  }

  /** Whether a thread at `pc` can take its step: only semaphore waits block. */
  predicate Enabled(s: State, pc: Pc) {
    match pc
    case RWaitMutex => s.mutex > 0
    case UWaitMutex => s.mutex > 0
    case RWaitResource => s.resource > 0
    case WWaitResource => s.resource > 0
    case _ => true
  }

  /** The next place of a thread and what its step does to the shared words. */
  function Move(s: State, pc: Pc, write: bool): (r: (Pc, int, int, int))
    requires Enabled(s, pc)
  {
    match pc
    case Idle => (if write then WWaitResource else RWaitMutex, s.mutex, s.resource, s.readers)
    case RWaitMutex => (RLoad, s.mutex - 1, s.resource, s.readers)
    case RLoad => (RStore(s.readers), s.mutex, s.resource, s.readers)
    case RStore(tmp) => (RTest, s.mutex, s.resource, tmp + 1)
    case RTest => (if s.readers == 1 then RWaitResource else RPostMutex, s.mutex, s.resource, s.readers)
    case RWaitResource => (RPostMutex, s.mutex, s.resource - 1, s.readers)
    case RPostMutex => (Reading, s.mutex + 1, s.resource, s.readers)
    case Reading => (UWaitMutex, s.mutex, s.resource, s.readers)
    case UWaitMutex => (ULoad, s.mutex - 1, s.resource, s.readers)
    case ULoad => (UStore(s.readers), s.mutex, s.resource, s.readers)
    case UStore(tmp) => (UTest, s.mutex, s.resource, tmp - 1)
    case UTest => (if s.readers == 0 then UPostResource else UPostMutex, s.mutex, s.resource, s.readers)
    case UPostResource => (UPostMutex, s.mutex, s.resource + 1, s.readers)
    case UPostMutex => (Idle, s.mutex + 1, s.resource, s.readers)
    case WWaitResource => (Writing, s.mutex, s.resource - 1, s.readers)
    case Writing => (WPostResource, s.mutex, s.resource, s.readers)
    case WPostResource => (Idle, s.mutex, s.resource + 1, s.readers)
  }

  /** Thread t is scheduled; `write` is what it asks for when idle. */
  function Next(s: State, t: nat, write: bool): State
    requires t < |s.pcs|
  {
    if !Enabled(s, s.pcs[t]) then s
    else
      var r := Move(s, s.pcs[t], write);
      State(s.pcs[t := r.0], r.1, r.2, r.3)
  }

  /** Any schedule. */
  function Run(s: State, schedule: seq<(nat, bool)>): (r: State)
    requires forall i :: 0 <= i < |schedule| ==> schedule[i].0 < |s.pcs|
    ensures |r.pcs| == |s.pcs|
  {
    if schedule == [] then s
    else
      var before := Run(s, schedule[..|schedule| - 1]);
      Next(before, schedule[|schedule| - 1].0, schedule[|schedule| - 1].1)
  }

  // ---- counting threads ---------------------------------------------------------------

  predicate InSection(pc: Pc) {
    pc.RLoad? || pc.RStore? || pc.RTest? || pc.RWaitResource? || pc.RPostMutex?
    || pc.ULoad? || pc.UStore? || pc.UTest? || pc.UPostResource? || pc.UPostMutex?
  }

  /** Between the store that adds one and the store that takes it away. */
  predicate Counted(pc: Pc) {
    pc.RTest? || pc.RWaitResource? || pc.RPostMutex? || pc.Reading? || pc.UWaitMutex? || pc.ULoad? || pc.UStore?
  }

  predicate Owns(pc: Pc) { pc.Writing? || pc.WPostResource? }

  ghost function Number(pcs: seq<Pc>, f: Pc -> bool): nat {
    if pcs == [] then 0 else Number(pcs[..|pcs| - 1], f) + if f(pcs[|pcs| - 1]) then 1 else 0
  }

  lemma {:induction false} NumberUpdate(pcs: seq<Pc>, t: nat, pc: Pc, f: Pc -> bool)
    requires t < |pcs|
    ensures Number(pcs[t := pc], f) + (if f(pcs[t]) then 1 else 0) == Number(pcs, f) + if f(pc) then 1 else 0
    decreases |pcs|
  {
    var last := |pcs| - 1;
    if t == last {
      assert pcs[t := pc][..last] == pcs[..last];
    } else {
      assert pcs[t := pc][..last] == pcs[..last][t := pc];
      NumberUpdate(pcs[..last], t, pc, f);
    }
  }

  lemma {:induction false} NumberOne(pcs: seq<Pc>, t: nat, f: Pc -> bool)
    requires t < |pcs| && f(pcs[t])
    ensures Number(pcs, f) >= 1
    decreases |pcs|
  {
    if t < |pcs| - 1 {
      NumberOne(pcs[..|pcs| - 1], t, f);
    }
  }

  lemma {:induction false} NumberTwo(pcs: seq<Pc>, t: nat, u: nat, f: Pc -> bool)
    requires t < u < |pcs| && f(pcs[t]) && f(pcs[u])
    ensures Number(pcs, f) >= 2
    decreases |pcs|
  {
    if u < |pcs| - 1 {
      NumberTwo(pcs[..|pcs| - 1], t, u, f);
    } else {
      NumberOne(pcs[..|pcs| - 1], t, f);
    }
  }

  lemma {:induction false} NumberSome(pcs: seq<Pc>, f: Pc -> bool) returns (t: nat)
    requires Number(pcs, f) > 0
    ensures t < |pcs| && f(pcs[t])
    decreases |pcs|
  {
    if f(pcs[|pcs| - 1]) {
      t := |pcs| - 1;
    } else {
      t := NumberSome(pcs[..|pcs| - 1], f);
    }
  }

  // ---- the invariant --------------------------------------------------------------------

  /** 1 when the readers as a group hold the resource semaphore. */
  ghost function Held(s: State): int { 1 - s.resource - Number(s.pcs, Owns) }

  /** What the thread inside the mutex section knows of the counter and the resource. */
  ghost predicate Knows(pc: Pc, readers: int, held: int) {
    match pc
    case RStore(tmp) => tmp == readers && held == (if readers > 0 then 1 else 0)
    case RTest => held == (if readers > 1 then 1 else 0)
    case RWaitResource => readers == 1 && held == 0
    case RPostMutex => held == 1
    case ULoad => held == 1
    case UStore(tmp) => tmp == readers && held == 1
    case UTest => held == 1
    case UPostResource => readers == 0 && held == 1
    case _ => held == (if readers > 0 then 1 else 0)
  }

  ghost predicate Inv(s: State) {
    && s.mutex + Number(s.pcs, InSection) == 1
    && s.readers == Number(s.pcs, Counted)
    && 0 <= Held(s) <= 1
    && (forall t :: 0 <= t < |s.pcs| && InSection(s.pcs[t]) ==> Knows(s.pcs[t], s.readers, Held(s)))
    && (s.mutex == 1 ==> Held(s) == if s.readers > 0 then 1 else 0)
  }

  lemma {:induction false} InitNumber(threads: nat, f: Pc -> bool)
    requires !f(Idle)
    ensures Number(Init(threads).pcs, f) == 0
    decreases threads
  {
    if threads > 0 {
      assert Init(threads).pcs[..threads - 1] == Init(threads - 1).pcs;
      InitNumber(threads - 1, f);
    }
  }

  lemma {:induction false} InitInv(threads: nat)
    ensures Inv(Init(threads))
  {
    InitNumber(threads, InSection);
    InitNumber(threads, Counted);
    InitNumber(threads, Owns);
  }

  /** At most one thread is inside the section. */
  lemma {:induction false} SectionAlone(s: State, t: nat, u: nat)
    requires s.mutex + Number(s.pcs, InSection) == 1
    requires t < |s.pcs| && u < |s.pcs| && InSection(s.pcs[t]) && InSection(s.pcs[u])
    ensures t == u && s.mutex == 0
  {
    NumberOne(s.pcs, t, InSection);
    if t < u {
      NumberTwo(s.pcs, t, u, InSection);
    } else if u < t {
      NumberTwo(s.pcs, u, t, InSection);
    }
  }

  /** How the three numbers move with one step. */
  lemma {:induction false} NextNumbers(s: State, t: nat, write: bool)
    requires t < |s.pcs| && Enabled(s, s.pcs[t])
    ensures var s' := Next(s, t, write);
            var pc, pc' := s.pcs[t], s'.pcs[t];
            && Number(s'.pcs, InSection) == Number(s.pcs, InSection) + Bit(InSection(pc')) - Bit(InSection(pc))
            && Number(s'.pcs, Counted) == Number(s.pcs, Counted) + Bit(Counted(pc')) - Bit(Counted(pc))
            && Number(s'.pcs, Owns) == Number(s.pcs, Owns) + Bit(Owns(pc')) - Bit(Owns(pc))
  {
    var pc' := Next(s, t, write).pcs[t];
    NumberUpdate(s.pcs, t, pc', InSection);
    NumberUpdate(s.pcs, t, pc', Counted);
    NumberUpdate(s.pcs, t, pc', Owns);
  }

  function Bit(b: bool): int { if b then 1 else 0 }

  /** The step of the scheduled thread, seen by that thread. */
  lemma {:induction false} StepKnows(s: State, t: nat, write: bool)
    requires Inv(s) && t < |s.pcs| && Enabled(s, s.pcs[t])
    ensures var s' := Next(s, t, write);
            && s'.mutex + Number(s'.pcs, InSection) == 1
            && s'.readers == Number(s'.pcs, Counted)
            && 0 <= Held(s') <= 1
            && (InSection(s'.pcs[t]) ==> Knows(s'.pcs[t], s'.readers, Held(s')))
            && (s'.mutex == 1 ==> Held(s') == if s'.readers > 0 then 1 else 0)
            && (!InSection(s.pcs[t]) ==> s'.readers == s.readers && Held(s') == Held(s))
  {
    var pc := s.pcs[t];
    NextNumbers(s, t, write);
    if InSection(pc) {
      SectionAlone(s, t, t);
    }
    if Counted(pc) {
      NumberOne(s.pcs, t, Counted);
    }
  }

  lemma {:induction false} NextInv(s: State, t: nat, write: bool)
    requires Inv(s) && t < |s.pcs|
    ensures Inv(Next(s, t, write))
  {
    var pc := s.pcs[t];
    if Enabled(s, pc) {
      var s' := Next(s, t, write);
      StepKnows(s, t, write);
      forall u | 0 <= u < |s'.pcs| && InSection(s'.pcs[u]) ensures Knows(s'.pcs[u], s'.readers, Held(s')) {
        if u != t && InSection(pc) {
          SectionAlone(s, t, u);
        }
      }
    }
  }

  // ---- the theorems -------------------------------------------------------------------------

  /** Every reachable state is good. */
  lemma {:induction false} RunInv(threads: nat, schedule: seq<(nat, bool)>)
    requires forall i :: 0 <= i < |schedule| ==> schedule[i].0 < threads
    ensures Inv(Run(Init(threads), schedule))
    decreases |schedule|
  {
    if schedule == [] {
      InitInv(threads);
    } else {
      var front, last := schedule[..|schedule| - 1], schedule[|schedule| - 1];
      RunInv(threads, front);
      NextInv(Run(Init(threads), front), last.0, last.1);
    }
  }

  /** A thread that may use the table as a reader: it has the lock, or has only begun to
      give it back. */
  predicate Inside(pc: Pc) { pc.Reading? || pc.UWaitMutex? }

  /** While a writer is inside, nobody else is. */
  lemma {:induction false} Exclusion(s: State, t: nat, u: nat)
    requires Inv(s) && t < |s.pcs| && u < |s.pcs| && t != u && Owns(s.pcs[t])
    ensures !Owns(s.pcs[u]) && !Inside(s.pcs[u])
  {
    NumberOne(s.pcs, t, Owns);
    if Owns(s.pcs[u]) {
      if t < u { NumberTwo(s.pcs, t, u, Owns); } else { NumberTwo(s.pcs, u, t, Owns); }
    }
    if Inside(s.pcs[u]) {
      ReaderHolds(s, u);
    }
  }

  /** A reader inside means the readers hold the resource. */
  lemma {:induction false} ReaderHolds(s: State, u: nat)
    requires Inv(s) && u < |s.pcs| && Inside(s.pcs[u])
    ensures Held(s) == 1
  {
    NumberOne(s.pcs, u, Counted);
    if s.mutex == 0 {
      var v := NumberSome(s.pcs, InSection);
      if Counted(s.pcs[v]) {
        if u < v { NumberTwo(s.pcs, u, v, Counted); } else { NumberTwo(s.pcs, v, u, Counted); }
      }
    }
  }

  /** A reader that waits for the resource with the mutex in its hands keeps no reader out
      that is already in: there is none, and whoever has the resource is a writer. */
  lemma {:induction false} BlockedReaderAlone(s: State, t: nat, u: nat)
    requires Inv(s) && t < |s.pcs| && u < |s.pcs| && s.pcs[t].RWaitResource?
    ensures !Inside(s.pcs[u])
    ensures s.resource == 0 ==> Number(s.pcs, Owns) == 1
  {
    if Inside(s.pcs[u]) {
      ReaderHolds(s, u);
    }
  }

  /** Some thread that is not idle can always move. */
  lemma {:induction false} Progress(s: State, t: nat) returns (u: nat)
    requires Inv(s) && t < |s.pcs| && !s.pcs[t].Idle?
    ensures u < |s.pcs| && !s.pcs[u].Idle? && Enabled(s, s.pcs[u])
  {
    if s.mutex == 0 {
      u := NumberSome(s.pcs, InSection);
      if !Enabled(s, s.pcs[u]) {
        u := NumberSome(s.pcs, Owns);
      }
    } else if Enabled(s, s.pcs[t]) {
      u := t;
    } else if Number(s.pcs, Owns) > 0 {
      u := NumberSome(s.pcs, Owns);
    } else {
      u := NumberSome(s.pcs, Counted);
      if InSection(s.pcs[u]) {
        SectionAlone(s, u, u);
      }
    }
  }

  /** The steps a thread has left until it is idle again. */
  function Left(pc: Pc): nat {
    match pc
    case Idle => 0
    case RWaitMutex => 15 case RLoad => 14 case RStore(_) => 13 case RTest => 12
    case RWaitResource => 11 case RPostMutex => 10 case Reading => 9
    case UWaitMutex => 8 case ULoad => 7 case UStore(_) => 6 case UTest => 5
    case UPostResource => 4 case UPostMutex => 3
    case WWaitResource => 3 case Writing => 2 case WPostResource => 1
  }

  ghost function TotalLeft(pcs: seq<Pc>): nat {
    if pcs == [] then 0 else TotalLeft(pcs[..|pcs| - 1]) + Left(pcs[|pcs| - 1])
  }

  lemma {:induction false} TotalLeftUpdate(pcs: seq<Pc>, t: nat, pc: Pc)
    requires t < |pcs|
    ensures TotalLeft(pcs[t := pc]) + Left(pcs[t]) == TotalLeft(pcs) + Left(pc)
    decreases |pcs|
  {
    var last := |pcs| - 1;
    if t == last {
      assert pcs[t := pc][..last] == pcs[..last];
    } else {
      assert pcs[t := pc][..last] == pcs[..last][t := pc];
      TotalLeftUpdate(pcs[..last], t, pc);
    }
  }

  /** Every step of a thread that is not idle brings the whole system closer to rest. */
  lemma {:induction false} StepLeft(s: State, t: nat, write: bool)
    requires t < |s.pcs| && !s.pcs[t].Idle? && Enabled(s, s.pcs[t])
    ensures TotalLeft(Next(s, t, write).pcs) < TotalLeft(s.pcs)
  {
    TotalLeftUpdate(s.pcs, t, Next(s, t, write).pcs[t]);
  }

  /** From every good state the requests under way can all be finished, by always running
      some thread that can move; then the lock is as it was created. */
  lemma {:induction false} Drains(s: State) returns (schedule: seq<(nat, bool)>)
    requires Inv(s)
    ensures forall i :: 0 <= i < |schedule| ==> schedule[i].0 < |s.pcs|
    ensures Run(s, schedule) == Init(|s.pcs|)
    decreases TotalLeft(s.pcs)
  {
    if t: nat :| t < |s.pcs| && !s.pcs[t].Idle? {
      var u := Progress(s, t);
      StepLeft(s, u, false);
      NextInv(s, u, false);
      var rest := Drains(Next(s, u, false));
      schedule := [(u, false)] + rest;
      RunFirst(s, (u, false), rest);
    } else {
      schedule := [];
      assert s.pcs == Init(|s.pcs|).pcs;
      InitNumber(|s.pcs|, InSection);
      InitNumber(|s.pcs|, Counted);
      InitNumber(|s.pcs|, Owns);
    }
  }

  lemma {:induction false} RunFirst(s: State, first: (nat, bool), rest: seq<(nat, bool)>)
    requires first.0 < |s.pcs| && forall i :: 0 <= i < |rest| ==> rest[i].0 < |s.pcs|
    ensures Run(s, [first] + rest) == Run(Next(s, first.0, first.1), rest)
    decreases |rest|
  {
    var whole := [first] + rest;
    if rest == [] {
      assert whole[..|whole| - 1] == [] && Run(s, []) == s;
    } else {
      assert whole[..|whole| - 1] == [first] + rest[..|rest| - 1];
      RunFirst(s, first, rest[..|rest| - 1]);
    }
  }

  /** The lock over whole runs: a writer is alone, and the system never gets stuck. */
  lemma {:induction false} RunSafe(threads: nat, schedule: seq<(nat, bool)>)
    requires forall i :: 0 <= i < |schedule| ==> schedule[i].0 < threads
    ensures var s := Run(Init(threads), schedule);
            && (forall t, u :: 0 <= t < threads && 0 <= u < threads && t != u && Owns(s.pcs[t]) ==>
                  !Owns(s.pcs[u]) && !Inside(s.pcs[u]))
            && ((exists t :: 0 <= t < threads && !s.pcs[t].Idle?) ==>
                  exists t :: 0 <= t < threads && !s.pcs[t].Idle? && Enabled(s, s.pcs[t]))
  {
    var s := Run(Init(threads), schedule);
    RunInv(threads, schedule);
    forall t, u | 0 <= t < threads && 0 <= u < threads && t != u && Owns(s.pcs[t])
      ensures !Owns(s.pcs[u]) && !Inside(s.pcs[u])
    {
      Exclusion(s, t, u);
    }
    if t: nat :| t < threads && !s.pcs[t].Idle? {
      var u := Progress(s, t);
    }
  }
}
