/** The client worker: threads that post messages, close and rebind the connection, and one
    worker that waits on a counting semaphore.  What runs under the queue lock is one step;
    the semaphore post that follows it is another. */
module WorkerProtocol {
  import opened WorkQueue

  /** Free, or between the locked part of a call and its Semaphore_post(queue_items). */
  datatype Poster = Free | Posting

  /** Check: at the loop test.  Wait: at Semaphore_wait(queue_items).  Token: past it, before
      the locked pop.  Handle: with a message in hand. */
  datatype Worker = Check | Wait | Token | Handle(msg: Msg) | Done

  datatype Logs = Logs(accepted: seq<Msg>, delivered: seq<Msg>, discarded: seq<Msg>)

  datatype State = State(capacity: nat, items: seq<Msg>, sem: nat, posters: seq<Poster>,
                         worker: Worker, running: bool, logs: Logs)

  datatype Action =
    | Post(t: nat, msg: Msg, high: bool)   // client_context_post, locked part
    | Close(t: nat)                        // client_context_close_connection, locked part
    | Bind                                 // client_context_bind_connection
    | Stop(t: nat)                         // client_context_stop, before its post
    | Signal(t: nat)                       // Semaphore_post(queue_items)
    | Work                                 // one step of the worker

  function Init(capacity: nat, threads: nat): State {
    State(capacity, [], 0, seq(threads, _ => Free), Check, true, Logs([], [], []))
  }

  predicate Ready(s: State, t: nat, p: Poster) { t < |s.posters| && s.posters[t] == p }

  /** The message that an accepted one replaces. */
  function Replaced(items: seq<Msg>, capacity: nat): seq<Msg> {
    if |items| < capacity || FirstUpload(items) < 0 then [] else [items[FirstUpload(items)]]
  }

  function DoPost(s: State, t: nat, msg: Msg, high: bool): State
    requires |s.items| <= s.capacity
  {
    if !Ready(s, t, Free) || !Accepts(s.items, s.capacity, msg) then s
    else s.(items := Pushed(s.items, s.capacity, msg, high), posters := s.posters[t := Posting],
            logs := s.logs.(accepted := s.logs.accepted + [msg],
                            discarded := s.logs.discarded + Replaced(s.items, s.capacity)))
  }

  function Emptied(s: State): State {
    s.(items := [], logs := s.logs.(discarded := s.logs.discarded + s.items))
  }

  function DoWork(s: State): State {
    match s.worker
    case Check => s.(worker := if s.running then Wait else Done)
    case Wait => if s.sem == 0 then s else s.(sem := s.sem - 1, worker := Token)
    case Token =>
      if s.items == [] then s.(worker := Check)
      else s.(items := s.items[1..], worker := Handle(s.items[0]),
              logs := s.logs.(delivered := s.logs.delivered + [s.items[0]]))
    case Handle(_) => s.(worker := Check)
    case Done => s
  }

  function Step(s: State, a: Action): State
    requires |s.items| <= s.capacity
  {
    match a
    case Post(t, msg, high) => DoPost(s, t, msg, high)
    case Close(t) => if Ready(s, t, Free) then Emptied(s).(posters := s.posters[t := Posting]) else s
    case Bind => Emptied(s)
    case Stop(t) => if Ready(s, t, Free) then s.(running := false, posters := s.posters[t := Posting]) else s
    case Signal(t) => if Ready(s, t, Posting) then s.(sem := s.sem + 1, posters := s.posters[t := Free]) else s
    case Work => DoWork(s)
  }

  // ---- the invariant ------------------------------------------------------------------------

  ghost function Pending(posters: seq<Poster>): nat {
    if posters == [] then 0
    else Pending(posters[..|posters| - 1]) + if posters[|posters| - 1].Posting? then 1 else 0
  }

  ghost function TokenOf(w: Worker): nat { if w.Token? then 1 else 0 }

  /** No message is lost or made up: what was accepted has been delivered, is in the queue,
      or was discarded by a reset or by coalescing. */
  ghost predicate Conserves(s: State) {
    multiset(s.logs.accepted) == multiset(s.logs.delivered) + multiset(s.items) + multiset(s.logs.discarded)
  }

  ghost predicate Inv(s: State) {
    && |s.items| <= s.capacity
    && s.sem + Pending(s.posters) + TokenOf(s.worker) >= |s.items|
    && Conserves(s)
  }

  lemma {:induction false} PendingUpdate(posters: seq<Poster>, t: nat, p: Poster)
    requires t < |posters|
    ensures Pending(posters[t := p]) + (if posters[t].Posting? then 1 else 0)
         == Pending(posters) + if p.Posting? then 1 else 0
    decreases |posters|
  {
    var last := |posters| - 1;
    if t == last {
      assert posters[t := p][..last] == posters[..last];
    } else {
      assert posters[t := p][..last] == posters[..last][t := p];
      PendingUpdate(posters[..last], t, p);
    }
  }

  lemma {:induction false} PendingSome(posters: seq<Poster>) returns (t: nat)
    requires Pending(posters) > 0
    ensures t < |posters| && posters[t].Posting?
    decreases |posters|
  {
    if posters[|posters| - 1].Posting? {
      t := |posters| - 1;
    } else {
      t := PendingSome(posters[..|posters| - 1]);
    }
  }

  lemma {:induction false} InitPending(capacity: nat, threads: nat)
    ensures Pending(Init(capacity, threads).posters) == 0
    decreases threads
  {
    if threads > 0 {
      var posters := Init(capacity, threads).posters;
      assert posters[..threads - 1] == Init(capacity, threads - 1).posters;
      InitPending(capacity, threads - 1);
    }
  }

  /** A push adds the message and, when the queue was full, takes one upload notification. */
  lemma {:induction false} PushedBag(items: seq<Msg>, capacity: nat, msg: Msg, high: bool)
    requires |items| <= capacity && Accepts(items, capacity, msg)
    ensures multiset(Pushed(items, capacity, msg, high)) + multiset(Replaced(items, capacity))
         == multiset(items) + multiset{msg}
    ensures |Pushed(items, capacity, msg, high)| <= |items| + 1
  {
  }

  lemma {:induction false} PostInv(s: State, t: nat, msg: Msg, high: bool)
    requires Inv(s)
    ensures Inv(DoPost(s, t, msg, high))
  {
    if Ready(s, t, Free) && Accepts(s.items, s.capacity, msg) {
      PendingUpdate(s.posters, t, Posting);
      PushedBag(s.items, s.capacity, msg, high);
    }
  }

  lemma {:induction false} WorkInv(s: State)
    requires Inv(s)
    ensures Inv(DoWork(s))
  {
    if s.worker.Token? && s.items != [] {
      assert s.items == [s.items[0]] + s.items[1..];
    }
  }

  lemma {:induction false} StepInv(s: State, a: Action)
    requires Inv(s)
    ensures Inv(Step(s, a))
  {
    match a
    case Post(t, msg, high) => PostInv(s, t, msg, high);
    case Close(t) => if Ready(s, t, Free) { PendingUpdate(s.posters, t, Posting); }
    case Bind =>
    case Stop(t) => if Ready(s, t, Free) { PendingUpdate(s.posters, t, Posting); }
    case Signal(t) => if Ready(s, t, Posting) { PendingUpdate(s.posters, t, Free); }
    case Work => WorkInv(s);
  }

  // ---- runs -----------------------------------------------------------------------------------

  ghost function Run(s: State, acts: seq<Action>): (r: State)
    requires Inv(s)
    ensures Inv(r)
    decreases |acts|
  {
    if acts == [] then s
    else
      StepInv(s, acts[0]);
      Run(Step(s, acts[0]), acts[1..])
  }

  /** After any run: a worker asleep with no post under way has nothing to do. */
  lemma {:induction false} NoLostWakeup(capacity: nat, threads: nat, acts: seq<Action>)
    ensures Inv(Init(capacity, threads))
    ensures var s := Run(Init(capacity, threads), acts);
            s.worker.Wait? && s.sem == 0 && Pending(s.posters) == 0 ==> s.items == []
  {
    InitPending(capacity, threads);
  }

  predicate Quiet(acts: seq<Action>) {
    forall i :: 0 <= i < |acts| ==> acts[i].Signal? || acts[i].Work?
  }

  ghost function Effort(s: State): nat {
    5 * Pending(s.posters) + 4 * s.sem +
    match s.worker
    case Check => 1
    case Wait => 0
    case Token => 3
    case Handle(_) => 2
    case Done => 0
  }

  /** From any reachable state of a running worker, finishing the posts under way and letting
      the worker run delivers the whole queue, in queue order. */
  lemma {:induction false} Drains(s: State) returns (acts: seq<Action>)
    requires Inv(s) && s.running && !s.worker.Done?
    ensures Quiet(acts)
    ensures Run(s, acts).items == [] && Run(s, acts).logs.delivered == s.logs.delivered + s.items
    decreases Effort(s)
  {
    if Pending(s.posters) == 0 && s.worker.Wait? && s.sem == 0 {
      return [];
    }
    var a := QuietStep(s);
    var rest := Drains(Step(s, a));
    acts := [a] + rest;
    assert acts[1..] == rest;
  }

  lemma {:induction false} QuietStep(s: State) returns (a: Action)
    requires Inv(s) && s.running && !s.worker.Done?
    requires !(Pending(s.posters) == 0 && s.worker.Wait? && s.sem == 0)
    ensures a.Signal? || a.Work?
    ensures var r := Step(s, a);
            && Inv(r) && r.running && !r.worker.Done? && Effort(r) < Effort(s)
            && r.logs.delivered + r.items == s.logs.delivered + s.items
  {
    a := Work;
    if Pending(s.posters) > 0 {
      var t := PendingSome(s.posters);
      a := Signal(t);
      PendingUpdate(s.posters, t, Free);
    }
    assert Inv(Step(s, a)) by { StepInv(s, a); }
    assert Step(s, a).logs.delivered + Step(s, a).items == s.logs.delivered + s.items by { StepQueue(s, a); }
    assert Step(s, a).running && !Step(s, a).worker.Done? && Effort(Step(s, a)) < Effort(s);
  }

  /** A quiet step moves at most the first message, from the queue to the delivered ones. */
  lemma {:induction false} StepQueue(s: State, a: Action)
    requires Inv(s) && (a.Signal? || a.Work?)
    ensures var r := Step(s, a); r.logs.delivered + r.items == s.logs.delivered + s.items
  {
    if a.Work? && s.worker.Token? && s.items != [] {
      assert s.items == [s.items[0]] + s.items[1..];
    }
  }
}
