/** Delta replication of the upload area to connected masters.  The area is the map of its
    pending entries; every client remembers the version it was last brought up to.  A send
    takes a snapshot, hands its entries over one by one and then moves the client's version
    forward; puts, clears, closes and reconnects may come between any two of these steps. */
module Replication {

  type Area<K, D> = map<K, (D, nat)>

  /** A send under way: its head, which reads the handle of the connection, then whether the
      client is active, then whether the notification is newer than the client; and the send
      proper, with what is still to be handed over and the version of the snapshot.  `stale`
      says that the connection of the handle has been closed or replaced since. */
  datatype Job<K, D> =
    | NoJob
    | Entered(stale: bool)
    | Active(stale: bool)
    | Due(stale: bool)
    | Job(rest: map<K, D>, version: nat, stale: bool)

  /** `view` is what the master on the present connection received last for each key;
      `tainted` records that a send begun on an earlier connection ended on this one while
      an entry as old as its snapshot was still pending. */
  datatype Client<K, D> = Client(connected: bool, last: nat, view: map<K, D>, job: Job<K, D>, tainted: bool)

  datatype World<K, D> = World(area: Area<K, D>, version: nat, clients: seq<Client<K, D>>)

  datatype Action<K, D> =
    | Put(key: K, data: D)
    | Clear
    | Tick
    | Bind(c: nat)
    | Close(c: nat)
    | Enter(c: nat)
    | SeeActive(c: nat)
    | SeeDue(c: nat, notified: nat)
    | Snap(c: nat)
    | Deliver(c: nat, key: K)
    | Finish(c: nat)

  // ---- the steps ------------------------------------------------------------------------

  function Newer<K, D>(area: Area<K, D>, after: nat): map<K, D> {
    map k | k in area && area[k].1 > after :: area[k].0
  }

  function Detached<K, D>(job: Job<K, D>): Job<K, D> {
    if job.NoJob? then job else job.(stale := true)
  }

  function Fresh<K, D>(cl: Client<K, D>, connected: bool): Client<K, D> {
    Client(connected, 0, map[], Detached(cl.job), false)
  }

  /** The head of send_active_upload, in four steps that share no lock. */
  function Headed<K, D>(cl: Client<K, D>, w: World<K, D>, a: Action<K, D>): Client<K, D> {
    match a
    case Enter(_) => if cl.job.NoJob? then cl.(job := Entered(false)) else cl
    case SeeActive(_) =>
      if !cl.job.Entered? then cl
      else cl.(job := if cl.connected then Active(cl.job.stale) else NoJob)
    case SeeDue(_, notified) =>
      if !cl.job.Active? then cl
      else cl.(job := if notified == 0 || notified > cl.last then Due(cl.job.stale) else NoJob)
    case Snap(_) =>
      if !cl.job.Due? then cl
      else cl.(job := Job(Newer(w.area, cl.last), w.version, cl.job.stale))
    case _ => cl
  }

  /** One entry goes out; on the handle the send began with. */
  function Handed<K, D>(cl: Client<K, D>, k: K): Client<K, D> {
    if !cl.connected || !cl.job.Job? || k !in cl.job.rest then cl
    else
      var job := cl.job.(rest := cl.job.rest - {k});
      if job.stale then cl.(job := job) else cl.(job := job, view := cl.view[k := cl.job.rest[k]])
  }

  /** An entry no newer than version n is pending. */
  predicate Holds<K, D>(area: Area<K, D>, n: nat) { exists k :: k in area && area[k].1 <= n }

  /** The end of send_active_upload: the version moves even when the loops ended early. */
  function Finished<K(==), D(==)>(cl: Client<K, D>, area: Area<K, D>): Client<K, D> {
    if !cl.job.Job? || (cl.connected && !cl.job.stale && cl.job.rest != map[]) then cl
    else cl.(last := cl.job.version, job := NoJob,
             tainted := cl.tainted || (cl.connected && cl.job.stale && Holds(area, cl.job.version)))
  }

  function Stepped<K(==), D(==)>(cl: Client<K, D>, w: World<K, D>, a: Action<K, D>): Client<K, D> {
    match a
    case Bind(_) => Fresh(cl, true)
    case Close(_) => Fresh(cl, false)
    case Deliver(_, k) => Handed(cl, k)
    case Finish(_) => Finished(cl, w.area)
    case _ => Headed(cl, w, a)
  }

  /** A step of the area, not of a client. */
  predicate Shared<K, D>(a: Action<K, D>) { a.Put? || a.Clear? || a.Tick? }

  function Step<K(==), D(==)>(w: World<K, D>, a: Action<K, D>): World<K, D> {
    match a
    case Put(k, d) => w.(area := w.area[k := (d, w.version + 1)], version := w.version + 1)
    case Clear => w.(area := map[], version := w.version + 1)
    case Tick => w.(version := w.version + 1)
    case _ =>
      if a.c < |w.clients| then w.(clients := w.clients[a.c := Stepped(w.clients[a.c], w, a)]) else w
  }

  function Init<K, D>(clients: nat): World<K, D> {
    World(map[], 0, seq(clients, _ => Client(false, 0, map[], NoJob, false)))
  }

  function Run<K(==), D(==)>(w: World<K, D>, acts: seq<Action<K, D>>): (r: World<K, D>)
    ensures |r.clients| == |w.clients|
  {
    if acts == [] then w else Step(Run(w, acts[..|acts| - 1]), acts[|acts| - 1])
  }

  // ---- the invariant --------------------------------------------------------------------

  ghost predicate AreaOk<K(!new), D>(area: Area<K, D>, version: nat) {
    && (forall k :: k in area ==> 1 <= area[k].1 <= version)
    && (forall k, l :: k in area && l in area && k != l ==> area[k].1 != area[l].1)
  }

  /** Every entry up to version n is what the master has. */
  ghost predicate Seen<K(!new), D>(area: Area<K, D>, view: map<K, D>, n: nat) {
    forall k :: k in area && area[k].1 <= n ==> k in view && view[k] == area[k].0
  }

  /** While a send is under way: entries up to the snapshot are in the view or still to come,
      and what is still to come is newer than the client. */
  ghost predicate JobOk<K(!new), D>(area: Area<K, D>, view: map<K, D>, job: Job<K, D>, last: nat)
    requires job.Job?
  {
    && last <= job.version
    && (forall k :: k in area && area[k].1 <= last ==> k !in job.rest)
    && (forall k :: k in area && area[k].1 <= job.version && k in job.rest ==> job.rest[k] == area[k].0)
    && (forall k :: k in area && area[k].1 <= job.version && k !in job.rest ==> k in view && view[k] == area[k].0)
  }

  ghost predicate ClientOk<K(!new), D>(area: Area<K, D>, version: nat, cl: Client<K, D>) {
    && cl.last <= version && (cl.job.Job? ==> cl.job.version <= version)
    && (cl.connected && !cl.tainted ==>
          if !cl.job.NoJob? && cl.job.stale then cl.last == 0 && cl.view == map[]
          else if cl.job.Job? then JobOk(area, cl.view, cl.job, cl.last)
          else Seen(area, cl.view, cl.last))
  }

  ghost predicate Inv<K(!new), D>(w: World<K, D>) {
    && AreaOk(w.area, w.version)
    && forall c :: 0 <= c < |w.clients| ==> ClientOk(w.area, w.version, w.clients[c])
  }

  lemma {:induction false} PutArea<K(!new), D>(area: Area<K, D>, version: nat, k: K, d: D)
    requires AreaOk(area, version)
    ensures AreaOk(area[k := (d, version + 1)], version + 1)
  {
  }

  lemma {:induction false} PutClient<K(!new), D>(area: Area<K, D>, version: nat, k: K, d: D, cl: Client<K, D>)
    requires ClientOk(area, version, cl)
    ensures ClientOk(area[k := (d, version + 1)], version + 1, cl)
  {
  }

  lemma {:induction false} ClientStep<K(!new), D>(w: World<K, D>, a: Action<K, D>, cl: Client<K, D>)
    requires AreaOk(w.area, w.version) && ClientOk(w.area, w.version, cl)
    ensures ClientOk(w.area, w.version, Stepped(cl, w, a))
  {
  }

  lemma {:induction false} ClearClient<K(!new), D>(area: Area<K, D>, version: nat, cl: Client<K, D>)
    requires ClientOk(area, version, cl)
    ensures ClientOk(map[], version + 1, cl) && ClientOk(area, version + 1, cl)
  {
  }

  lemma {:induction false} StepOf<K, D>(w: World<K, D>, a: Action<K, D>, c: nat)
    requires c < |w.clients|
    ensures var w' := Step(w, a);
            && |w'.clients| == |w.clients|
            && w'.clients[c] == (if Shared(a) || a.c != c then w.clients[c] else Stepped(w.clients[c], w, a))
            && (!Shared(a) ==> w'.area == w.area && w'.version == w.version)
  {
  }

  lemma {:induction false} StepClient<K(!new), D>(w: World<K, D>, a: Action<K, D>, c: nat)
    requires AreaOk(w.area, w.version) && c < |w.clients| && ClientOk(w.area, w.version, w.clients[c])
    ensures var w' := Step(w, a);
            |w'.clients| == |w.clients| && ClientOk(w'.area, w'.version, w'.clients[c]) == true
  {
    StepOf(w, a, c);
    if a.Put? {
      PutClient(w.area, w.version, a.key, a.data, w.clients[c]);
    } else if Shared(a) {
      ClearClient(w.area, w.version, w.clients[c]);
    } else if a.c == c {
      ClientStep(w, a, w.clients[c]);
    }
  }

  lemma {:induction false} StepInv<K(!new), D>(w: World<K, D>, a: Action<K, D>)
    requires Inv(w)
    ensures Inv(Step(w, a))
  {
    var w' := Step(w, a);
    assert AreaOk(w'.area, w'.version) by {
      if a.Put? {
        PutArea(w.area, w.version, a.key, a.data);
      }
    }
    assert |w'.clients| == |w.clients|;
    forall c | 0 <= c < |w'.clients| ensures ClientOk(w'.area, w'.version, w'.clients[c]) == true {
      StepClient(w, a, c);
    }
  }

  lemma {:induction false} RunKeeps<K(!new), D>(w: World<K, D>, acts: seq<Action<K, D>>)
    requires Inv(w)
    ensures Inv(Run(w, acts))
    decreases |acts|
  {
    if acts != [] {
      RunKeeps(w, acts[..|acts| - 1]);
      StepInv(Run(w, acts[..|acts| - 1]), acts[|acts| - 1]);
    }
  }

  lemma {:induction false} RunInv<K(!new), D>(clients: nat, acts: seq<Action<K, D>>)
    ensures Inv(Run(Init(clients), acts))
  {
    RunKeeps(Init(clients), acts);
  }

  // ---- the theorems ---------------------------------------------------------------------

  lemma {:induction false} UntaintedSeen<K(!new), D>(clients: nat, acts: seq<Action<K, D>>, c: nat)
    requires c < clients
    ensures var w := Run(Init(clients), acts);
            var cl := w.clients[c];
            cl.connected && !cl.tainted ==> Seen(w.area, cl.view, cl.last)
  {
    RunInv(clients, acts);
    var w := Run(Init(clients), acts);
    assert ClientOk(w.area, w.version, w.clients[c]);
  }

  /** Client c got its connection, or lost it, by this step. */
  predicate Renews<K, D>(a: Action<K, D>, c: nat) { a == Bind(c) || a == Close(c) }

  /** Ever since its present connection, every entry not newer than the client's version is
      what its master received last. */
  ghost predicate UpToDate<K(!new), D(!new)>(clients: nat, acts: seq<Action<K, D>>, c: nat)
    requires c < clients
    decreases |acts|
  {
    var w := Run(Init(clients), acts);
    && Seen(w.area, w.clients[c].view, w.clients[c].last)
    && (acts == [] || Renews(acts[|acts| - 1], c) || UpToDate(clients, acts[..|acts| - 1], c))
  }

  /** The one step that taints a connection is also the one that breaks it. */
  lemma {:induction false} TaintStep<K(!new), D>(w: World<K, D>, a: Action<K, D>, c: nat)
    requires Inv(w) && c < |w.clients| && !Renews(a, c)
    ensures var w' := Step(w, a);
            var cl, cl' := w.clients[c], w'.clients[c];
            && cl'.connected == cl.connected && (cl.tainted ==> cl'.tainted)
            && (cl.connected && !cl.tainted ==> (cl'.tainted <==> !Seen(w'.area, cl'.view, cl'.last)))
  {
    var w' := Step(w, a);
    assert ClientOk(w.area, w.version, w.clients[c]);
    StepOf(w, a, c);
    StepClient(w, a, c);
    if !w'.clients[c].tainted {
      assert ClientOk(w'.area, w'.version, w'.clients[c]);
    }
  }

  /** In every run, a connected client has been up to date ever since it connected, if and
      only if no send from an earlier connection ended on this one with an entry as old as
      its snapshot still pending. */
  lemma {:induction false} Replicated<K(!new), D(!new)>(clients: nat, acts: seq<Action<K, D>>, c: nat)
    requires c < clients && Run(Init(clients), acts).clients[c].connected
    ensures UpToDate(clients, acts, c) <==> !Run(Init(clients), acts).clients[c].tainted
    decreases |acts|
  {
    UntaintedSeen(clients, acts, c);
    if acts != [] && !Renews(acts[|acts| - 1], c) {
      var front := acts[..|acts| - 1];
      RunInv(clients, front);
      TaintStep(Run(Init(clients), front), acts[|acts| - 1], c);
      Replicated(clients, front, c);
    }
  }

  /** Versions are distinct and bounded by the area's version in every run. */
  lemma {:induction false} VersionsDistinct<K(!new), D>(clients: nat, acts: seq<Action<K, D>>)
    ensures var w := Run(Init(clients), acts); AreaOk(w.area, w.version)
  {
    RunInv(clients, acts);
  }

  /** Skipping a notification that is not newer than the client loses nothing: all it could
      announce has been received. */
  lemma {:induction false} SkipLosesNothing<K(!new), D>(w: World<K, D>, c: nat, notified: nat)
    requires Inv(w) && c < |w.clients| && w.clients[c].job.Active?
    requires var cl := w.clients[c];
             cl.connected && !cl.tainted && Step(w, SeeDue(c, notified)).clients[c].job.NoJob?
    ensures Seen(w.area, w.clients[c].view, notified)
  {
    assert ClientOk(w.area, w.version, w.clients[c]);
  }

  /** The exact damage of a send that outlives its connection: when it ends on the new one,
      the client has what its version claims if and only if no entry still pending is as old
      as the snapshot. */
  lemma {:induction false} StaleFinish<K(!new), D>(w: World<K, D>, c: nat)
    requires Inv(w) && c < |w.clients|
    requires var cl := w.clients[c]; cl.connected && !cl.tainted && cl.job.Job? && cl.job.stale
    ensures var cl := Step(w, Finish(c)).clients[c];
            && cl.job.NoJob? && cl.last == w.clients[c].job.version
            && (cl.tainted <==> Holds(w.area, cl.last))
            && (Seen(w.area, cl.view, cl.last) <==> !Holds(w.area, cl.last))
  {
    assert ClientOk(w.area, w.version, w.clients[c]);
  }

  lemma {:induction false} RunMore<K, D>(w: World<K, D>, acts: seq<Action<K, D>>, a: Action<K, D>)
    ensures Run(w, acts + [a]) == Step(Run(w, acts), a)
  {
    assert (acts + [a])[..|acts|] == acts;
  }

  lemma {:induction false} RunConcat<K, D>(w: World<K, D>, acts: seq<Action<K, D>>, more: seq<Action<K, D>>)
    ensures Run(w, acts + more) == Run(Run(w, acts), more)
    decreases |more|
  {
    if more == [] {
      assert acts + more == acts;
    } else {
      var front, a := more[..|more| - 1], more[|more| - 1];
      assert acts + more == (acts + front) + [a];
      RunMore(w, acts + front, a);
      RunConcat(w, acts, front);
    }
  }

  // ---- two runs that lose an entry --------------------------------------------------------

  /** One point that changed, and one client with a connection that has received nothing. */
  function Lone(job: Job<int, bool>): World<int, bool> {
    World(map[7 := (true, 1)], 1, [Client(true, 0, map[], job, false)])
  }

  lemma {:induction false} LoneStep(job: Job<int, bool>, a: Action<int, bool>)
    requires !Shared(a) && a.c == 0
    ensures Step(Lone(job), a) == Lone(job).(clients := [Stepped(Lone(job).clients[0], Lone(job), a)])
  {
  }

  lemma {:induction false} LoneStart()
    ensures Run(Init(1), [Put(7, true)] + [Bind(0)]) == Lone(NoJob)
  {
    var put: seq<Action<int, bool>> := [Put(7, true)];
    RunMore(Init(1), [], Put(7, true));
    assert [] + put == put;
    RunMore(Init(1), put, Bind(0));
    assert Step(Init(1), Put(7, true)) == World(map[7 := (true, 1)], 1, [Client(false, 0, map[], NoJob, false)]);
  }

  lemma {:induction false} LoneReconnect(job: Job<int, bool>)
    ensures Run(Lone(job), [Close(0)] + [Bind(0)]) == Lone(Detached(job))
  {
    var close: seq<Action<int, bool>> := [Close(0)];
    RunMore(Lone(job), [], Close(0));
    assert [] + close == close;
    RunMore(Lone(job), close, Bind(0));
    LoneStep(job, Close(0));
  }

  lemma {:induction false} LoneHead(stale: bool)
    ensures Run(Lone(Entered(stale)), [SeeActive(0)] + [SeeDue(0, 0)] + [Snap(0)]) == Lone(Job(map[7 := true], 1, stale))
  {
    var see: seq<Action<int, bool>>, w := [SeeActive(0)], Lone(Entered(stale));
    RunMore(w, [], SeeActive(0));
    assert [] + see == see;
    RunMore(w, see, SeeDue(0, 0));
    RunMore(w, see + [SeeDue(0, 0)], Snap(0));
    LoneStep(Entered(stale), SeeActive(0));
    LoneStep(Active(stale), SeeDue(0, 0));
    LoneStep(Due(stale), Snap(0));
    assert Newer(Lone(NoJob).area, 0) == map[7 := true];
  }

  /** Up to date by its version, with a pending entry and nothing received. */
  predicate Deceived(w: World<int, bool>) {
    && |w.clients| == 1 && w.clients[0].connected && w.clients[0].last == w.version
    && 7 in w.area && w.clients[0].view == map[]
  }

  lemma {:induction false} LoneThen(acts: seq<Action<int, bool>>, job: Job<int, bool>,
                                    more: seq<Action<int, bool>>, job': Job<int, bool>)
    requires Run(Init(1), acts) == Lone(job) && Run(Lone(job), more) == Lone(job')
    ensures Run(Init(1), acts + more) == Lone(job')
  {
    RunConcat(Init(1), acts, more);
  }

  lemma {:induction false} LoneEnter()
    ensures Run(Init(1), [Put(7, true)] + [Bind(0)] + [Enter(0)]) == Lone(Entered(false))
  {
    LoneStart();
    RunMore(Init(1), [Put(7, true)] + [Bind(0)], Enter(0));
    LoneStep(NoJob, Enter(0));
  }

  lemma {:induction false} LoneEnd(acts: seq<Action<int, bool>>)
    requires Run(Init(1), acts) == Lone(Job(map[7 := true], 1, true))
    ensures Deceived(Run(Init(1), acts + [Finish(0)]))
  {
    RunMore(Init(1), acts, Finish(0));
    LoneStep(Job(map[7 := true], 1, true), Finish(0));
  }

  /** The master reconnects between the snapshot and the end of a send. */
  lemma {:induction false} ReconnectLosesEntry()
    ensures var acts := [Put(7, true)] + [Bind(0)] + [Enter(0)] + ([SeeActive(0)] + [SeeDue(0, 0)] + [Snap(0)])
                        + ([Close(0)] + [Bind(0)]) + [Finish(0)];
            Deceived(Run(Init(1), acts))
  {
    var start: seq<Action<int, bool>> := [Put(7, true)] + [Bind(0)] + [Enter(0)];
    var head: seq<Action<int, bool>> := [SeeActive(0)] + [SeeDue(0, 0)] + [Snap(0)];
    var job := Job(map[7 := true], 1, false);
    LoneEnter();
    LoneHead(false);
    LoneThen(start, Entered(false), head, job);
    LoneReconnect(job);
    LoneThen(start + head, job, [Close(0)] + [Bind(0)], Detached(job));
    LoneEnd(start + head + ([Close(0)] + [Bind(0)]));
  }

  /** The master reconnects after a send read its handle and before it looks further. */
  lemma {:induction false} ReconnectInHead()
    ensures var acts := [Put(7, true)] + [Bind(0)] + [Enter(0)] + ([Close(0)] + [Bind(0)])
                        + ([SeeActive(0)] + [SeeDue(0, 0)] + [Snap(0)]) + [Finish(0)];
            Deceived(Run(Init(1), acts))
  {
    var start: seq<Action<int, bool>> := [Put(7, true)] + [Bind(0)] + [Enter(0)];
    var turn: seq<Action<int, bool>> := [Close(0)] + [Bind(0)];
    var head: seq<Action<int, bool>> := [SeeActive(0)] + [SeeDue(0, 0)] + [Snap(0)];
    LoneEnter();
    LoneReconnect(Entered(false));
    LoneThen(start, Entered(false), turn, Entered(true));
    LoneHead(true);
    LoneThen(start + turn, Entered(true), head, Job(map[7 := true], 1, true));
    LoneEnd(start + turn + head);
  }

  // ---- convergence ------------------------------------------------------------------------

  /** The head of a send that finds the client active and due. */
  function Head<K, D>(c: nat): seq<Action<K, D>> { [Enter(c)] + [SeeActive(c)] + [SeeDue(c, 0)] + [Snap(c)] }

  lemma {:induction false} HeadRuns<K, D>(w: World<K, D>, c: nat)
    requires c < |w.clients| && w.clients[c].connected && w.clients[c].job.NoJob?
    ensures var cl := w.clients[c];
            Run(w, Head(c)) ==
            w.(clients := w.clients[c := cl.(job := Job(Newer(w.area, cl.last), w.version, false))])
  {
    var enter: seq<Action<K, D>> := [Enter(c)];
    RunMore(w, [], Enter(c));
    assert [] + enter == enter;
    RunMore(w, enter, SeeActive(c));
    RunMore(w, enter + [SeeActive(c)], SeeDue(c, 0));
    RunMore(w, enter + [SeeActive(c)] + [SeeDue(c, 0)], Snap(c));
  }

  /** A send with nothing in between brings the client up to the area: its master has every
      pending entry. */
  lemma {:induction false} SendConverges<K(!new), D>(w: World<K, D>, c: nat) returns (acts: seq<Action<K, D>>)
    requires Inv(w) && c < |w.clients|
    requires w.clients[c].connected && !w.clients[c].tainted && w.clients[c].job.NoJob?
    ensures var r := Run(w, acts);
            && r.area == w.area && |r.clients| == |w.clients| && r.clients[c].connected && !r.clients[c].tainted
            && Seen(r.area, r.clients[c].view, r.version) && r.clients[c].last == r.version
  {
    var started := Run(w, Head(c));
    HeadRuns(w, c);
    RunKeeps(w, Head(c));
    var rest := HandAll(started, c);
    acts := Head(c) + rest;
    RunConcat(w, Head(c), rest);
    var r := Run(w, acts);
    assert ClientOk(r.area, r.version, r.clients[c]);
  }

  lemma {:induction false} HandAll<K(!new), D>(w: World<K, D>, c: nat) returns (acts: seq<Action<K, D>>)
    requires Inv(w) && c < |w.clients|
    requires var cl := w.clients[c];
             cl.connected && !cl.tainted && cl.job.Job? && !cl.job.stale && cl.job.version == w.version
    ensures var r := Run(w, acts);
            && Inv(r) && r.area == w.area && r.version == w.version && |r.clients| == |w.clients|
            && var cl := r.clients[c]; cl.connected && !cl.tainted && cl.job.NoJob? && cl.last == w.version
    decreases |w.clients[c].job.rest|
  {
    var rest := w.clients[c].job.rest;
    var a := Finish(c);
    if k :| k in rest {
      a := Deliver(c, k);
    }
    StepInv(w, a);
    var next := Step(w, a);
    var more := [];
    if a.Deliver? {
      assert next.clients[c].job.rest == rest - {a.key};
      assert |rest| == |rest - {a.key}| + 1 by { assert (rest - {a.key})[a.key := rest[a.key]] == rest; }
      more := HandAll(next, c);
    } else {
      assert rest == map[];
    }
    acts := [a] + more;
    RunMore(w, [], a);
    assert [] + [a] == [a];
    RunConcat(w, [a], more);
  }
}
