/** The upload area as the protocol of Replication sees it: the server's area and its clients'
    versions, tied step by step to a run of the protocol. */
module UploadReplication {
  import opened ActiveUpload
  import R = Replication

  datatype Key = Yx(ioa: int) | Yc(ioa: int)
  datatype Datum = OfYx(yx: YxData) | OfYc(yc: YcData)

  type World = R.World<Key, Datum>
  type Action = R.Action<Key, Datum>

  // ---- the two slot lists as one map ------------------------------------------------------

  ghost function Keys(x: map<int, (YxData, nat)>, c: map<int, (YcData, nat)>): set<Key> {
    (set i | i in x :: Yx(i)) + (set i | i in c :: Yc(i))
  }

  ghost function Merged(x: map<int, (YxData, nat)>, c: map<int, (YcData, nat)>): R.Area<Key, Datum> {
    map k | k in Keys(x, c) ::
      match k
      case Yx(i) => (OfYx(x[i].0), x[i].1)
      case Yc(i) => (OfYc(c[i].0), c[i].1)
  }

  ghost function Area(yx: seq<Slot<YxData>>, yc: seq<Slot<YcData>>): R.Area<Key, Datum> {
    Merged(Content(yx), Content(yc))
  }

  /** What a snapshot carries: its single points and its measurands, by address. */
  ghost function Carried(s: Snapshot): map<Key, Datum> {
    map k | k in Area(s.yx, s.yc) :: Area(s.yx, s.yc)[k].0
  }

  lemma {:induction false} PutYxMerged(x: map<int, (YxData, nat)>, c: map<int, (YcData, nat)>, ioa: int, d: YxData, v: nat)
    ensures Merged(x[ioa := (d, v)], c) == Merged(x, c)[Yx(ioa) := (OfYx(d), v)]
  {
    assert Keys(x[ioa := (d, v)], c) == Keys(x, c) + {Yx(ioa)};
  }

  lemma {:induction false} PutYxArea(yx: seq<Slot<YxData>>, yc: seq<Slot<YcData>>, yx': seq<Slot<YxData>>,
                                    ioa: int, d: YxData, v: nat)
    requires Content(yx') == Content(yx)[ioa := (d, v)]
    ensures Area(yx', yc) == Area(yx, yc)[Yx(ioa) := (OfYx(d), v)]
  {
    PutYxMerged(Content(yx), Content(yc), ioa, d, v);
  }

  lemma {:induction false} PutYcMerged(x: map<int, (YxData, nat)>, c: map<int, (YcData, nat)>, ioa: int, d: YcData, v: nat)
    ensures Merged(x, c[ioa := (d, v)]) == Merged(x, c)[Yc(ioa) := (OfYc(d), v)]
  {
    assert Keys(x, c[ioa := (d, v)]) == Keys(x, c) + {Yc(ioa)};
  }

  lemma {:induction false} PutYcArea(yx: seq<Slot<YxData>>, yc: seq<Slot<YcData>>, yc': seq<Slot<YcData>>,
                                    ioa: int, d: YcData, v: nat)
    requires Content(yc') == Content(yc)[ioa := (d, v)]
    ensures Area(yx, yc') == Area(yx, yc)[Yc(ioa) := (OfYc(d), v)]
  {
    PutYcMerged(Content(yx), Content(yc), ioa, d, v);
  }

  lemma {:induction false} AfterDistinct<P>(slots: seq<Slot<P>>, after: nat)
    requires DistinctIoas(slots)
    ensures DistinctIoas(After(slots, after))
    decreases |slots|
  {
    if slots != [] {
      var front, last := slots[..|slots| - 1], slots[|slots| - 1];
      AfterDistinct(front, after);
      forall i | 0 <= i < |After(front, after)| && last.Pending?
        ensures After(front, after)[i].Pending? ==> After(front, after)[i].ioa != last.ioa
      {
        AfterMember(front, after, After(front, after)[i]);
      }
    }
  }

  /** Copying the slots above a version is cutting the map at that version. */
  lemma {:induction false} ContentAfter<P>(slots: seq<Slot<P>>, after: nat)
    requires DistinctIoas(slots)
    ensures var all := Content(slots);
            Content(After(slots, after)) == map i | i in all && all[i].1 > after :: all[i]
  {
    var all, some := Content(slots), Content(After(slots, after));
    AfterDistinct(slots, after);
    forall i | i in all ensures i in some <==> all[i].1 > after {
      AfterIsNewer(slots, after, i, all[i].0, all[i].1);
      ContentMember(After(slots, after), i, all[i].0, all[i].1);
      if i in some {
        AfterIsNewer(slots, after, i, some[i].0, some[i].1);
        ContentMember(After(slots, after), i, some[i].0, some[i].1);
      }
    }
    forall i | i in some ensures i in all && some[i] == all[i] {
      AfterIsNewer(slots, after, i, some[i].0, some[i].1);
      ContentMember(After(slots, after), i, some[i].0, some[i].1);
    }
  }

  /** A snapshot carries exactly what the protocol says is newer than the client. */
  lemma {:induction false} SnapshotIsNewer(s: Snapshot, yx: seq<Slot<YxData>>, yc: seq<Slot<YcData>>, after: nat)
    requires DistinctIoas(yx) && DistinctIoas(yc) && s.yx == After(yx, after) && s.yc == After(yc, after)
    ensures Carried(s) == R.Newer(Area(yx, yc), after)
  {
    ContentAfter(yx, after);
    ContentAfter(yc, after);
  }

  // ---- what a send has still to hand over -----------------------------------------------

  /** A slot from the i-th on has the address. */
  ghost predicate Addressed<P>(slots: seq<Slot<P>>, i: nat, ioa: int) {
    exists m :: i <= m < |slots| && slots[m].Pending? && slots[m].ioa == ioa
  }

  /** The entry is not among the first i single points and j measurands of the snapshot. */
  ghost predicate Ahead(k: Key, s: Snapshot, i: nat, j: nat) {
    match k
    case Yx(ioa) => Addressed(s.yx, i, ioa)
    case Yc(ioa) => Addressed(s.yc, j, ioa)
  }

  ghost function Rest(s: Snapshot, i: nat, j: nat): map<Key, Datum> {
    map k | k in Carried(s) && Ahead(k, s, i, j) :: Carried(s)[k]
  }

  ghost predicate Copied<P>(slots: seq<Slot<P>>) {
    DistinctIoas(slots) && forall i :: 0 <= i < |slots| ==> slots[i].Pending?
  }

  lemma {:induction false} AfterCopied<P>(slots: seq<Slot<P>>, after: nat)
    requires DistinctIoas(slots)
    ensures Copied(After(slots, after))
  {
    AfterDistinct(slots, after);
    forall i | 0 <= i < |After(slots, after)| ensures After(slots, after)[i].Pending? {
      AfterMember(slots, after, After(slots, after)[i]);
    }
  }

  lemma {:induction false} ContentAddressed<P>(slots: seq<Slot<P>>, ioa: int)
    ensures ioa in Content(slots) ==> Addressed(slots, 0, ioa)
    decreases |slots|
  {
    if slots != [] {
      var front, last := slots[..|slots| - 1], slots[|slots| - 1];
      ContentAddressed(front, ioa);
      if last.Pending? && last.ioa == ioa {
        assert slots[|slots| - 1] == last;
      } else if ioa in Content(slots) {
        var m :| 0 <= m < |front| && front[m].Pending? && front[m].ioa == ioa;
        assert slots[m] == front[m];
      }
    }
  }

  lemma {:induction false} RestStart(s: Snapshot)
    ensures Rest(s, 0, 0) == Carried(s)
  {
    forall k | k in Carried(s) ensures Ahead(k, s, 0, 0) {
      match k
      case Yx(ioa) => ContentAddressed(s.yx, ioa);
      case Yc(ioa) => ContentAddressed(s.yc, ioa);
    }
  }

  lemma {:induction false} RestEnd(s: Snapshot)
    ensures Rest(s, |s.yx|, |s.yc|) == map[]
  {
  }

  lemma {:induction false} AddressedNext<P>(slots: seq<Slot<P>>, i: nat, ioa: int)
    requires Copied(slots) && i < |slots|
    ensures Addressed(slots, i + 1, ioa) <==> Addressed(slots, i, ioa) && ioa != slots[i].ioa
  {
    if Addressed(slots, i, ioa) && ioa != slots[i].ioa {
      var m :| i <= m < |slots| && slots[m].Pending? && slots[m].ioa == ioa;
      assert i + 1 <= m;
    }
  }

  /** Handing over the i-th single point. */
  lemma {:induction false} RestYx(s: Snapshot, i: nat, j: nat)
    requires Copied(s.yx) && i < |s.yx|
    ensures var k := Yx(s.yx[i].ioa);
            && k in Rest(s, i, j) && Rest(s, i, j)[k] == OfYx(s.yx[i].data)
            && Rest(s, i, j) - {k} == Rest(s, i + 1, j)
  {
    var k := Yx(s.yx[i].ioa);
    ContentMember(s.yx, s.yx[i].ioa, s.yx[i].data, s.yx[i].version);
    assert k in Carried(s) && Carried(s)[k] == OfYx(s.yx[i].data) && Addressed(s.yx, i, s.yx[i].ioa);
    forall l | l in Carried(s) ensures Ahead(l, s, i + 1, j) <==> Ahead(l, s, i, j) && l != k {
      if l.Yx? {
        AddressedNext(s.yx, i, l.ioa);
      }
    }
  }

  /** Handing over the j-th measurand. */
  lemma {:induction false} RestYc(s: Snapshot, i: nat, j: nat)
    requires Copied(s.yc) && j < |s.yc|
    ensures var k := Yc(s.yc[j].ioa);
            && k in Rest(s, i, j) && Rest(s, i, j)[k] == OfYc(s.yc[j].data)
            && Rest(s, i, j) - {k} == Rest(s, i, j + 1)
  {
    var k := Yc(s.yc[j].ioa);
    ContentMember(s.yc, s.yc[j].ioa, s.yc[j].data, s.yc[j].version);
    assert k in Carried(s) && Carried(s)[k] == OfYc(s.yc[j].data) && Addressed(s.yc, j, s.yc[j].ioa);
    forall l | l in Carried(s) ensures Ahead(l, s, i, j + 1) <==> Ahead(l, s, i, j) && l != k {
      if l.Yc? {
        AddressedNext(s.yc, j, l.ioa);
      }
    }
  }

  // ---- steps of a run -----------------------------------------------------------------------

  type Member = R.Client<Key, Datum>

  ghost function RunOf(clients: nat, acts: seq<Action>): (w: World)
    ensures |w.clients| == clients
  {
    R.Run(R.Init(clients), acts)
  }

  lemma {:induction false} OneMore(clients: nat, acts: seq<Action>, a: Action)
    ensures RunOf(clients, acts + [a]) == R.Step(RunOf(clients, acts), a)
  {
    R.RunMore(R.Init(clients), acts, a);
  }

  lemma {:induction false} PutStep(clients: nat, acts: seq<Action>, k: Key, d: Datum)
    ensures var w, w' := RunOf(clients, acts), RunOf(clients, acts + [R.Put(k, d)]);
            w'.area == w.area[k := (d, w.version + 1)] && w'.version == w.version + 1 && w'.clients == w.clients
  {
    OneMore(clients, acts, R.Put(k, d));
  }

  ghost function ClientAt(clients: nat, acts: seq<Action>, c: nat): Member
    requires c < clients
  {
    RunOf(clients, acts).clients[c]
  }

  /** What a step of a client does to it and to the others. */
  lemma {:induction false} OwnStep(clients: nat, acts: seq<Action>, a: Action, c: nat)
    requires c < clients && !R.Shared(a) && a.c == c
    ensures ClientAt(clients, acts + [a], c) == R.Stepped(ClientAt(clients, acts, c), RunOf(clients, acts), a)
  {
    OneMore(clients, acts, a);
    R.StepOf(RunOf(clients, acts), a, c);
  }

  /** What a client may find when others took steps: its send is as it was, or stale. */
  ghost predicate Follows(cl: Member, cl': Member) {
    || cl'.job == R.Detached(cl.job)
    || (cl'.job == cl.job && cl'.connected == cl.connected && cl'.last == cl.last && cl'.tainted == cl.tainted)
  }

  lemma {:induction false} OtherStep(clients: nat, acts: seq<Action>, a: Action, c: nat)
    requires c < clients && (R.Shared(a) || a.Bind? || a.Close?)
    ensures Follows(ClientAt(clients, acts, c), ClientAt(clients, acts + [a], c))
  {
    OneMore(clients, acts, a);
    R.StepOf(RunOf(clients, acts), a, c);
  }

  // ---- a send under way -----------------------------------------------------------------------

  /** A send of this snapshot with the first i single points and j measurands behind it.  As
      long as it is not stale, its connection is the one it began on. */
  ghost predicate Sending(cl: Member, s: Snapshot, i: nat, j: nat, tainted: bool) {
    && cl.job.Job? && cl.job.version == s.version
    && (!cl.job.stale ==> cl.connected && cl.job.rest == Rest(s, i, j) && cl.tainted == tainted)
  }

  lemma {:induction false} SendingFollows(cl: Member, cl': Member, s: Snapshot, i: nat, j: nat, tainted: bool)
    requires Sending(cl, s, i, j, tainted) && Follows(cl, cl')
    ensures Sending(cl', s, i, j, tainted)
  {
  }

  /** The head of a send: as long as it is not stale the connection is the same, and once it
      was seen to be active it is. */
  ghost predicate Heading(cl: Member, tainted: bool) {
    && (cl.job.Entered? || cl.job.Active? || cl.job.Due?)
    && (!cl.job.stale ==> cl.tainted == tainted && (!cl.job.Entered? ==> cl.connected))
  }

  /** Without a connection the send is stale, however far it got. */
  lemma {:induction false} SendingGone(cl: Member, s: Snapshot, i: nat, j: nat, i': nat, j': nat, tainted: bool)
    requires Sending(cl, s, i, j, tainted) && !cl.connected
    ensures Sending(cl, s, i', j', tainted)
  {
  }

  lemma {:induction false} SendingYx(cl: Member, w: World, c: nat, s: Snapshot, i: nat, j: nat, tainted: bool)
    requires Sending(cl, s, i, j, tainted) && Copied(s.yx) && i < |s.yx|
    ensures var cl' := R.Stepped(cl, w, R.Deliver(c, Yx(s.yx[i].ioa)));
            && Sending(cl', s, i + 1, j, tainted) && cl'.job.stale == cl.job.stale
            && cl'.connected == cl.connected && cl'.last == cl.last
            && (!cl.job.stale ==> cl'.view == cl.view[Yx(s.yx[i].ioa) := OfYx(s.yx[i].data)])
  {
    RestYx(s, i, j);
  }

  lemma {:induction false} SendingYc(cl: Member, w: World, c: nat, s: Snapshot, i: nat, j: nat, tainted: bool)
    requires Sending(cl, s, i, j, tainted) && Copied(s.yc) && j < |s.yc|
    ensures var cl' := R.Stepped(cl, w, R.Deliver(c, Yc(s.yc[j].ioa)));
            && Sending(cl', s, i, j + 1, tainted) && cl'.job.stale == cl.job.stale
            && cl'.connected == cl.connected && cl'.last == cl.last
            && (!cl.job.stale ==> cl'.view == cl.view[Yc(s.yc[j].ioa) := OfYc(s.yc[j].data)])
  {
    RestYc(s, i, j);
  }

  // ---- the server ---------------------------------------------------------------------------

  /** What the server keeps of its clients is what the protocol says. */
  ghost predicate Mirrors(active: seq<bool>, last: seq<nat>, clients: seq<Member>) {
    && |active| == |last| == |clients|
    && forall c :: 0 <= c < |last| ==> active[c] == clients[c].connected && last[c] == clients[c].last
  }

  lemma {:induction false} MirrorsOne(active: seq<bool>, last: seq<nat>, clients: seq<Member>, c: nat, cl: Member)
    requires Mirrors(active, last, clients) && c < |last|
    ensures Mirrors(active[c := cl.connected], last[c := cl.last], clients[c := cl])
  {
  }

  /** What happens while a send is under way. */
  datatype Event =
    | ChangedYx(ioa: int, yx: YxData)
    | ChangedYc(ioa: int, yc: YcData)
    | Happened(ioa: int, value: bool, quality: int, timestamp: nat)
    | Cleared
    | Opened(client: nat)
    | Closed(client: nat)

  function Between(meanwhile: seq<seq<Event>>, n: nat): seq<Event> {
    if n < |meanwhile| then meanwhile[n] else []
  }

  predicate Undisturbed(meanwhile: seq<seq<Event>>) {
    forall n :: 0 <= n < |meanwhile| ==> meanwhile[n] == []
  }

  /** The part of the server that uploads: the area, and per client whether it is active and
      its last_uploaded_version. `acts` is the run of the protocol so far. */
  class UploadServer {
    const area: UploadArea
    var active: seq<bool>
    var last: seq<nat>
    ghost var acts: seq<Action>

    ghost function World(): World
      reads this
    {
      RunOf(|last|, acts)
    }

    ghost function Client(c: nat): Member
      requires c < |last|
      reads this
    {
      ClientAt(|last|, acts, c)
    }

    ghost predicate Valid()
      reads this, area
    {
      && area.Valid() && World().area == Area(area.yx, area.yc) && World().version == area.version
      && Mirrors(active, last, World().clients)
    }

    constructor (yxCapacity: nat, ycCapacity: nat, soeCapacity: nat, clients: nat)
      ensures Valid() && fresh(area) && |last| == clients && acts == []
    {
      area := new UploadArea(yxCapacity, ycCapacity, soeCapacity);
      active := seq(clients, _ => false);
      last := seq(clients, _ => 0);
      acts := [];
      new;
      assert Area(area.yx, area.yc) == map[];
    }

    method PutYx(ioa: int, data: YxData) returns (ok: bool)
      requires Valid()
      modifies area, this`acts
      ensures Valid() && (ok <==> !Full(old(area.yx), ioa))
      ensures ok ==> acts == old(acts) + [R.Put(Yx(ioa), OfYx(data))]
      ensures !ok ==> acts == old(acts)
    {
      PutStep(|last|, acts, Yx(ioa), OfYx(data));
      ok := area.PutYx(ioa, data);
      if ok {
        PutYxArea(old(area.yx), area.yc, area.yx, ioa, data, area.version);
        acts := acts + [R.Put(Yx(ioa), OfYx(data))];
      }
    }

    method PutYc(ioa: int, data: YcData) returns (ok: bool)
      requires Valid()
      modifies area, this`acts
      ensures Valid() && (ok <==> !Full(old(area.yc), ioa))
      ensures ok ==> acts == old(acts) + [R.Put(Yc(ioa), OfYc(data))]
      ensures !ok ==> acts == old(acts)
    {
      PutStep(|last|, acts, Yc(ioa), OfYc(data));
      ok := area.PutYc(ioa, data);
      if ok {
        PutYcArea(area.yx, old(area.yc), area.yc, ioa, data, area.version);
        acts := acts + [R.Put(Yc(ioa), OfYc(data))];
      }
    }

    method PutSoe(ioa: int, value: bool, quality: int, timestamp: nat)
      requires Valid()
      modifies area, this`acts
      ensures Valid() && acts == old(acts) + [R.Tick]
    {
      area.PutSoe(ioa, value, quality, timestamp);
      OneMore(|last|, acts, R.Tick);
      acts := acts + [R.Tick];
    }

    method Clear()
      requires Valid()
      modifies area, this`acts
      ensures Valid() && acts == old(acts) + [R.Clear]
    {
      area.Clear();
      assert Area(area.yx, area.yc) == map[];
      OneMore(|last|, acts, R.Clear);
      acts := acts + [R.Clear];
    }

    /** client_context_bind_connection and client_context_close_connection. */
    method Connect(c: nat, connected: bool)
      requires Valid() && c < |last|
      modifies this`active, this`last, this`acts
      ensures Valid() && |last| == old(|last|)
      ensures acts == old(acts) + [if connected then R.Bind(c) else R.Close(c)]
    {
      ghost var a: Action := if connected then R.Bind(c) else R.Close(c);
      ghost var w := World();
      MirrorsOne(active, last, w.clients, c, R.Fresh(w.clients[c], connected));
      OneMore(|last|, acts, a);
      active, last := active[c := connected], last[c := 0];
      acts := acts + [a];
    }

    /** The worker of client c takes a step that leaves what the server keeps alone. */
    ghost method Note(c: nat, a: Action)
      requires Valid() && c < |last| && !R.Shared(a) && a.c == c
      requires var cl := R.Stepped(Client(c), World(), a); cl.connected == active[c] && cl.last == last[c]
      modifies this`acts
      ensures Valid() && acts == old(acts) + [a]
      ensures Client(c) == R.Stepped(old(Client(c)), old(World()), a)
    {
      OwnStep(|last|, acts, a, c);
      OneMore(|last|, acts, a);
      MirrorsOne(active, last, World().clients, c, R.Stepped(Client(c), World(), a));
      acts := acts + [a];
    }

    /** The snapshot of a send. */
    method TakeSnapshot(c: nat) returns (snapshot: Snapshot)
      requires Valid() && c < |last| && Client(c).job.Due?
      modifies this`acts
      ensures Valid() && acts == old(acts) + [R.Snap(c)]
      ensures Client(c) == old(Client(c)).(job := R.Job(Carried(snapshot), snapshot.version, old(Client(c)).job.stale))
      ensures Copied(snapshot.yx) && Copied(snapshot.yc) && snapshot.version == area.version
    {
      snapshot := area.SnapshotCreate(last[c]);
      KeptMeans(area.version + 3, area.yx, area.yc, area.soe, area.version);
      SnapshotIsNewer(snapshot, area.yx, area.yc, last[c]);
      AfterCopied(area.yx, last[c]);
      AfterCopied(area.yc, last[c]);
      Note(c, R.Snap(c));
    }

    /** What the other threads do in the meantime. */
    method Meanwhile(c: nat, events: seq<Event>)
      requires Valid() && c < |last|
      modifies area, this
      ensures Valid() && |last| == old(|last|) && old(acts) <= acts
      ensures Follows(old(Client(c)), Client(c))
      ensures events == [] ==> acts == old(acts) && active == old(active) && last == old(last)
      ensures events == [] ==> area.yx == old(area.yx) && area.yc == old(area.yc) && area.version == old(area.version)
    {
      for i := 0 to |events|
        invariant Valid() && |last| == old(|last|) && old(acts) <= acts
        invariant Follows(old(Client(c)), Client(c))
        invariant i == 0 ==> acts == old(acts) && active == old(active) && last == old(last)
        invariant i == 0 ==> area.yx == old(area.yx) && area.yc == old(area.yc) && area.version == old(area.version)
      {
        One(c, events[i]);
      }
    }

    method One(c: nat, event: Event)
      requires Valid() && c < |last|
      modifies area, this
      ensures Valid() && |last| == old(|last|) && old(acts) <= acts
      ensures Follows(old(Client(c)), Client(c))
    {
      match event {
        case ChangedYx(ioa, data) =>
          OtherStep(|last|, acts, R.Put(Yx(ioa), OfYx(data)), c);
          var _ := PutYx(ioa, data);
        case ChangedYc(ioa, data) =>
          OtherStep(|last|, acts, R.Put(Yc(ioa), OfYc(data)), c);
          var _ := PutYc(ioa, data);
        case Happened(ioa, value, quality, timestamp) =>
          OtherStep(|last|, acts, R.Tick, c);
          PutSoe(ioa, value, quality, timestamp);
        case Cleared =>
          OtherStep(|last|, acts, R.Clear, c);
          Clear();
        case Opened(client) =>
          if client < |last| {
            OtherStep(|last|, acts, R.Bind(client), c);
            Connect(client, true);
          }
        case Closed(client) =>
          if client < |last| {
            OtherStep(|last|, acts, R.Close(client), c);
            Connect(client, false);
          }
      }
    }

    // ---- send_active_upload -------------------------------------------------------------

    /** Something may happen, then the send goes on if the client is active. */
    method Proceed(c: nat, s: Snapshot, i: nat, j: nat, events: seq<Event>, ghost tainted: bool) returns (on: bool)
      requires Valid() && c < |last| && Sending(Client(c), s, i, j, tainted)
      modifies area, this
      ensures Valid() && |last| == old(|last|) && old(acts) <= acts && Sending(Client(c), s, i, j, tainted)
      ensures on == Client(c).connected
      ensures events == [] ==> area.version == old(area.version) && Client(c) == old(Client(c))
    {
      Meanwhile(c, events);
      SendingFollows(old(Client(c)), Client(c), s, i, j, tainted);
      on := active[c];
    }

    /** One single point goes out. */
    ghost method HandYx(c: nat, s: Snapshot, i: nat, tainted: bool)
      requires Valid() && c < |last| && Copied(s.yx) && i < |s.yx| && Sending(Client(c), s, i, 0, tainted)
      modifies this`acts
      ensures Valid() && acts == old(acts) + [R.Deliver(c, Yx(s.yx[i].ioa))]
      ensures Sending(Client(c), s, i + 1, 0, tainted) && Client(c).job.stale == old(Client(c)).job.stale
      ensures !Client(c).job.stale ==> Client(c).view == old(Client(c)).view[Yx(s.yx[i].ioa) := OfYx(s.yx[i].data)]
    {
      SendingYx(Client(c), World(), c, s, i, 0, tainted);
      Note(c, R.Deliver(c, Yx(s.yx[i].ioa)));
    }

    /** One measurand goes out. */
    ghost method HandYc(c: nat, s: Snapshot, j: nat, tainted: bool)
      requires Valid() && c < |last| && Copied(s.yc) && j < |s.yc| && Sending(Client(c), s, |s.yx|, j, tainted)
      modifies this`acts
      ensures Valid() && acts == old(acts) + [R.Deliver(c, Yc(s.yc[j].ioa))]
      ensures Sending(Client(c), s, |s.yx|, j + 1, tainted) && Client(c).job.stale == old(Client(c)).job.stale
      ensures !Client(c).job.stale ==> Client(c).view == old(Client(c)).view[Yc(s.yc[j].ioa) := OfYc(s.yc[j].data)]
    {
      SendingYc(Client(c), World(), c, s, |s.yx|, j, tainted);
      Note(c, R.Deliver(c, Yc(s.yc[j].ioa)));
    }

    /** The loop over the single points. */
    method SendYx(c: nat, s: Snapshot, meanwhile: seq<seq<Event>>, ghost tainted: bool)
      requires Valid() && c < |last| && Copied(s.yx) && Sending(Client(c), s, 0, 0, tainted)
      modifies area, this
      ensures Valid() && |last| == old(|last|) && old(acts) <= acts && Sending(Client(c), s, |s.yx|, 0, tainted)
      ensures Undisturbed(meanwhile) ==>
                area.version == old(area.version) && Client(c).job.stale == old(Client(c)).job.stale
    {
      var i := 0;
      while i < |s.yx|
        invariant 0 <= i <= |s.yx| && Valid() && |last| == old(|last|) && old(acts) <= acts
        invariant Sending(Client(c), s, i, 0, tainted)
        invariant Undisturbed(meanwhile) ==>
                    area.version == old(area.version) && Client(c).job.stale == old(Client(c)).job.stale
      {
        var on := Proceed(c, s, i, 0, Between(meanwhile, 3 + i), tainted);
        if !on {
          SendingGone(Client(c), s, i, 0, |s.yx|, 0, tainted);
          break;
        }
        HandYx(c, s, i, tainted);
        i := i + 1;
      }
    }

    /** The loop over the measurands. */
    method SendYc(c: nat, s: Snapshot, meanwhile: seq<seq<Event>>, ghost tainted: bool)
      requires Valid() && c < |last| && Copied(s.yc) && Sending(Client(c), s, |s.yx|, 0, tainted)
      modifies area, this
      ensures Valid() && |last| == old(|last|) && old(acts) <= acts && Sending(Client(c), s, |s.yx|, |s.yc|, tainted)
      ensures Undisturbed(meanwhile) ==>
                area.version == old(area.version) && Client(c).job.stale == old(Client(c)).job.stale
    {
      var j := 0;
      while j < |s.yc|
        invariant 0 <= j <= |s.yc| && Valid() && |last| == old(|last|) && old(acts) <= acts
        invariant Sending(Client(c), s, |s.yx|, j, tainted)
        invariant Undisturbed(meanwhile) ==>
                    area.version == old(area.version) && Client(c).job.stale == old(Client(c)).job.stale
      {
        var on := Proceed(c, s, |s.yx|, j, Between(meanwhile, 3 + |s.yx| + j), tainted);
        if !on {
          SendingGone(Client(c), s, |s.yx|, j, |s.yx|, |s.yc|, tainted);
          break;
        }
        HandYc(c, s, j, tainted);
        j := j + 1;
      }
    }

    /** The end: the version of the snapshot becomes that of the client, whoever it is now
        connected to. */
    method EndUpload(c: nat, s: Snapshot, ghost tainted: bool)
      requires Valid() && c < |last| && Sending(Client(c), s, |s.yx|, |s.yc|, tainted)
      modifies this`last, this`acts
      ensures Valid() && last == old(last)[c := s.version] && acts == old(acts) + [R.Finish(c)]
      ensures Client(c).job.NoJob? && (!old(Client(c).job.stale) ==> active[c] && Client(c).tainted == tainted)
    {
      ghost var w := World();
      RestEnd(s);
      OwnStep(|last|, acts, R.Finish(c), c);
      OneMore(|last|, acts, R.Finish(c));
      MirrorsOne(active, last, w.clients, c, R.Finished(w.clients[c], w.area));
      last := last[c := s.version];
      acts := acts + [R.Finish(c)];
    }

    /** Something may happen, then the head looks whether the client is active. */
    method SeeActive(c: nat, events: seq<Event>, ghost tainted: bool) returns (on: bool)
      requires Valid() && c < |last| && Client(c).job.Entered? && Heading(Client(c), tainted)
      modifies area, this
      ensures Valid() && |last| == old(|last|) && old(acts) <= acts
      ensures if on then Client(c).job.Active? && Heading(Client(c), tainted) else Client(c).job.NoJob?
      ensures events == [] ==> area.version == old(area.version) && active == old(active) && last == old(last)
      ensures events == [] ==> on == active[c] && (on ==> Client(c).job.stale == old(Client(c)).job.stale)
    {
      Meanwhile(c, events);
      on := active[c];
      Note(c, R.SeeActive(c));
    }

    /** Something may happen, then the head looks whether the notification is newer. */
    method SeeDue(c: nat, notified: nat, events: seq<Event>, ghost tainted: bool) returns (on: bool)
      requires Valid() && c < |last| && Client(c).job.Active? && Heading(Client(c), tainted)
      modifies area, this
      ensures Valid() && |last| == old(|last|) && old(acts) <= acts
      ensures if on then Client(c).job.Due? && Heading(Client(c), tainted) else Client(c).job.NoJob?
      ensures events == [] ==> area.version == old(area.version) && active == old(active) && last == old(last)
      ensures events == [] ==>
                on == (notified == 0 || notified > last[c]) && (on ==> Client(c).job.stale == old(Client(c)).job.stale)
    {
      Meanwhile(c, events);
      on := notified == 0 || notified > last[c];
      Note(c, R.SeeDue(c, notified));
    }

    /** Something may happen, then the snapshot is taken. */
    method BeginSending(c: nat, events: seq<Event>, ghost tainted: bool) returns (s: Snapshot)
      requires Valid() && c < |last| && Client(c).job.Due? && Heading(Client(c), tainted)
      modifies area, this
      ensures Valid() && |last| == old(|last|) && old(acts) <= acts
      ensures Copied(s.yx) && Copied(s.yc) && Sending(Client(c), s, 0, 0, tainted) && s.version == area.version
      ensures events == [] ==> area.version == old(area.version) && Client(c).job.stale == old(Client(c)).job.stale
    {
      Meanwhile(c, events);
      s := TakeSnapshot(c);
      RestStart(s);
    }

    /** The head of a send: the handle is read, then whether the client is active, then whether
        the notification is newer, then the snapshot is taken. */
    method BeginUpload(c: nat, notified: nat, meanwhile: seq<seq<Event>>, ghost tainted: bool)
      returns (started: bool, s: Snapshot)
      requires Valid() && c < |last| && Client(c).job.NoJob? && Client(c).tainted == tainted
      modifies area, this
      ensures Valid() && |last| == old(|last|) && old(acts) <= acts
      ensures started ==> Copied(s.yx) && Copied(s.yc) && Sending(Client(c), s, 0, 0, tainted)
      ensures !started ==> Client(c).job.NoJob?
      ensures Undisturbed(meanwhile) ==> area.version == old(area.version)
      ensures Undisturbed(meanwhile) ==> (started <==> old(active)[c] && (notified == 0 || notified > old(last)[c]))
      ensures Undisturbed(meanwhile) && started ==> !Client(c).job.stale && s.version == area.version
    {
      s := Snapshot(0, [], [], []);
      Note(c, R.Enter(c));
      started := SeeActive(c, Between(meanwhile, 0), tainted);
      if !started {
        return;
      }
      started := SeeDue(c, notified, Between(meanwhile, 1), tainted);
      if !started {
        return;
      }
      s := BeginSending(c, Between(meanwhile, 2), tainted);
    }

    /** send_active_upload, with anything that may happen at any point of it.  If the
        connection was kept and is not tainted, its master then has every point up to the
        version the client gets; and without disturbance that is all there is. */
    method SendActiveUpload(c: nat, notified: nat, meanwhile: seq<seq<Event>>) returns (started: bool, ghost kept: bool)
      requires Valid() && c < |last| && Client(c).job.NoJob?
      modifies area, this
      ensures Valid() && |last| == old(|last|) && old(acts) <= acts && Client(c).job.NoJob?
      ensures started && kept && !old(Client(c)).tainted ==>
                active[c] && R.Seen(Area(area.yx, area.yc), Client(c).view, last[c])
      ensures Undisturbed(meanwhile) ==> kept
      ensures Undisturbed(meanwhile) ==> (started <==> old(active)[c] && (notified == 0 || notified > old(last)[c]))
      ensures Undisturbed(meanwhile) && started ==> last[c] == area.version == old(area.version)
    {
      ghost var tainted := Client(c).tainted;
      var s;
      kept := true;
      started, s := BeginUpload(c, notified, meanwhile, tainted);
      if !started {
        return;
      }
      SendYx(c, s, meanwhile, tainted);
      SendYc(c, s, meanwhile, tainted);
      var _ := Proceed(c, s, |s.yx|, |s.yc|, Between(meanwhile, 3 + |s.yx| + |s.yc|), tainted);
      kept := !Client(c).job.stale;
      EndUpload(c, s, tainted);
      if kept && !tainted {
        MasterHas(c);
      }
    }

    /** Ever since a client connected, its master has had every point of the area that is not
        newer than the client's version, if and only if no send from an earlier connection
        ended on this one with a point as old as its snapshot still pending. */
    lemma {:induction false} MasterHas(c: nat)
      requires Valid() && c < |last| && active[c]
      ensures R.UpToDate(|last|, acts, c) <==> !Client(c).tainted
      ensures !Client(c).tainted ==> R.Seen(Area(area.yx, area.yc), Client(c).view, last[c])
    {
      R.Replicated(|last|, acts, c);
      R.UntaintedSeen(|last|, acts, c);
    }
  }
}
