/** The report scheduler and the upload area: every call is a step of the event log, so what
    is proved of its runs holds of the history that the scheduler writes. */
module SoeScheduler {
  import opened ActiveUpload
  import T = SoeTransfer

  lemma {:induction false} EventIs(capacity: nat, acts: seq<T.Action>, ioa: int, data: SoeData)
    requires capacity > 0
    ensures var s, r := T.Run(capacity, acts), T.Run(capacity, acts + [T.Event(ioa, data)]);
            && r.ring == s.ring[s.next := Pending(ioa, data, s.version + 1)]
            && r.next == (s.next + 1) % capacity && r.version == s.version + 1
            && r.last == s.last && r.delivered == s.delivered
  {
    T.RunMore(capacity, acts, T.Event(ioa, data));
  }

  /** The part of the server that records events: the area, the version up to which the
      history has them, and the history. `acts` is the run of the log so far. */
  class Recorder {
    const area: UploadArea
    var last: nat
    var history: seq<T.Event>
    ghost var acts: seq<T.Action>

    ghost function Log(): T.Log
      requires |area.soe| > 0
      reads this, area
    {
      T.Run(|area.soe|, acts)
    }

    ghost predicate Valid()
      reads this, area
    {
      && area.Valid()
      && Log().ring == area.soe && Log().next == area.soeNext && Log().version == area.version
      && Log().last == last && Log().delivered == history
    }

    constructor (yxCapacity: nat, ycCapacity: nat, soeCapacity: nat)
      ensures Valid() && fresh(area) && acts == [] && history == [] && |area.soe| == Room(soeCapacity)
    {
      area := new UploadArea(yxCapacity, ycCapacity, soeCapacity);
      last, history, acts := 0, [], [];
      new;
      assert area.soe == T.Init(|area.soe|).ring;
    }

    /** active_upload_put_yx: a change, and its event if it makes one. */
    method PutYx(ioa: int, data: YxData, withSoe: bool) returns (ok: bool)
      requires Valid()
      modifies area, this`acts
      ensures Valid() && |area.soe| == old(|area.soe|) && (ok <==> !Full(old(area.yx), ioa))
      ensures !ok ==> acts == old(acts)
      ensures ok && !withSoe ==> acts == old(acts) + [T.Other]
      ensures ok && withSoe ==>
                acts == old(acts) + [T.Other] + [T.Event(ioa, SoeData(data.value, data.quality, data.timestamp, area.soeSequence))]
    {
      ok := area.PutYxEvent(ioa, data, withSoe);
      if ok {
        T.RunMore(|area.soe|, acts, T.Other);
        acts := acts + [T.Other];
      }
      if ok && withSoe {
        ghost var event := SoeData(data.value, data.quality, data.timestamp, area.soeSequence);
        EventIs(|area.soe|, acts, ioa, event);
        acts := acts + [T.Event(ioa, event)];
      }
    }

    method PutYc(ioa: int, data: YcData) returns (ok: bool)
      requires Valid()
      modifies area, this`acts
      ensures Valid() && |area.soe| == old(|area.soe|) && (ok <==> !Full(old(area.yc), ioa))
      ensures acts == old(acts) + if ok then [T.Other] else []
    {
      ok := area.PutYc(ioa, data);
      if ok {
        T.RunMore(|area.soe|, acts, T.Other);
        acts := acts + [T.Other];
      }
    }

    method Clear()
      requires Valid()
      modifies area, this`acts
      ensures Valid() && |area.soe| == old(|area.soe|) && acts == old(acts) + [T.Clear]
    {
      area.Clear();
      T.RunMore(|area.soe|, acts, T.Clear);
      assert area.soe == seq(|area.soe|, _ => Empty);
      acts := acts + [T.Clear];
    }

    /** The snapshot and the append loop of the report thread. */
    method Transfer()
      requires Valid()
      modifies this
      ensures Valid() && acts == old(acts) + [T.Transfer]
      ensures history == old(history) + After(area.soe, old(last)) && last == area.version
    {
      T.RunMore(|area.soe|, acts, T.Transfer);
      var snapshot := area.SnapshotCreate(last);
      for i := 0 to |snapshot.soe|
        invariant history == old(history) + snapshot.soe[..i] && last == old(last) && acts == old(acts)
      {
        history := history + [snapshot.soe[i]];
      }
      assert snapshot.soe[..|snapshot.soe|] == snapshot.soe;
      last := snapshot.version;
      acts := acts + [T.Transfer];
    }

    /** The history and the events still to come are the events put, each once, if and only if
        the run was careful; and the history is in their order if and only if it was orderly. */
    lemma {:induction false} Recorded()
      requires Valid()
      ensures multiset(Log().puts) == multiset(history) + multiset(After(area.soe, last))
              <==> T.Careful(|area.soe|, acts)
      ensures T.InOrder(history) <==> T.Orderly(|area.soe|, acts)
    {
      T.ExactlyOnce(|area.soe|, acts);
      T.DeliveredInOrderIff(|area.soe|, acts);
    }
  }
}
