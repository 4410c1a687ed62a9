/** The active-upload area: one slot per point that changed, stamped with a version, and a
    ring of recent events. */
module ActiveUpload {

  /** One upload entry; EMPTY and PENDING are the two states of an entry. */
  datatype Slot<P> = Empty | Pending(ioa: int, data: P, version: nat)

  datatype YxData = YxData(value: bool, quality: int, timestamp: nat)
  datatype YcData = YcData(value: real, quality: int, iecType: int, cot: int, timestamp: nat)
  datatype SoeData = SoeData(value: bool, quality: int, timestamp: nat, sequence: nat)

  datatype Snapshot = Snapshot(version: nat, yx: seq<Slot<YxData>>, yc: seq<Slot<YcData>>, soe: seq<Slot<SoeData>>)

  // ---- slots as a map -----------------------------------------------------------------

  ghost predicate DistinctIoas<P>(slots: seq<Slot<P>>) {
    forall i, j :: 0 <= i < j < |slots| && slots[i].Pending? && slots[j].Pending? ==>
      slots[i].ioa != slots[j].ioa
  }

  ghost predicate DistinctVersions<P>(slots: seq<Slot<P>>) {
    forall i, j :: 0 <= i < j < |slots| && slots[i].Pending? && slots[j].Pending? ==>
      slots[i].version != slots[j].version
  }

  ghost predicate Bounded<P>(slots: seq<Slot<P>>, version: nat) {
    forall i :: 0 <= i < |slots| && slots[i].Pending? ==> 1 <= slots[i].version <= version
  }

  ghost predicate Apart<P, Q>(a: seq<Slot<P>>, b: seq<Slot<Q>>) {
    forall i, j :: 0 <= i < |a| && 0 <= j < |b| && a[i].Pending? && b[j].Pending? ==>
      a[i].version != b[j].version
  }

  /** What is pending, by address. */
  ghost function Content<P>(slots: seq<Slot<P>>): map<int, (P, nat)> {
    if slots == [] then map[]
    else
      var front, last := Content(slots[..|slots| - 1]), slots[|slots| - 1];
      if last.Pending? then front[last.ioa := (last.data, last.version)] else front
  }

  /** With one entry per address, the map holds exactly the pending entries. */
  lemma {:induction false} ContentMember<P>(slots: seq<Slot<P>>, ioa: int, data: P, version: nat)
    requires DistinctIoas(slots)
    ensures Pending(ioa, data, version) in slots
            <==> ioa in Content(slots) && Content(slots)[ioa] == (data, version)
    decreases |slots|
  {
    if slots != [] {
      var front, last := slots[..|slots| - 1], slots[|slots| - 1];
      ContentMember(front, ioa, data, version);
      assert slots == front + [last];
    }
  }

  /** The pending entries after a version, in slot order. */
  function After<P>(slots: seq<Slot<P>>, version: nat): (r: seq<Slot<P>>) {
    if slots == [] then []
    else
      var front, last := After(slots[..|slots| - 1], version), slots[|slots| - 1];
      if last.Pending? && last.version > version then front + [last] else front
  }

  lemma {:induction false} AfterMember<P>(slots: seq<Slot<P>>, version: nat, s: Slot<P>)
    ensures s in After(slots, version) <==> s in slots && s.Pending? && s.version > version
    decreases |slots|
  {
    if slots != [] {
      AfterMember(slots[..|slots| - 1], version, s);
      assert slots == slots[..|slots| - 1] + [slots[|slots| - 1]];
    }
  }

  /** A snapshot is the part of the map above a version. */
  lemma {:induction false} AfterIsNewer<P>(slots: seq<Slot<P>>, after: nat, ioa: int, data: P, version: nat)
    requires DistinctIoas(slots)
    ensures Pending(ioa, data, version) in After(slots, after)
            <==> ioa in Content(slots) && Content(slots)[ioa] == (data, version) && version > after
  {
    AfterMember(slots, after, Pending(ioa, data, version));
    ContentMember(slots, ioa, data, version);
  }

  lemma {:induction false} AfterConcat<P>(a: seq<Slot<P>>, b: seq<Slot<P>>, version: nat)
    ensures After(a + b, version) == After(a, version) + After(b, version)
    decreases |b|
  {
    if b == [] {
      assert a + b == a;
    } else {
      assert (a + b)[..|a + b| - 1] == a + b[..|b| - 1];
      AfterConcat(a, b[..|b| - 1], version);
    }
  }

  // ---- one put ----------------------------------------------------------------------------

  /** No slot is empty and none holds the address: the put fails. */
  ghost predicate Full<P>(slots: seq<Slot<P>>, ioa: int) {
    forall i :: 0 <= i < |slots| ==> slots[i].Pending? && slots[i].ioa != ioa
  }

  /** A put goes to the entry the address has, else to the first empty one. */
  ghost predicate Target<P>(slots: seq<Slot<P>>, ioa: int, at: nat)
    requires at < |slots|
  {
    if slots[at].Pending? then slots[at].ioa == ioa
    else
      && (forall i :: 0 <= i < |slots| && slots[i].Pending? ==> slots[i].ioa != ioa)
      && (forall i :: 0 <= i < at ==> !slots[i].Empty?)
  }

  /** The search loop of put_yx_locked and put_yc_locked. */
  method FindTarget<P>(slots: seq<Slot<P>>, ioa: int) returns (at: int)
    ensures -1 <= at < |slots|
    ensures at >= 0 ==> Target(slots, ioa, at)
    ensures at < 0 <==> Full(slots, ioa)
  {
    var empty, i := -1, 0;
    while i < |slots|
      invariant 0 <= i <= |slots| && -1 <= empty < i
      invariant forall j :: 0 <= j < i && slots[j].Pending? ==> slots[j].ioa != ioa
      invariant empty >= 0 ==> slots[empty].Empty?
      invariant forall j :: 0 <= j < (if empty < 0 then i else empty) ==> !slots[j].Empty?
    {
      if slots[i].Pending? && slots[i].ioa == ioa {
        return i;
      }
      if empty == -1 && slots[i].Empty? {
        empty := i;
      }
      i := i + 1;
    }
    return empty;
  }

  ghost predicate OnlyAt<P>(slots: seq<Slot<P>>, ioa: int, at: nat) {
    forall i :: 0 <= i < |slots| && i != at && slots[i].Pending? ==> slots[i].ioa != ioa
  }

  lemma {:induction false} PutDistinct<P>(slots: seq<Slot<P>>, at: nat, ioa: int, data: P, version: nat)
    requires DistinctIoas(slots) && at < |slots| && Target(slots, ioa, at)
    ensures OnlyAt(slots, ioa, at)
    ensures DistinctIoas(slots[at := Pending(ioa, data, version)])
  {
  }

  /** A put changes one key of the map. */
  lemma {:induction false} PutContent<P>(slots: seq<Slot<P>>, at: nat, ioa: int, data: P, version: nat)
    requires at < |slots| && OnlyAt(slots, ioa, at) && (slots[at].Pending? ==> slots[at].ioa == ioa)
    ensures Content(slots[at := Pending(ioa, data, version)]) == Content(slots)[ioa := (data, version)]
    decreases |slots|
  {
    var front, last := slots[..|slots| - 1], slots[|slots| - 1];
    var now := slots[at := Pending(ioa, data, version)];
    if at == |slots| - 1 {
      assert now[..|now| - 1] == front;
    } else {
      assert now[..|now| - 1] == front[at := Pending(ioa, data, version)];
      PutContent(front, at, ioa, data, version);
    }
  }

  lemma {:induction false} PutVersions<P>(slots: seq<Slot<P>>, at: nat, ioa: int, data: P, version: nat)
    requires DistinctVersions(slots) && Bounded(slots, version) && at < |slots|
    ensures var now := slots[at := Pending(ioa, data, version + 1)];
            DistinctVersions(now) && Bounded(now, version + 1)
  {
  }

  /** A put into one list keeps it apart from another. */
  lemma {:induction false} PutApart<P, Q>(a: seq<Slot<P>>, b: seq<Slot<Q>>, at: nat, ioa: int, data: P, version: nat)
    requires Apart(a, b) && Bounded(b, version) && at < |a|
    ensures Apart(a[at := Pending(ioa, data, version + 1)], b)
  {
  }

  lemma {:induction false} PutApartRight<P, Q>(a: seq<Slot<P>>, b: seq<Slot<Q>>, at: nat, ioa: int, data: Q, version: nat)
    requires Apart(a, b) && Bounded(a, version) && at < |b|
    ensures Apart(a, b[at := Pending(ioa, data, version + 1)])
  {
  }

  // ---- room for every point -------------------------------------------------------------------

  lemma {:induction false} Pigeonhole<P>(slots: seq<Slot<P>>, points: set<int>)
    requires DistinctIoas(slots)
    requires forall i :: 0 <= i < |slots| ==> slots[i].Pending? && slots[i].ioa in points
    ensures |slots| <= |points|
    decreases |slots|
  {
    if slots != [] {
      var last := slots[|slots| - 1];
      Pigeonhole(slots[..|slots| - 1], points - {last.ioa});
    }
  }

  /** An area with at least as many slots as the table has points takes every point. */
  lemma {:induction false} PutFits<P>(slots: seq<Slot<P>>, points: set<int>, ioa: int)
    requires DistinctIoas(slots) && ioa in points && |points| <= |slots|
    requires forall i :: 0 <= i < |slots| && slots[i].Pending? ==> slots[i].ioa in points
    ensures !Full(slots, ioa)
  {
    if Full(slots, ioa) {
      Pigeonhole(slots, points - {ioa});
    }
  }

  // ---- the area -------------------------------------------------------------------------------

  class UploadArea {
    var yx: seq<Slot<YxData>>
    var yc: seq<Slot<YcData>>
    var soe: seq<Slot<SoeData>>
    var version: nat
    var soeSequence: nat
    var soeNext: nat

    ghost predicate Valid()
      reads this
    {
      && 0 < |yx| && 0 < |yc| && soeNext < |soe|
      && Kept(version + 3, yx, yc, soe, version)
    }

    /** active_upload_init */
    constructor (yxCapacity: nat, ycCapacity: nat, soeCapacity: nat)
      ensures Valid() && version == 0 && soeSequence == 0 && soeNext == 0
      ensures |yx| == Room(yxCapacity) && |yc| == Room(ycCapacity) && |soe| == Room(soeCapacity)
      ensures Content(yx) == map[] && Content(yc) == map[] && forall i :: 0 <= i < |soe| ==> soe[i].Empty?
    {
      yx := seq(Room(yxCapacity), _ => Empty);
      yc := seq(Room(ycCapacity), _ => Empty);
      soe := seq(Room(soeCapacity), _ => Empty);
      version, soeSequence, soeNext := 0, 0, 0;
      new;
      KeptMeans(version + 3, yx, yc, soe, version);
      EmptyContent(yx);
      EmptyContent(yc);
    }

    /** active_upload_clear */
    method Clear()
      requires Valid()
      modifies this
      ensures Valid() && version == old(version) + 1
      ensures |yx| == old(|yx|) && |yc| == old(|yc|) && |soe| == old(|soe|)
      ensures Content(yx) == map[] && Content(yc) == map[]
      ensures soeSequence == 0 && soeNext == 0 && forall i :: 0 <= i < |soe| ==> soe[i].Empty?
    {
      yx := seq(|yx|, _ => Empty);
      yc := seq(|yc|, _ => Empty);
      soe := seq(|soe|, _ => Empty);
      version := version + 1;
      soeSequence, soeNext := 0, 0;
      KeptMeans(version + 3, yx, yc, soe, version);
      EmptyContent(yx);
      EmptyContent(yc);
    }

    /** put_yx_locked */
    method PutYx(ioa: int, data: YxData) returns (ok: bool)
      requires Valid()
      modifies this`yx, this`version
      ensures Valid() && |yx| == old(|yx|)
      ensures !ok ==> yx == old(yx) && version == old(version)
      ensures ok ==> version == old(version) + 1
      ensures ok ==> Content(yx) == Content(old(yx))[ioa := (data, version)]
      ensures ok <==> !Full(old(yx), ioa)
    {
      var at := FindTarget(yx, ioa);
      if at < 0 {
        return false;
      }
      PutYxKeeps(yx, yc, soe, version, at, ioa, data);
      version := version + 1;
      yx := yx[at := Pending(ioa, data, version)];
      return true;
    }

    /** put_yc_locked */
    method PutYc(ioa: int, data: YcData) returns (ok: bool)
      requires Valid()
      modifies this`yc, this`version
      ensures Valid() && |yc| == old(|yc|)
      ensures !ok ==> yc == old(yc) && version == old(version)
      ensures ok ==> version == old(version) + 1
      ensures ok ==> Content(yc) == Content(old(yc))[ioa := (data, version)]
      ensures ok <==> !Full(old(yc), ioa)
    {
      var at := FindTarget(yc, ioa);
      if at < 0 {
        return false;
      }
      PutYcKeeps(yx, yc, soe, version, at, ioa, data);
      version := version + 1;
      yc := yc[at := Pending(ioa, data, version)];
      return true;
    }

    /** put_soe_locked */
    method PutSoe(ioa: int, value: bool, quality: int, timestamp: nat)
      requires Valid()
      modifies this`soe, this`version, this`soeSequence, this`soeNext
      ensures Valid() && version == old(version) + 1 && soeSequence == old(soeSequence) + 1
      ensures soe == old(soe)[old(soeNext) := Pending(ioa, SoeData(value, quality, timestamp, soeSequence), version)]
      ensures soeNext == (old(soeNext) + 1) % |soe|
    {
      ghost var data := SoeData(value, quality, timestamp, soeSequence + 1);
      PutSoeKeeps(yx, yc, soe, version, soeNext, ioa, data);
      soeSequence := soeSequence + 1;
      version := version + 1;
      soe := soe[soeNext := Pending(ioa, SoeData(value, quality, timestamp, soeSequence), version)];
      soeNext := (soeNext + 1) % |soe|;
    }

    /** active_upload_put_yx */
    method PutYxEvent(ioa: int, data: YxData, withSoe: bool) returns (ok: bool)
      requires Valid()
      modifies this
      ensures Valid() && |yx| == old(|yx|) && yc == old(yc) && |soe| == old(|soe|)
      ensures ok <==> !Full(old(yx), ioa)
      ensures !ok ==> yx == old(yx) && soe == old(soe) && version == old(version)
      ensures ok ==> Content(yx) == Content(old(yx))[ioa := (data, old(version) + 1)]
      ensures ok ==> version == old(version) + if withSoe then 2 else 1
      ensures !ok || !withSoe ==> soe == old(soe) && soeNext == old(soeNext)
      ensures ok && withSoe ==>
                soe == old(soe)[old(soeNext) := Pending(ioa, SoeData(data.value, data.quality, data.timestamp, soeSequence), version)]
                && soeNext == (old(soeNext) + 1) % |soe|
    {
      ok := PutYx(ioa, data);
      if ok && withSoe {
        PutSoe(ioa, data.value, data.quality, data.timestamp);
      }
    }

    /** Any run of publications and clears: with a slot for every point of the table, no put
        of a table point ever fails. */
    method Publish(changes: seq<Change>, ghost yxPoints: set<int>, ghost ycPoints: set<int>)
      returns (oks: seq<bool>)
      requires Valid() && |yxPoints| <= |yx| && |ycPoints| <= |yc|
      requires Content(yx).Keys <= yxPoints && Content(yc).Keys <= ycPoints
      requires forall i :: 0 <= i < |changes| ==> FromTable(changes[i], yxPoints, ycPoints)
      modifies this
      ensures Valid() && |oks| == |changes| && forall i :: 0 <= i < |oks| ==> oks[i]
      ensures Content(yx).Keys <= yxPoints && Content(yc).Keys <= ycPoints
    {
      oks := [];
      for i := 0 to |changes|
        invariant |oks| == i && forall j :: 0 <= j < i ==> oks[j]
        invariant Valid() && |yx| == old(|yx|) && |yc| == old(|yc|)
        invariant Content(yx).Keys <= yxPoints && Content(yc).Keys <= ycPoints
      {
        assert FromTable(changes[i], yxPoints, ycPoints);
        var ok := true;
        match changes[i] {
          case YxChange(ioa, data, withSoe) =>
            assert !Full(yx, ioa) by {
              KeptMeans(version + 3, yx, yc, soe, version);
              ContentFits(yx, yxPoints, ioa);
            }
            ok := PutYxEvent(ioa, data, withSoe);
          case YcChange(ioa, data) =>
            assert !Full(yc, ioa) by {
              KeptMeans(version + 3, yx, yc, soe, version);
              ContentFits(yc, ycPoints, ioa);
            }
            ok := PutYc(ioa, data);
          case ClearAll =>
            Clear();
        }
        oks := oks + [ok];
      }
    }

    /** active_upload_snapshot_create */
    method SnapshotCreate(after: nat) returns (snapshot: Snapshot)
      requires Valid()
      ensures snapshot == Snapshot(version, After(yx, after), After(yc, after), After(soe, after))
    {
      var x := Collect(yx, after);
      var c := Collect(yc, after);
      var s := Collect(soe, after);
      return Snapshot(version, x, c, s);
    }
  }

  datatype Change =
    | YxChange(ioa: int, yx: YxData, withSoe: bool)
    | YcChange(ioa: int, yc: YcData)
    | ClearAll

  predicate FromTable(c: Change, yxPoints: set<int>, ycPoints: set<int>) {
    (c.YxChange? ==> c.ioa in yxPoints) && (c.YcChange? ==> c.ioa in ycPoints)
  }

  lemma {:induction false} ContentFits<P>(slots: seq<Slot<P>>, points: set<int>, ioa: int)
    requires DistinctIoas(slots) && Content(slots).Keys <= points && |points| <= |slots| && ioa in points
    ensures !Full(slots, ioa)
  {
    forall i | 0 <= i < |slots| && slots[i].Pending? ensures slots[i].ioa in points {
      ContentMember(slots, slots[i].ioa, slots[i].data, slots[i].version);
    }
    PutFits(slots, points, ioa);
  }

  // ---- the invariant of the area ------------------------------------------------------------

  ghost predicate Consistent<X, C, S>(yx: seq<Slot<X>>, yc: seq<Slot<C>>, soe: seq<Slot<S>>, version: nat) {
    && DistinctIoas(yx) && DistinctIoas(yc)
    && DistinctVersions(yx) && DistinctVersions(yc) && DistinctVersions(soe)
    && Bounded(yx, version) && Bounded(yc, version) && Bounded(soe, version)
    && Apart(yx, yc) && Apart(yx, soe) && Apart(yc, soe)
  }

  /** `Consistent`, with a counter so that the methods carry it as one fact. */
  ghost predicate Kept<X, C, S>(d: nat, yx: seq<Slot<X>>, yc: seq<Slot<C>>, soe: seq<Slot<S>>, version: nat)
    decreases d
  {
    if d > 0 then Kept(d - 1, yx, yc, soe, version) else Consistent(yx, yc, soe, version)
  }

  lemma {:induction false} KeptMeans<X, C, S>(d: nat, yx: seq<Slot<X>>, yc: seq<Slot<C>>, soe: seq<Slot<S>>, version: nat)
    ensures Kept(d, yx, yc, soe, version) <==> Consistent(yx, yc, soe, version)
    decreases d
  {
    if d > 0 {
      KeptMeans(d - 1, yx, yc, soe, version);
    }
  }

  lemma {:induction false} PutYxKeeps<X, C, S>(yx: seq<Slot<X>>, yc: seq<Slot<C>>, soe: seq<Slot<S>>, version: nat,
                            at: nat, ioa: int, data: X)
    requires Kept(version + 3, yx, yc, soe, version) && at < |yx| && Target(yx, ioa, at)
    ensures var now := yx[at := Pending(ioa, data, version + 1)];
            Kept(version + 4, now, yc, soe, version + 1) && Content(now) == Content(yx)[ioa := (data, version + 1)]
  {
    var now := yx[at := Pending(ioa, data, version + 1)];
    KeptMeans(version + 3, yx, yc, soe, version);
    PutDistinct(yx, at, ioa, data, version + 1);
    PutContent(yx, at, ioa, data, version + 1);
    PutVersions(yx, at, ioa, data, version);
    PutApart(yx, yc, at, ioa, data, version);
    PutApart(yx, soe, at, ioa, data, version);
    KeptMeans(version + 4, now, yc, soe, version + 1);
  }

  lemma {:induction false} PutYcKeeps<X, C, S>(yx: seq<Slot<X>>, yc: seq<Slot<C>>, soe: seq<Slot<S>>, version: nat,
                            at: nat, ioa: int, data: C)
    requires Kept(version + 3, yx, yc, soe, version) && at < |yc| && Target(yc, ioa, at)
    ensures var now := yc[at := Pending(ioa, data, version + 1)];
            Kept(version + 4, yx, now, soe, version + 1) && Content(now) == Content(yc)[ioa := (data, version + 1)]
  {
    var now := yc[at := Pending(ioa, data, version + 1)];
    KeptMeans(version + 3, yx, yc, soe, version);
    PutDistinct(yc, at, ioa, data, version + 1);
    PutContent(yc, at, ioa, data, version + 1);
    PutVersions(yc, at, ioa, data, version);
    PutApartRight(yx, yc, at, ioa, data, version);
    PutApart(yc, soe, at, ioa, data, version);
    KeptMeans(version + 4, yx, now, soe, version + 1);
  }

  lemma {:induction false} PutSoeKeeps<X, C, S>(yx: seq<Slot<X>>, yc: seq<Slot<C>>, soe: seq<Slot<S>>, version: nat,
                             at: nat, ioa: int, data: S)
    requires Kept(version + 3, yx, yc, soe, version) && at < |soe|
    ensures Kept(version + 4, yx, yc, soe[at := Pending(ioa, data, version + 1)], version + 1)
  {
    KeptMeans(version + 3, yx, yc, soe, version);
    PutVersions(soe, at, ioa, data, version);
    PutApartRight(yx, soe, at, ioa, data, version);
    PutApartRight(yc, soe, at, ioa, data, version);
    KeptMeans(version + 4, yx, yc, soe[at := Pending(ioa, data, version + 1)], version + 1);
  }

  lemma {:induction false} EmptyContent<P>(slots: seq<Slot<P>>)
    requires forall i :: 0 <= i < |slots| ==> slots[i].Empty?
    ensures Content(slots) == map[]
    decreases |slots|
  {
    if slots != [] {
      EmptyContent(slots[..|slots| - 1]);
    }
  }

  function Room(n: nat): nat { if n > 0 then n else 1 }

  /** The count_..._after loops. */
  method CountAfter<P>(slots: seq<Slot<P>>, after: nat) returns (count: nat)
    ensures count == |After(slots, after)|
  {
    count := 0;
    for i := 0 to |slots|
      invariant count == |After(slots[..i], after)|
    {
      assert slots[..i + 1][..i] == slots[..i];
      if slots[i].Pending? && slots[i].version > after {
        count := count + 1;
      }
    }
    assert slots[..|slots|] == slots;
  }

  /** Counting and copying: the copy fills exactly the counted room. */
  method Collect<P>(slots: seq<Slot<P>>, after: nat) returns (copy: seq<Slot<P>>)
    ensures copy == After(slots, after)
  {
    var count := CountAfter(slots, after);
    copy := seq(count, _ => Empty);
    var index := 0;
    for i := 0 to |slots|
      invariant |copy| == count == |After(slots, after)|
      invariant index == |After(slots[..i], after)| <= count && copy[..index] == After(slots[..i], after)
    {
      assert slots[..i + 1][..i] == slots[..i];
      AfterPrefix(slots, after, i + 1);
      if slots[i].Pending? && slots[i].version > after {
        copy := copy[index := slots[i]];
        index := index + 1;
      }
    }
    assert slots[..|slots|] == slots && copy[..index] == copy;
  }

  lemma {:induction false} AfterPrefix<P>(slots: seq<Slot<P>>, after: nat, i: nat)
    requires i <= |slots|
    ensures |After(slots[..i], after)| <= |After(slots, after)|
  {
    AfterConcat(slots[..i], slots[i..], after);
    assert slots[..i] + slots[i..] == slots;
  }
}
