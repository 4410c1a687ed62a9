/** Select before operate for setpoints (YT): frames of several setpoints that are taken as a
    whole or not at all. */
module RemoteAdjust {
  import opened Iec104

  datatype YtPoint = YtPoint(ioa: int, iecType: int, timeout: nat, min: real, max: real, value: real,
                             selectState: bool, selectedValue: real, deadline: nat)

  datatype Item = Item(ioa: int, value: real)

  /** A setpoint message; with no setpoint list it carries one setpoint of its own. */
  datatype Frame = Frame(typeId: int, cot: int, select: bool, setpoints: seq<Item>, single: Item)

  datatype Turn = Turn(frame: Frame, now: nat, connected: bool)

  function Items(f: Frame): (r: seq<Item>)
    ensures r != []
  {
    if f.setpoints != [] then f.setpoints else [f.single]
  }

  // ---- the table ------------------------------------------------------------------------

  ghost predicate FoundAt(yt: seq<YtPoint>, ioa: int, k: int) {
    && -1 <= k < |yt|
    && (k >= 0 ==> yt[k].ioa == ioa)
    && forall i :: 0 <= i < (if k < 0 then |yt| else k) ==> yt[i].ioa != ioa
  }

  function Find(yt: seq<YtPoint>, ioa: int): (k: int)
    ensures FoundAt(yt, ioa, k)
  {
    if yt == [] then -1
    else if yt[0].ioa == ioa then 0
    else
      var k := Find(yt[1..], ioa);
      if k < 0 then -1 else k + 1
  }

  lemma {:induction false} FindIs(yt: seq<YtPoint>, ioa: int, k: int)
    requires FoundAt(yt, ioa, k)
    ensures Find(yt, ioa) == k
  {
  }

  predicate TypeMatches(p: YtPoint, typeId: int) {
    (p.iecType == C_SE_NA_1 || p.iecType == C_SE_NB_1 || p.iecType == C_SE_NC_1) && p.iecType == typeId
  }

  predicate InRange(p: YtPoint, value: real) { p.min <= value <= p.max }

  function Cleared(p: YtPoint): YtPoint {
    p.(selectState := false, selectedValue := 0.0, deadline := 0)
  }

  predicate IsSelect(f: Frame) { f.cot != COT_DEACTIVATION && f.select }
  predicate IsExecute(f: Frame) { f.cot != COT_DEACTIVATION && !f.select }

  /** One setpoint passes the check of the whole frame. */
  predicate ItemOk(yt: seq<YtPoint>, t: Turn, item: Item) {
    var k := Find(yt, item.ioa);
    && k >= 0 && TypeMatches(yt[k], t.frame.typeId)
    && (IsSelect(t.frame) ==> InRange(yt[k], item.value))
    && (IsExecute(t.frame) ==>
          && yt[k].selectState && t.now <= yt[k].deadline
          && yt[k].selectedValue == item.value && InRange(yt[k], item.value))
  }

  predicate Accepted(yt: seq<YtPoint>, t: Turn) {
    forall i :: 0 <= i < |Items(t.frame)| ==> ItemOk(yt, t, Items(t.frame)[i])
  }

  /** The setpoints of a frame go out to the output adapter. */
  predicate CarriedOut(yt: seq<YtPoint>, t: Turn) { IsExecute(t.frame) && Accepted(yt, t) && t.connected }

  /** What one setpoint of a frame does to its point, `ok` saying whether the frame passed. */
  function Effect(p: YtPoint, t: Turn, ok: bool, value: real): YtPoint {
    if ok && IsSelect(t.frame) then
      p.(selectState := true, selectedValue := value, deadline := t.now + p.timeout)
    else if ok && IsExecute(t.frame) && t.connected then Cleared(p.(value := value))
    else Cleared(p)
  }

  function ApplyItem(yt: seq<YtPoint>, t: Turn, ok: bool, item: Item): (r: seq<YtPoint>)
    ensures |r| == |yt|
  {
    var k := Find(yt, item.ioa);
    if k < 0 then yt else yt[k := Effect(yt[k], t, ok, item.value)]
  }

  /** The setpoints one after the other. */
  function Applied(yt: seq<YtPoint>, t: Turn, ok: bool, items: seq<Item>): (r: seq<YtPoint>)
    ensures |r| == |yt|
  {
    if items == [] then yt
    else ApplyItem(Applied(yt, t, ok, items[..|items| - 1]), t, ok, items[|items| - 1])
  }

  function Next(yt: seq<YtPoint>, t: Turn): (r: seq<YtPoint>)
    ensures |r| == |yt|
  {
    Applied(yt, t, Accepted(yt, t), Items(t.frame))
  }

  // ---- the code -----------------------------------------------------------------------------

  class YtServer {
    var yt: seq<YtPoint>
    var connected: bool
    var outputs: seq<Item>           // what the output adapter was given

    constructor (yt: seq<YtPoint>, connected: bool)
      ensures this.yt == yt && this.connected == connected && outputs == []
    {
      this.yt, this.connected, outputs := yt, connected, [];
    }

    /** point_table_find_yt */
    method FindYt(ioa: int) returns (k: int)
      ensures k == Find(yt, ioa)
    {
      k := 0;
      while k < |yt|
        invariant 0 <= k <= |yt| && forall i :: 0 <= i < k ==> yt[i].ioa != ioa
      {
        if yt[k].ioa == ioa {
          FindIs(yt, ioa, k);
          return;
        }
        k := k + 1;
      }
      k := -1;
      FindIs(yt, ioa, k);
    }

    /** The body of the checking loop. */
    method CheckItem(f: Frame, now: nat, item: Item) returns (ok: bool)
      ensures ok == ItemOk(yt, Turn(f, now, connected), item)
    {
      var k := FindYt(item.ioa);
      if k < 0 {
        return false;
      } else if !TypeMatches(yt[k], f.typeId) {
        return false;
      }
      if f.cot == COT_DEACTIVATION {
        return true;
      }
      if f.select {
        return !(item.value < yt[k].min || item.value > yt[k].max);
      }
      if !yt[k].selectState {
        return false;
      } else if now > yt[k].deadline {
        return false;
      } else if yt[k].selectedValue != item.value {
        return false;
      } else if item.value < yt[k].min || item.value > yt[k].max {
        return false;
      }
      return true;
    }

    /** The first loop: one bad setpoint rejects the frame. */
    method CheckFrame(f: Frame, now: nat) returns (rejected: bool)
      ensures rejected == !Accepted(yt, Turn(f, now, connected))
    {
      var items := Items(f);
      rejected := false;
      for i := 0 to |items|
        invariant rejected <==> exists j :: 0 <= j < i && !ItemOk(yt, Turn(f, now, connected), items[j])
      {
        var ok := CheckItem(f, now, items[i]);
        if !ok {
          rejected := true;
        }
      }
    }

    /** shm_adapter_write_yt */
    method WriteYt(item: Item) returns (ok: bool)
      modifies this`outputs
      ensures ok == connected
      ensures outputs == if ok then old(outputs) + [item] else old(outputs)
    {
      if !connected {
        return false;
      }
      outputs := outputs + [item];
      return true;
    }

    /** The body of the applying loop. */
    method Apply(f: Frame, now: nat, item: Item) returns (failed: bool)
      requires Find(yt, item.ioa) >= 0
      modifies this`yt, this`outputs
      ensures yt == ApplyItem(old(yt), Turn(f, now, connected), true, item)
      ensures failed == (IsExecute(f) && !connected)
      ensures outputs == old(outputs) + if IsExecute(f) && connected then [item] else []
    {
      failed := false;
      var k := FindYt(item.ioa);
      if f.cot == COT_DEACTIVATION {
        yt := yt[k := Cleared(yt[k])];
      } else if f.select {
        yt := yt[k := yt[k].(selectState := true, selectedValue := item.value, deadline := now + yt[k].timeout)];
      } else {
        var written := WriteYt(item);
        if !written {
          failed := true;
          yt := yt[k := Cleared(yt[k])];
        } else {
          yt := yt[k := yt[k].(value := item.value)];
          yt := yt[k := Cleared(yt[k])];
        }
      }
    }

    /** The second loop of a rejected frame. */
    method ClearFrame(f: Frame, ghost now: nat)
      modifies this`yt
      ensures yt == Applied(old(yt), Turn(f, now, connected), false, Items(f))
    {
      var items := Items(f);
      for i := 0 to |items|
        invariant yt == Applied(old(yt), Turn(f, now, connected), false, items[..i])
      {
        assert items[..i + 1][..i] == items[..i];
        var k := FindYt(items[i].ioa);
        if k >= 0 {
          yt := yt[k := Cleared(yt[k])];
        }
      }
      assert items[..|items|] == items;
    }

    /** The second loop of a frame that passed. */
    method ApplyFrame(f: Frame, now: nat) returns (failed: bool)
      requires Accepted(yt, Turn(f, now, connected))
      modifies this`yt, this`outputs
      ensures yt == Applied(old(yt), Turn(f, now, connected), true, Items(f))
      ensures failed == (IsExecute(f) && !connected)
      ensures outputs == old(outputs) + if IsExecute(f) && connected then Items(f) else []
    {
      var items := Items(f);
      failed := false;
      for i := 0 to |items|
        invariant yt == Applied(old(yt), Turn(f, now, connected), true, items[..i])
        invariant failed == (IsExecute(f) && !connected && i > 0)
        invariant outputs == old(outputs) + if IsExecute(f) && connected then items[..i] else []
      {
        assert items[..i + 1][..i] == items[..i] && items[..i + 1] == items[..i] + [items[i]];
        AppliedFind(old(yt), Turn(f, now, connected), true, items[..i], items[i].ioa);
        assert ItemOk(old(yt), Turn(f, now, connected), items[i]);
        var bad := Apply(f, now, items[i]);
        if bad {
          failed := true;
        }
      }
      assert items[..|items|] == items;
    }

    /** handle_remote_adjust_work */
    method HandleRemoteAdjust(f: Frame, now: nat) returns (cot: int)
      modifies this`yt, this`outputs
      ensures yt == Next(old(yt), Turn(f, now, connected))
      ensures outputs == old(outputs)
              + (if CarriedOut(old(yt), Turn(f, now, connected)) then Items(f) else [])
      ensures cot == (if Accepted(old(yt), Turn(f, now, connected)) && f.select && f.cot == COT_ACTIVATION
                      then COT_ACTIVATION_CON else COT_ACTIVATION_TERMINATION)
    {
      cot := COT_ACTIVATION_TERMINATION;
      var rejected := CheckFrame(f, now);
      if rejected {
        ClearFrame(f, now);
      } else {
        rejected := ApplyFrame(f, now);
      }
      if rejected {
        cot := COT_ACTIVATION_TERMINATION;
      } else if f.select && f.cot == COT_ACTIVATION {
        cot := COT_ACTIVATION_CON;
      }
    }

    /** point_table_set_yt */
    method SetYt(ioa: int, value: real) returns (ok: bool)
      modifies this`yt
      ensures yt == SetValue(old(yt), ioa, value)
      ensures ok <==> Find(old(yt), ioa) >= 0 && InRange(old(yt)[Find(old(yt), ioa)], value)
    {
      var k := FindYt(ioa);
      if k < 0 {
        return false;
      }
      if value < yt[k].min || value > yt[k].max {
        return false;
      }
      yt := yt[k := yt[k].(value := value)];
      return true;
    }
  }

  function SetValue(yt: seq<YtPoint>, ioa: int, value: real): (r: seq<YtPoint>)
    ensures |r| == |yt|
  {
    var k := Find(yt, ioa);
    if k >= 0 && InRange(yt[k], value) then yt[k := yt[k].(value := value)] else yt
  }

  // ---- a frame as a whole ---------------------------------------------------------------------

  ghost predicate SameLayout(a: seq<YtPoint>, b: seq<YtPoint>) {
    |a| == |b| && forall i :: 0 <= i < |a| ==>
      a[i].ioa == b[i].ioa && a[i].iecType == b[i].iecType && a[i].timeout == b[i].timeout
      && a[i].min == b[i].min && a[i].max == b[i].max
  }

  lemma {:induction false} SameFind(a: seq<YtPoint>, b: seq<YtPoint>, ioa: int)
    requires SameLayout(a, b)
    ensures Find(a, ioa) == Find(b, ioa)
  {
  }

  lemma {:induction false} AppliedLayout(yt: seq<YtPoint>, t: Turn, ok: bool, items: seq<Item>)
    ensures SameLayout(yt, Applied(yt, t, ok, items))
    decreases |items|
  {
    if items != [] {
      AppliedLayout(yt, t, ok, items[..|items| - 1]);
    }
  }

  lemma {:induction false} AppliedFind(yt: seq<YtPoint>, t: Turn, ok: bool, items: seq<Item>, ioa: int)
    ensures Find(Applied(yt, t, ok, items), ioa) == Find(yt, ioa)
  {
    AppliedLayout(yt, t, ok, items);
    SameFind(yt, Applied(yt, t, ok, items), ioa);
  }

  /** The last setpoint of a list for point k, or -1. */
  function LastFor(yt: seq<YtPoint>, items: seq<Item>, k: nat): (i: int)
    ensures -1 <= i < |items|
    ensures i >= 0 ==> Find(yt, items[i].ioa) == k
    ensures i < 0 ==> forall j :: 0 <= j < |items| ==> Find(yt, items[j].ioa) != k
  {
    if items == [] then -1
    else if Find(yt, items[|items| - 1].ioa) == k then |items| - 1
    else LastFor(yt, items[..|items| - 1], k)
  }

  /** Point by point, a frame has the effect of the last setpoint it has for the point. */
  lemma {:induction false} AppliedPoint(yt: seq<YtPoint>, t: Turn, ok: bool, items: seq<Item>, k: nat)
    requires k < |yt|
    ensures var i := LastFor(yt, items, k);
            Applied(yt, t, ok, items)[k] == if i < 0 then yt[k] else Effect(yt[k], t, ok, items[i].value)
    decreases |items|
  {
    if items != [] {
      var front, last := items[..|items| - 1], items[|items| - 1];
      AppliedPoint(yt, t, ok, front, k);
      AppliedFind(yt, t, ok, front, last.ioa);
    }
  }

  /** All or nothing: an accepted execute frame gives every setpoint its value; any other
      frame leaves every value; and a frame leaves the points it does not list alone. */
  lemma {:induction false} FrameAtomic(yt: seq<YtPoint>, t: Turn)
    ensures var r, items := Next(yt, t), Items(t.frame);
            && (CarriedOut(yt, t) ==>
                  forall i :: 0 <= i < |items| ==>
                    var k := Find(yt, items[i].ioa); k >= 0 && r[k] == Cleared(yt[k].(value := items[i].value)))
            && (!CarriedOut(yt, t) ==>
                  forall k :: 0 <= k < |yt| ==> r[k].value == yt[k].value)
            && (forall k :: 0 <= k < |yt| && LastFor(yt, items, k) < 0 ==> r[k] == yt[k])
  {
    var r, items, ok := Next(yt, t), Items(t.frame), Accepted(yt, t);
    forall k | 0 <= k < |yt|
      ensures var i := LastFor(yt, items, k);
              r[k] == if i < 0 then yt[k] else Effect(yt[k], t, ok, items[i].value)
    {
      AppliedPoint(yt, t, ok, items, k);
    }
    if ok && IsExecute(t.frame) && t.connected {
      forall i | 0 <= i < |items|
        ensures var k := Find(yt, items[i].ioa); k >= 0 && r[k] == Cleared(yt[k].(value := items[i].value))
      {
        assert ItemOk(yt, t, items[i]);
        assert ItemOk(yt, t, items[LastFor(yt, items, Find(yt, items[i].ioa))]);
      }
    }
  }

  /** A frame that is rejected, or whose output fails, leaves no selection on what it lists. */
  lemma {:induction false} RejectionClears(yt: seq<YtPoint>, t: Turn, i: nat)
    requires i < |Items(t.frame)| && Find(yt, Items(t.frame)[i].ioa) >= 0
    requires !Accepted(yt, t) || !IsSelect(t.frame)
    ensures !Next(yt, t)[Find(yt, Items(t.frame)[i].ioa)].selectState
  {
    AppliedPoint(yt, t, Accepted(yt, t), Items(t.frame), Find(yt, Items(t.frame)[i].ioa));
  }

  // ---- whole runs -----------------------------------------------------------------------------

  /** What can change setpoints: frames from masters, and point_table_set_yt. */
  datatype Op = Receive(turn: Turn) | Set(ioa: int, value: real)

  function Step(yt: seq<YtPoint>, op: Op): (r: seq<YtPoint>)
    ensures |r| == |yt|
  {
    match op
    case Receive(t) => Next(yt, t)
    case Set(ioa, value) => SetValue(yt, ioa, value)
  }

  function At(yt: seq<YtPoint>, ops: seq<Op>, n: nat): (r: seq<YtPoint>)
    requires n <= |ops|
    ensures |r| == |yt|
  {
    if n == 0 then yt else Step(At(yt, ops, n - 1), ops[n - 1])
  }

  ghost predicate AllInRange(yt: seq<YtPoint>) {
    forall k :: 0 <= k < |yt| ==> InRange(yt[k], yt[k].value)
  }

  lemma {:induction false} NextInRange(yt: seq<YtPoint>, t: Turn)
    requires AllInRange(yt)
    ensures AllInRange(Next(yt, t))
  {
    var items, ok := Items(t.frame), Accepted(yt, t);
    forall k | 0 <= k < |yt| ensures InRange(Next(yt, t)[k], Next(yt, t)[k].value) {
      AppliedPoint(yt, t, ok, items, k);
      var i := LastFor(yt, items, k);
      if i >= 0 && ok {
        assert ItemOk(yt, t, items[i]);
      }
    }
  }

  /** Every setpoint stays within its limits over every run. */
  lemma {:induction false} RunInRange(yt: seq<YtPoint>, ops: seq<Op>, n: nat)
    requires AllInRange(yt) && n <= |ops|
    ensures AllInRange(At(yt, ops, n))
    decreases n
  {
    if n > 0 {
      RunInRange(yt, ops, n - 1);
      if ops[n - 1].Receive? {
        NextInRange(At(yt, ops, n - 1), ops[n - 1].turn);
      }
    }
  }

  lemma {:induction false} RunLayout(yt: seq<YtPoint>, ops: seq<Op>, n: nat)
    requires n <= |ops|
    ensures SameLayout(yt, At(yt, ops, n))
    decreases n
  {
    if n > 0 {
      RunLayout(yt, ops, n - 1);
      var before := At(yt, ops, n - 1);
      if ops[n - 1].Receive? {
        var t := ops[n - 1].turn;
        AppliedLayout(before, t, Accepted(before, t), Items(t.frame));
      }
    }
  }

  /** Operation n is a frame that lists point k. */
  predicate Lists(yt: seq<YtPoint>, op: Op, k: nat) {
    op.Receive? && LastFor(yt, Items(op.turn.frame), k) >= 0
  }

  /** The last frame among the first n operations that lists point k, or -1. */
  function Previous(yt: seq<YtPoint>, ops: seq<Op>, k: nat, n: nat): (j: int)
    requires n <= |ops|
    ensures -1 <= j < n
    ensures j >= 0 ==> Lists(yt, ops[j], k)
    ensures forall i :: j < i < n ==> !Lists(yt, ops[i], k)
  {
    if n == 0 then -1
    else if Lists(yt, ops[n - 1], k) then n - 1
    else Previous(yt, ops, k, n - 1)
  }

  /** Frame j selected what it lists. */
  predicate Selects(yt: seq<YtPoint>, ops: seq<Op>, j: nat)
    requires j < |ops|
  {
    ops[j].Receive? && IsSelect(ops[j].turn.frame) && Accepted(At(yt, ops, j), ops[j].turn)
  }

  /** The value frame j has for point k. */
  function ValueFor(yt: seq<YtPoint>, op: Op, k: nat): real
    requires Lists(yt, op, k)
  {
    Items(op.turn.frame)[LastFor(yt, Items(op.turn.frame), k)].value
  }

  lemma {:induction false} SameLast(a: seq<YtPoint>, b: seq<YtPoint>, items: seq<Item>, k: nat)
    requires SameLayout(a, b)
    ensures LastFor(a, items, k) == LastFor(b, items, k)
    decreases |items|
  {
    if items != [] {
      SameFind(a, b, items[|items| - 1].ioa);
      SameLast(a, b, items[..|items| - 1], k);
    }
  }

  /** One operation, seen from point k. */
  lemma {:induction false} PointStep(yt: seq<YtPoint>, ops: seq<Op>, k: nat, n: nat)
    requires k < |yt| && n < |ops|
    ensures var p, p' := At(yt, ops, n)[k], At(yt, ops, n + 1)[k];
            if Lists(yt, ops[n], k)
            then p' == Effect(p, ops[n].turn, Accepted(At(yt, ops, n), ops[n].turn), ValueFor(yt, ops[n], k))
            else p' == p.(value := p'.value)
  {
    var now := At(yt, ops, n);
    RunLayout(yt, ops, n);
    if ops[n].Receive? {
      var t := ops[n].turn;
      AppliedPoint(now, t, Accepted(now, t), Items(t.frame), k);
      SameLast(yt, now, Items(t.frame), k);
    }
  }

  /** A setpoint is selected exactly when the last frame that lists it was an accepted
      selection; it then remembers that frame's value and time. */
  lemma {:induction false} SelectedIff(yt: seq<YtPoint>, ops: seq<Op>, k: nat, n: nat)
    requires k < |yt| && n <= |ops| && !yt[k].selectState
    ensures var p, j := At(yt, ops, n)[k], Previous(yt, ops, k, n);
            && (p.selectState <==> j >= 0 && Selects(yt, ops, j))
            && (p.selectState ==> p.selectedValue == ValueFor(yt, ops[j], k)
                                  && p.deadline == ops[j].turn.now + yt[k].timeout)
    decreases n
  {
    if n > 0 {
      SelectedIff(yt, ops, k, n - 1);
      PointStep(yt, ops, k, n - 1);
      RunLayout(yt, ops, n - 1);
    }
  }

  /** A setpoint of an execute frame is in order: known, of the right type, within limits, and
      the frame before that listed it was an accepted selection of the same value that has not
      timed out. */
  predicate Authorised(yt: seq<YtPoint>, ops: seq<Op>, n: nat, item: Item)
    requires n < |ops| && ops[n].Receive?
  {
    var k := Find(yt, item.ioa);
    && k >= 0 && TypeMatches(yt[k], ops[n].turn.frame.typeId) && InRange(yt[k], item.value)
    && var j := Previous(yt, ops, k, n);
       && j >= 0 && Selects(yt, ops, j) && ValueFor(yt, ops[j], k) == item.value
       && ops[n].turn.now <= ops[j].turn.now + yt[k].timeout
  }

  lemma {:induction false} ItemAuthorised(yt: seq<YtPoint>, ops: seq<Op>, n: nat, item: Item)
    requires n < |ops| && ops[n].Receive? && IsExecute(ops[n].turn.frame)
    requires forall k :: 0 <= k < |yt| ==> !yt[k].selectState
    ensures ItemOk(At(yt, ops, n), ops[n].turn, item) <==> Authorised(yt, ops, n, item)
  {
    RunLayout(yt, ops, n);
    SameFind(yt, At(yt, ops, n), item.ioa);
    var k := Find(yt, item.ioa);
    if k >= 0 {
      SelectedIff(yt, ops, k, n);
    }
  }

  /** The law of the procedure, for every run: an execute frame is carried out if and only if
      the output adapter is connected and each of its setpoints is authorised. */
  lemma {:induction false} ExecutesIff(yt: seq<YtPoint>, ops: seq<Op>, n: nat)
    requires n < |ops| && ops[n].Receive? && IsExecute(ops[n].turn.frame)
    requires forall k :: 0 <= k < |yt| ==> !yt[k].selectState
    ensures var items := Items(ops[n].turn.frame);
            CarriedOut(At(yt, ops, n), ops[n].turn) <==>
            ops[n].turn.connected && forall i :: 0 <= i < |items| ==> Authorised(yt, ops, n, items[i])
  {
    var items := Items(ops[n].turn.frame);
    forall i | 0 <= i < |items|
      ensures ItemOk(At(yt, ops, n), ops[n].turn, items[i]) <==> Authorised(yt, ops, n, items[i])
    {
      ItemAuthorised(yt, ops, n, items[i]);
    }
  }
}
