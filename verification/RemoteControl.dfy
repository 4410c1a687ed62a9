/** Select before operate for remote control points (YK), following section 6.8 of
    IEC 60870-5-5: a command is executed only right after its own selection. */
module RemoteControl {
  import opened Iec104

  const DOUBLE_POINT_OFF := 1
  const DOUBLE_POINT_ON := 2

  datatype YkPoint = YkPoint(ioa: int, iecType: int, timeout: nat, state: int,
                             selectState: bool, selectedValue: int, deadline: nat)

  datatype Msg = Msg(ioa: int, typeId: int, cot: int, select: bool, value: int)

  /** A message, when it is handled, and whether the output adapter is connected then. */
  datatype Turn = Turn(msg: Msg, now: nat, connected: bool)

  // ---- the table --------------------------------------------------------------------------

  ghost predicate FoundAt(yk: seq<YkPoint>, ioa: int, k: int) {
    && -1 <= k < |yk|
    && (k >= 0 ==> yk[k].ioa == ioa)
    && forall i :: 0 <= i < (if k < 0 then |yk| else k) ==> yk[i].ioa != ioa
  }

  /** The first point with an address, or -1. */
  function Find(yk: seq<YkPoint>, ioa: int): (k: int)
    ensures FoundAt(yk, ioa, k)
  {
    if yk == [] then -1
    else if yk[0].ioa == ioa then 0
    else
      var k := Find(yk[1..], ioa);
      if k < 0 then -1 else k + 1
  }

  lemma {:induction false} FindIs(yk: seq<YkPoint>, ioa: int, k: int)
    requires FoundAt(yk, ioa, k)
    ensures Find(yk, ioa) == k
  {
  }

  predicate TypeMatches(p: YkPoint, typeId: int) {
    (p.iecType == C_SC_NA_1 && typeId == C_SC_NA_1) || (p.iecType == C_DC_NA_1 && typeId == C_DC_NA_1)
  }

  /** Whether a command value can be put out: a double point takes only on and off. */
  predicate ValidValue(p: YkPoint, value: int) {
    p.iecType == C_DC_NA_1 ==> value == DOUBLE_POINT_OFF || value == DOUBLE_POINT_ON
  }

  function Cleared(p: YkPoint): YkPoint {
    p.(selectState := false, selectedValue := 0, deadline := 0)
  }

  predicate IsExecute(m: Msg) { m.cot != COT_DEACTIVATION && !m.select }
  predicate IsSelect(m: Msg) { m.cot != COT_DEACTIVATION && m.select }

  /** The point decides to execute. */
  predicate Fires(p: YkPoint, t: Turn) {
    && IsExecute(t.msg) && p.selectState && t.now <= p.deadline && p.selectedValue == t.msg.value
    && ValidValue(p, t.msg.value) && t.connected
  }

  /** What a message of the right type does to its point. */
  function After(p: YkPoint, t: Turn): YkPoint {
    if IsSelect(t.msg) then
      p.(selectState := true, selectedValue := t.msg.value, deadline := t.now + p.timeout)
    else if Fires(p, t) then Cleared(p.(state := t.msg.value))
    else Cleared(p)
  }

  /** The point a message is for: found, and of the right type. */
  predicate Concerns(yk: seq<YkPoint>, t: Turn, k: nat)
    requires k < |yk|
  {
    Find(yk, t.msg.ioa) == k && TypeMatches(yk[k], t.msg.typeId)
  }

  function Next(yk: seq<YkPoint>, t: Turn): (r: seq<YkPoint>)
    ensures |r| == |yk|
  {
    var k := Find(yk, t.msg.ioa);
    if k >= 0 && Concerns(yk, t, k) then yk[k := After(yk[k], t)] else yk
  }

  // ---- the code -----------------------------------------------------------------------------

  class YkServer {
    var yk: seq<YkPoint>
    var connected: bool
    var outputs: seq<(int, bool)>     // what the output adapter was given

    constructor (yk: seq<YkPoint>, connected: bool)
      ensures this.yk == yk && this.connected == connected && outputs == []
    {
      this.yk, this.connected, outputs := yk, connected, [];
    }

    /** point_table_find_yk */
    method FindYk(ioa: int) returns (k: int)
      ensures k == Find(yk, ioa)
    {
      k := 0;
      while k < |yk|
        invariant 0 <= k <= |yk| && forall i :: 0 <= i < k ==> yk[i].ioa != ioa
      {
        if yk[k].ioa == ioa {
          FindIs(yk, ioa, k);
          return;
        }
        k := k + 1;
      }
      k := -1;
      FindIs(yk, ioa, k);
    }

    /** remote_control_output_state */
    method OutputState(p: YkPoint, value: int) returns (ok: bool, output: bool)
      ensures ok == ValidValue(p, value)
      ensures ok ==> output == (if p.iecType == C_DC_NA_1 then value == DOUBLE_POINT_ON else value != 0)
    {
      if p.iecType == C_DC_NA_1 {
        if value == DOUBLE_POINT_OFF {
          return true, false;
        }
        if value == DOUBLE_POINT_ON {
          return true, true;
        }
        return false, false;
      }
      return true, value != 0;
    }

    /** shm_adapter_write_yk */
    method WriteYk(ioa: int, output: bool) returns (ok: bool)
      modifies this`outputs
      ensures ok == connected
      ensures outputs == if ok then old(outputs) + [(ioa, output)] else old(outputs)
    {
      if !connected {
        return false;
      }
      outputs := outputs + [(ioa, output)];
      return true;
    }

    method ClearSelection(k: nat)
      requires k < |yk|
      modifies this`yk
      ensures yk == old(yk)[k := Cleared(old(yk)[k])]
    {
      yk := yk[k := yk[k].(selectState := false, selectedValue := 0, deadline := 0)];
    }

    /** handle_remote_control_work: the table moves as `Next` says, the adapter is written
        exactly when the point fires, and only a selection is confirmed. */
    method HandleRemoteControl(msg: Msg, now: nat) returns (cot: int)
      modifies this`yk, this`outputs
      ensures yk == Next(old(yk), Turn(msg, now, connected))
      ensures var k := Find(old(yk), msg.ioa);
              var concerns := k >= 0 && Concerns(old(yk), Turn(msg, now, connected), k);
              && (outputs != old(outputs) <==> concerns && Fires(old(yk)[k], Turn(msg, now, connected)))
              && (outputs != old(outputs) ==>
                    outputs == old(outputs) + [(msg.ioa, if old(yk)[k].iecType == C_DC_NA_1
                                                         then msg.value == DOUBLE_POINT_ON else msg.value != 0)])
              && cot == (if concerns && IsSelect(msg) then COT_ACTIVATION_CON else COT_ACTIVATION_TERMINATION)
    {
      var rejected := false;
      cot := COT_ACTIVATION_TERMINATION;
      var k := FindYk(msg.ioa);
      if k < 0 {
        rejected := true;
      } else if !TypeMatches(yk[k], msg.typeId) {
        rejected := true;
      } else if msg.cot == COT_DEACTIVATION {
        ClearSelection(k);
      } else if msg.select {
        yk := yk[k := yk[k].(selectState := true, selectedValue := msg.value, deadline := now + yk[k].timeout)];
        cot := COT_ACTIVATION_CON;
      } else {
        if !yk[k].selectState {
          rejected := true;
        } else if now > yk[k].deadline {
          ClearSelection(k);
          rejected := true;
        } else if yk[k].selectedValue != msg.value {
          ClearSelection(k);
          rejected := true;
        } else {
          rejected := Output(k, msg);
        }
        if rejected {
          ClearSelection(k);
        }
      }
      if rejected {
        cot := COT_ACTIVATION_TERMINATION;
      }
    }

    /** The innermost branch of the handler: put the value out and take it over. */
    method Output(k: nat, msg: Msg) returns (rejected: bool)
      requires k < |yk|
      modifies this`yk, this`outputs
      ensures rejected == !(ValidValue(old(yk)[k], msg.value) && connected)
      ensures yk == if rejected then old(yk) else old(yk)[k := Cleared(old(yk)[k].(state := msg.value))]
      ensures rejected ==> outputs == old(outputs)
      ensures !rejected ==>
                outputs == old(outputs) + [(msg.ioa, if old(yk)[k].iecType == C_DC_NA_1
                                                     then msg.value == DOUBLE_POINT_ON else msg.value != 0)]
    {
      var ok, output := OutputState(yk[k], msg.value);
      if !ok {
        return true;
      }
      var written := WriteYk(msg.ioa, output);
      if !written {
        return true;
      }
      yk := yk[k := yk[k].(state := msg.value)];
      ClearSelection(k);
      return false;
    }
  }

  // ---- whole traces -------------------------------------------------------------------------

  /** The table after the first n messages. */
  function At(yk: seq<YkPoint>, trace: seq<Turn>, n: nat): (r: seq<YkPoint>)
    requires n <= |trace|
    ensures |r| == |yk|
  {
    if n == 0 then yk else Next(At(yk, trace, n - 1), trace[n - 1])
  }

  /** The last message for point k among the first n, or -1. */
  function Previous(yk: seq<YkPoint>, trace: seq<Turn>, k: nat, n: nat): (j: int)
    requires k < |yk| && n <= |trace|
    ensures -1 <= j < n
    ensures j >= 0 ==> Concerns(yk, trace[j], k)
    ensures forall i :: j < i < n ==> !Concerns(yk, trace[i], k)
  {
    if n == 0 then -1
    else if Concerns(yk, trace[n - 1], k) then n - 1
    else Previous(yk, trace, k, n - 1)
  }

  /** Point k puts out the value of message n. */
  predicate Executes(yk: seq<YkPoint>, trace: seq<Turn>, k: nat, n: nat)
    requires k < |yk| && n < |trace|
  {
    Concerns(yk, trace[n], k) && Fires(At(yk, trace, n)[k], trace[n])
  }

  /** What a message never changes: addresses, types and timeouts, so also who it is for. */
  ghost predicate SameLayout(a: seq<YkPoint>, b: seq<YkPoint>) {
    |a| == |b| && forall i :: 0 <= i < |a| ==>
      a[i].ioa == b[i].ioa && a[i].iecType == b[i].iecType && a[i].timeout == b[i].timeout
  }

  lemma {:induction false} SameFind(a: seq<YkPoint>, b: seq<YkPoint>, ioa: int)
    requires SameLayout(a, b)
    ensures Find(a, ioa) == Find(b, ioa)
  {
  }

  lemma {:induction false} LayoutKept(yk: seq<YkPoint>, trace: seq<Turn>, n: nat)
    requires n <= |trace|
    ensures SameLayout(yk, At(yk, trace, n))
    decreases n
  {
    if n > 0 {
      LayoutKept(yk, trace, n - 1);
    }
  }

  /** One message, seen from point k. */
  lemma {:induction false} PointStep(yk: seq<YkPoint>, trace: seq<Turn>, k: nat, n: nat)
    requires k < |yk| && n < |trace|
    ensures At(yk, trace, n + 1)[k] ==
            if Concerns(yk, trace[n], k) then After(At(yk, trace, n)[k], trace[n]) else At(yk, trace, n)[k]
  {
    var now := At(yk, trace, n);
    LayoutKept(yk, trace, n);
    SameFind(yk, now, trace[n].msg.ioa);
  }

  /** A point is selected exactly when the last message for it was a selection; it then
      remembers that message's value and time. */
  lemma {:induction false} SelectedIff(yk: seq<YkPoint>, trace: seq<Turn>, k: nat, n: nat)
    requires k < |yk| && n <= |trace| && !yk[k].selectState
    ensures var p, j := At(yk, trace, n)[k], Previous(yk, trace, k, n);
            && (p.selectState <==> j >= 0 && IsSelect(trace[j].msg))
            && (p.selectState ==> p.selectedValue == trace[j].msg.value && p.deadline == trace[j].now + yk[k].timeout)
    decreases n
  {
    if n > 0 {
      SelectedIff(yk, trace, k, n - 1);
      PointStep(yk, trace, k, n - 1);
      LayoutKept(yk, trace, n - 1);
    }
  }

  /** The law of the procedure, for every trace: a point executes a message if and only if
      the message is an execute for it, its value can be put out, and the message for it just
      before was a selection of the same value that has not timed out. */
  lemma {:induction false} ExecutesIff(yk: seq<YkPoint>, trace: seq<Turn>, k: nat, n: nat)
    requires k < |yk| && n < |trace| && !yk[k].selectState
    ensures var t, j := trace[n], Previous(yk, trace, k, n);
            Executes(yk, trace, k, n) <==>
            && Concerns(yk, t, k) && IsExecute(t.msg) && ValidValue(yk[k], t.msg.value) && t.connected
            && j >= 0 && IsSelect(trace[j].msg) && trace[j].msg.value == t.msg.value
            && t.now <= trace[j].now + yk[k].timeout
  {
    SelectedIff(yk, trace, k, n);
    LayoutKept(yk, trace, n);
  }

  /** A selection authorises at most one execution. */
  lemma {:induction false} OneExecutionPerSelect(yk: seq<YkPoint>, trace: seq<Turn>, k: nat, m: nat, n: nat)
    requires k < |yk| && m < n < |trace| && !yk[k].selectState
    requires Executes(yk, trace, k, m) && Executes(yk, trace, k, n)
    ensures Previous(yk, trace, k, m) < m < Previous(yk, trace, k, n)
  {
    ExecutesIff(yk, trace, k, m);
    ExecutesIff(yk, trace, k, n);
  }

  /** The last execution among the first n messages, or -1. */
  function LastExecution(yk: seq<YkPoint>, trace: seq<Turn>, k: nat, n: nat): (j: int)
    requires k < |yk| && n <= |trace|
    ensures -1 <= j < n
  {
    if n == 0 then -1
    else if Executes(yk, trace, k, n - 1) then n - 1
    else LastExecution(yk, trace, k, n - 1)
  }

  /** The state of a point is the value of its last execution. */
  lemma {:induction false} StateIsLastExecution(yk: seq<YkPoint>, trace: seq<Turn>, k: nat, n: nat)
    requires k < |yk| && n <= |trace|
    ensures var j := LastExecution(yk, trace, k, n);
            At(yk, trace, n)[k].state == if j < 0 then yk[k].state else trace[j].msg.value
    decreases n
  {
    if n > 0 {
      StateIsLastExecution(yk, trace, k, n - 1);
      PointStep(yk, trace, k, n - 1);
    }
  }
}
