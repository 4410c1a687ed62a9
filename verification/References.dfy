/** Reference-counted json_object graphs.  Objects are numbered; NULL is -1.  A cell is a
    freed object or a live one with its count, its child slots in order and the word that
    json_object_put reuses as its parent link. */
module References {

  const NIL: int := -1

  datatype Kind = Leaf | Object | Array

  datatype Cell = Freed | Live(kind: Kind, refs: nat, slots: seq<int>, parent: int)

  type Cells = seq<Cell>

  predicate IsLive(cells: Cells, x: int) { 0 <= x < |cells| && cells[x].Live? }

  // ---- counting slots -----------------------------------------------------------------

  ghost function Count(s: seq<int>, x: int): nat {
    if s == [] then 0 else Count(s[..|s| - 1], x) + if s[|s| - 1] == x then 1 else 0
  }

  ghost function SlotsOf(c: Cell): seq<int> { if c.Live? then c.slots else [] }

  /** How many slots of live objects hold x. */
  ghost function Refs(cells: Cells, x: int): nat {
    if cells == [] then 0
    else Refs(cells[..|cells| - 1], x) + Count(SlotsOf(cells[|cells| - 1]), x)
  }

  ghost function Size(c: Cell): nat { if c.Live? then 1 + |c.slots| else 0 }

  /** Live objects plus remaining slots: what every turn of json_object_put lowers. */
  ghost function Weight(cells: Cells): nat {
    if cells == [] then 0 else Weight(cells[..|cells| - 1]) + Size(cells[|cells| - 1])
  }

  ghost predicate AllNil(s: seq<int>) { forall k :: 0 <= k < |s| ==> s[k] == NIL }

  lemma {:induction false} CountZero(s: seq<int>, x: int)
    ensures Count(s, x) == 0 <==> x !in s
    decreases |s|
  {
    if s != [] {
      CountZero(s[..|s| - 1], x);
      assert s == s[..|s| - 1] + [s[|s| - 1]];
    }
  }

  lemma {:induction false} CountUpdate(s: seq<int>, k: nat, v: int, x: int)
    requires k < |s|
    ensures Count(s[k := v], x) + (if s[k] == x then 1 else 0) == Count(s, x) + if v == x then 1 else 0
    decreases |s|
  {
    var last := |s| - 1;
    if k == last {
      assert s[k := v][..last] == s[..last];
    } else {
      assert s[k := v][..last] == s[..last][k := v];
      CountUpdate(s[..last], k, v, x);
    }
  }

  lemma {:induction false} CountTake(s: seq<int>, k: nat, x: int)
    requires k <= |s| && x !in s[k..]
    ensures Count(s[..k], x) == Count(s, x)
    decreases |s|
  {
    var last := |s| - 1;
    if k == |s| {
      assert s[..k] == s;
    } else {
      assert s[last] in s[k..] by { assert s[k..][last - k] == s[last]; }
      assert s[..last][..k] == s[..k];
      assert forall v :: v in s[..last][k..] ==> v in s[k..] by {
        assert s[k..] == s[..last][k..] + [s[last]];
      }
      CountTake(s[..last], k, x);
    }
  }

  lemma {:induction false} RefsUpdate(cells: Cells, i: nat, c: Cell, x: int)
    requires i < |cells|
    ensures Refs(cells[i := c], x) + Count(SlotsOf(cells[i]), x) == Refs(cells, x) + Count(SlotsOf(c), x)
    decreases |cells|
  {
    var last := |cells| - 1;
    if i == last {
      assert cells[i := c][..last] == cells[..last];
    } else {
      assert cells[i := c][..last] == cells[..last][i := c];
      RefsUpdate(cells[..last], i, c, x);
    }
  }

  lemma {:induction false} WeightUpdate(cells: Cells, i: nat, c: Cell)
    requires i < |cells|
    ensures Weight(cells[i := c]) + Size(cells[i]) == Weight(cells) + Size(c)
    decreases |cells|
  {
    var last := |cells| - 1;
    if i == last {
      assert cells[i := c][..last] == cells[..last];
    } else {
      assert cells[i := c][..last] == cells[..last][i := c];
      WeightUpdate(cells[..last], i, c);
    }
  }

  /** An object that no slot counts is in no slot. */
  lemma {:induction false} RefsZero(cells: Cells, x: int, i: nat)
    requires i < |cells| && Refs(cells, x) == 0
    ensures x !in SlotsOf(cells[i])
    decreases |cells|
  {
    var last := |cells| - 1;
    if i == last {
      CountZero(SlotsOf(cells[i]), x);
    } else {
      RefsZero(cells[..last], x, i);
    }
  }

  /** An object that some slot counts has a live parent. */
  lemma {:induction false} RefsSome(cells: Cells, x: int) returns (i: nat, k: nat)
    requires Refs(cells, x) > 0
    ensures IsLive(cells, i) && k < |cells[i].slots| && cells[i].slots[k] == x
    decreases |cells|
  {
    var last := |cells| - 1;
    if Refs(cells[..last], x) > 0 {
      i, k := RefsSome(cells[..last], x);
    } else {
      i := last;
      CountZero(SlotsOf(cells[i]), x);
      assert x in cells[i].slots;
      k :| 0 <= k < |cells[i].slots| && cells[i].slots[k] == x;
    }
  }

  // ---- the invariant of a release -------------------------------------------------------

  ghost predicate SlotOk(cells: Cells, x: int) { x == NIL || IsLive(cells, x) }

  /** Object x while a release is under way.  `was` is the graph before it, `owners` counts
      the references held from outside, `zs` are the objects whose count is zero and that
      are not freed yet ("zombies"), `p` one more such object or NIL. */
  ghost predicate Good(cells: Cells, was: Cells, owners: seq<nat>, zs: seq<int>, p: int, x: nat)
    requires x < |cells| == |was| == |owners|
  {
    match cells[x]
    case Freed => owners[x] == 0
    case Live(kind, refs, slots, parent) =>
      && was[x].Live? && kind == was[x].kind && (kind.Leaf? ==> slots == [])
      && refs == owners[x] + Refs(cells, x)
      && (refs == 0 <==> x in zs || x == p)
      && (refs > 0 ==> slots == was[x].slots && parent == was[x].parent)
      && forall k :: 0 <= k < |slots| ==> SlotOk(cells, slots[k])
  }

  ghost predicate Link(cells: Cells, zs: seq<int>, i: nat)
    requires i < |zs|
  {
    IsLive(cells, zs[i]) && cells[zs[i]].parent == (if i == 0 then NIL else zs[i - 1])
  }

  /** The zombies are linked from the last to the first through their parent words. */
  ghost predicate Chain(cells: Cells, zs: seq<int>) {
    && (forall i :: 0 <= i < |zs| ==> Link(cells, zs, i))
    && (forall i, j :: 0 <= i < j < |zs| ==> zs[i] != zs[j])
  }

  lemma {:induction false} ChainKeeps(cells: Cells, now: Cells, zs: seq<int>)
    requires Chain(cells, zs) && |now| == |cells|
    requires forall x :: 0 <= x < |cells| && x in zs && cells[x].Live? ==>
               now[x].Live? && now[x].parent == cells[x].parent
    ensures Chain(now, zs)
  {
    forall i | 0 <= i < |zs| ensures Link(now, zs, i) {
      assert Link(cells, zs, i) && zs[i] in zs;
    }
  }

  ghost predicate Inv(cells: Cells, was: Cells, owners: seq<nat>, zs: seq<int>, p: int) {
    && |cells| == |was| == |owners|
    && (forall x :: 0 <= x < |cells| ==> Good(cells, was, owners, zs, p, x))
    && Chain(cells, zs)
    && (p == NIL || (IsLive(cells, p) && p !in zs))
  }

  /** A graph at rest: counts are exact, every object is held, slots hold live objects. */
  ghost predicate Sound(cells: Cells, owners: seq<nat>) {
    Inv(cells, cells, owners, [], NIL)
  }

  // ---- one detachment ---------------------------------------------------------------------

  function Cut(cells: Cells, z: nat, k: nat): Cells
    requires IsLive(cells, z) && k < |cells[z].slots|
  {
    cells[z := cells[z].(slots := cells[z].slots[k := NIL])]
  }

  function Lowered(cells: Cells, c: nat): Cells
    requires IsLive(cells, c) && cells[c].refs > 0
  {
    cells[c := cells[c].(refs := cells[c].refs - 1)]
  }

  /** Clearing slot k of z and lowering the child's count changes the slot count of the
      child, by one, and no other. */
  lemma {:induction false} DetachRefs(cells: Cells, z: nat, k: nat, x: nat)
    requires IsLive(cells, z) && k < |cells[z].slots|
    requires var c := cells[z].slots[k]; c != z && IsLive(cells, c) && cells[c].refs > 0
    ensures var c := cells[z].slots[k];
            Refs(Lowered(Cut(cells, z, k), c), x) + (if x == c then 1 else 0) == Refs(cells, x)
  {
    var c := cells[z].slots[k];
    var cut := Cut(cells, z, k);
    RefsUpdate(cells, z, cut[z], x);
    CountUpdate(cells[z].slots, k, NIL, x);
    RefsUpdate(cut, c, Lowered(cut, c)[c], x);
  }

  lemma {:induction false} DetachKeeps(cells: Cells, was: Cells, owners: seq<nat>, zs: seq<int>, z: nat, k: nat)
    requires Inv(cells, was, owners, zs, NIL) && z in zs && IsLive(cells, z)
    requires k < |cells[z].slots| && cells[z].slots[k] != NIL
    ensures var c := cells[z].slots[k];
            c != z && IsLive(cells, c) && cells[c].refs > 0 && c !in zs
            && Inv(Lowered(Cut(cells, z, k), c), was, owners, zs, if cells[c].refs == 1 then c else NIL)
  {
    var c := cells[z].slots[k];
    assert Good(cells, was, owners, zs, NIL, z);
    assert SlotOk(cells, c) && Good(cells, was, owners, zs, NIL, c);
    HeldBySlot(cells, z, k);
    var now := Lowered(Cut(cells, z, k), c);
    var p := if cells[c].refs == 1 then c else NIL;
    ChainKeeps(cells, now, zs);
    forall x | 0 <= x < |now| ensures Good(now, was, owners, zs, p, x) {
      DetachRefs(cells, z, k, x);
      assert Good(cells, was, owners, zs, NIL, x);
    }
  }

  lemma {:induction false} HeldBySlot(cells: Cells, z: nat, k: nat)
    requires IsLive(cells, z) && k < |cells[z].slots|
    ensures Refs(cells, cells[z].slots[k]) > 0
  {
    var c := cells[z].slots[k];
    if Refs(cells, c) == 0 {
      RefsZero(cells, c, z);
    }
  }

  // ---- freeing --------------------------------------------------------------------------------

  lemma {:induction false} NilCount(s: seq<int>, x: nat)
    requires AllNil(s)
    ensures Count(s, x) == 0
  {
    CountZero(s, x);
  }

  /** The pending object goes once its slots are clear. */
  lemma {:induction false} FreeKeeps(cells: Cells, was: Cells, owners: seq<nat>, zs: seq<int>, p: nat)
    requires Inv(cells, was, owners, zs, p) && AllNil(cells[p].slots)
    ensures Inv(cells[p := Freed], was, owners, zs, NIL)
    ensures Weight(cells[p := Freed]) < Weight(cells)
  {
    var now := cells[p := Freed];
    WeightUpdate(cells, p, Freed);
    assert Good(cells, was, owners, zs, p, p);
    ChainKeeps(cells, now, zs);
    forall x | 0 <= x < |now| ensures Good(now, was, owners, zs, NIL, x) {
      assert Good(cells, was, owners, zs, p, x);
      RefsUpdate(cells, p, Freed, x);
      NilCount(cells[p].slots, x);
      RefsZero(cells, p, x);
    }
  }

  // ---- going down and up -----------------------------------------------------------------------

  /** The last zombie becomes the pending object. */
  lemma {:induction false} PopKeeps(cells: Cells, was: Cells, owners: seq<nat>, zs: seq<int>)
    requires Inv(cells, was, owners, zs, NIL) && zs != []
    ensures Inv(cells, was, owners, zs[..|zs| - 1], zs[|zs| - 1])
  {
    var rest, z := zs[..|zs| - 1], zs[|zs| - 1];
    assert zs == rest + [z];
    assert Link(cells, zs, |rest|) && z !in rest;
    forall i | 0 <= i < |rest| ensures Link(cells, rest, i) {
      assert Link(cells, zs, i);
    }
    forall x | 0 <= x < |cells| ensures Good(cells, was, owners, rest, z, x) {
      assert Good(cells, was, owners, zs, NIL, x);
    }
  }

  lemma {:induction false} PushChain(cells: Cells, zs: seq<int>, p: nat)
    requires Chain(cells, zs) && IsLive(cells, p) && p !in zs
    ensures var parent := if zs == [] then NIL else zs[|zs| - 1];
            Chain(cells[p := cells[p].(parent := parent)], zs + [p])
  {
    var now := cells[p := cells[p].(parent := if zs == [] then NIL else zs[|zs| - 1])];
    var more := zs + [p];
    forall i | 0 <= i < |more| ensures Link(now, more, i) {
      assert i < |zs| ==> zs[i] in zs && Link(cells, zs, i);
    }
  }

  /** The pending object becomes the last zombie. */
  lemma {:induction false} PushKeeps(cells: Cells, was: Cells, owners: seq<nat>, zs: seq<int>, p: nat)
    requires Inv(cells, was, owners, zs, p)
    ensures var parent := if zs == [] then NIL else zs[|zs| - 1];
            Inv(cells[p := cells[p].(parent := parent)], was, owners, zs + [p], NIL)
    ensures var parent := if zs == [] then NIL else zs[|zs| - 1];
            Weight(cells[p := cells[p].(parent := parent)]) == Weight(cells)
  {
    var parent := if zs == [] then NIL else zs[|zs| - 1];
    var now := cells[p := cells[p].(parent := parent)];
    WeightUpdate(cells, p, now[p]);
    PushChain(cells, zs, p);
    forall x | 0 <= x < |now| ensures Good(now, was, owners, zs + [p], NIL, x) {
      assert Good(cells, was, owners, zs, p, x);
      assert Good(cells, was, owners, zs, p, p);
      RefsUpdate(cells, p, now[p], x);
    }
  }

  function Truncated(cells: Cells, z: nat, k: nat): Cells
    requires IsLive(cells, z) && k <= |cells[z].slots|
  {
    cells[z := cells[z].(slots := cells[z].slots[..k])]
  }

  /** Dropping cleared slots from the end of a zombie. */
  lemma {:induction false} TruncateKeeps(cells: Cells, was: Cells, owners: seq<nat>, zs: seq<int>, z: nat, k: nat)
    requires Inv(cells, was, owners, zs, NIL) && z in zs && IsLive(cells, z)
    requires k < |cells[z].slots| && AllNil(cells[z].slots[k..])
    ensures Inv(Truncated(cells, z, k), was, owners, zs, NIL)
    ensures Weight(Truncated(cells, z, k)) < Weight(cells)
  {
    var now := Truncated(cells, z, k);
    WeightUpdate(cells, z, now[z]);
    ChainKeeps(cells, now, zs);
    forall x | 0 <= x < |now| ensures Good(now, was, owners, zs, NIL, x) {
      TruncateGood(cells, was, owners, zs, z, k, x);
    }
  }

  lemma {:induction false} TruncateGood(cells: Cells, was: Cells, owners: seq<nat>, zs: seq<int>, z: nat, k: nat, x: nat)
    requires |cells| == |was| == |owners| && z in zs && z < |cells| && x < |cells|
    requires Good(cells, was, owners, zs, NIL, z) && Good(cells, was, owners, zs, NIL, x)
    requires IsLive(cells, z) && k < |cells[z].slots| && AllNil(cells[z].slots[k..])
    ensures Good(Truncated(cells, z, k), was, owners, zs, NIL, x)
  {
    var now := Truncated(cells, z, k);
    RefsUpdate(cells, z, now[z], x);
    CountTake(cells[z].slots, k, x);
  }
}
