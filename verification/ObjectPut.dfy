/** json_object_put: the iterative release of a reference-counted graph, with its stack kept
    in the objects that are being released. */
module ObjectPut {
  import opened References

  // ---- what a release should do -----------------------------------------------------------

  /** The outside owners after one reference to x is given up. */
  ghost function Dropped(owners: seq<nat>, x: nat): seq<nat>
    requires x < |owners| && owners[x] > 0
  {
    owners[x := owners[x] - 1]
  }

  /** Children have smaller ranks than their parents. */
  ghost predicate Acyclic(cells: Cells, rank: seq<nat>) {
    && |rank| == |cells|
    && forall y, k :: 0 <= y < |cells| && 0 <= k < |SlotsOf(cells[y])| ==>
         var c := SlotsOf(cells[y])[k]; IsLive(cells, c) ==> rank[c] < rank[y]
  }

  /** A path from an object with an outside owner down to x. */
  ghost predicate Holds(cells: Cells, owners: seq<nat>, path: seq<int>, x: int)
    requires |owners| == |cells|
    decreases |path|
  {
    && path != [] && path[|path| - 1] == x && IsLive(cells, x)
    && if |path| == 1 then owners[x] > 0
       else
         var y := path[|path| - 2];
         IsLive(cells, y) && x in cells[y].slots && Holds(cells, owners, path[..|path| - 1], y)
  }

  ghost predicate Held(cells: Cells, owners: seq<nat>, x: int)
    requires |owners| == |cells|
  {
    exists path :: Holds(cells, owners, path, x)
  }

  /** With counts exact and no zombie left, every survivor is held by an owner that is left. */
  lemma {:induction false} SurvivorHeld(now: Cells, was: Cells, owners: seq<nat>, rank: seq<nat>,
                                        bound: nat, x: nat) returns (path: seq<int>)
    requires Inv(now, was, owners, [], NIL) && Acyclic(was, rank) && IsLive(now, x)
    requires rank[x] < bound && forall y :: 0 <= y < |rank| ==> rank[y] < bound
    ensures Holds(was, owners, path, x)
    decreases bound - rank[x]
  {
    assert Good(now, was, owners, [], NIL, x);
    if owners[x] > 0 {
      path := [x];
    } else {
      var y, k := RefsSome(now, x);
      assert Good(now, was, owners, [], NIL, y);
      assert SlotsOf(was[y])[k] == x;
      var above := SurvivorHeld(now, was, owners, rank, bound, y);
      path := above + [x];
      assert path[..|path| - 1] == above;
    }
  }

  /** An object held by an owner that is left has survived. */
  lemma {:induction false} HeldSurvives(now: Cells, was: Cells, owners: seq<nat>, path: seq<int>, x: nat)
    requires Inv(now, was, owners, [], NIL) && Holds(was, owners, path, x)
    ensures IsLive(now, x)
    decreases |path|
  {
    assert Good(now, was, owners, [], NIL, x);
    if |path| > 1 {
      var y := path[|path| - 2];
      HeldSurvives(now, was, owners, path[..|path| - 1], y);
      assert Good(now, was, owners, [], NIL, y);
      var k :| 0 <= k < |was[y].slots| && was[y].slots[k] == x;
      assert SlotOk(now, now[y].slots[k]);
    }
  }

  lemma {:induction false} SurvivorsAreHeld(now: Cells, was: Cells, owners: seq<nat>, rank: seq<nat>, bound: nat)
    requires Inv(now, was, owners, [], NIL) && Acyclic(was, rank)
    requires forall y :: 0 <= y < |rank| ==> rank[y] < bound
    ensures forall x :: 0 <= x < |was| ==> (now[x].Live? <==> Held(was, owners, x))
  {
    forall x | 0 <= x < |was| ensures now[x].Live? <==> Held(was, owners, x) {
      if now[x].Live? {
        var path := SurvivorHeld(now, was, owners, rank, bound, x);
      }
      if Held(was, owners, x) {
        var path :| Holds(was, owners, path, x);
        HeldSurvives(now, was, owners, path, x);
      }
    }
  }

  /** What a release leaves is again a graph at rest. */
  lemma {:induction false} RestIsSound(now: Cells, was: Cells, owners: seq<nat>)
    requires Inv(now, was, owners, [], NIL)
    ensures Sound(now, owners)
  {
    forall x | 0 <= x < |now| ensures Good(now, now, owners, [], NIL, x) {
      assert Good(now, was, owners, [], NIL, x);
    }
  }

  lemma {:induction false} StartKeeps(cells: Cells, owners: seq<nat>, x: nat)
    requires Sound(cells, owners) && IsLive(cells, x) && owners[x] > 0
    ensures cells[x].refs > 0
    ensures Inv(Lowered(cells, x), cells, Dropped(owners, x), [], if cells[x].refs == 1 then x else NIL)
  {
    assert Good(cells, cells, owners, [], NIL, x);
    var now, p := Lowered(cells, x), if cells[x].refs == 1 then x else NIL;
    forall y | 0 <= y < |now| ensures Good(now, cells, Dropped(owners, x), [], p, y) {
      assert Good(cells, cells, owners, [], NIL, y);
      RefsUpdate(cells, x, now[x], y);
    }
  }

  // ---- the code -------------------------------------------------------------------------------

  ghost predicate LogOk(cells: Cells, freed: seq<int>) {
    && (forall i, j :: 0 <= i < j < |freed| ==> freed[i] != freed[j])
    && forall i :: 0 <= i < |freed| ==> 0 <= freed[i] < |cells| && cells[freed[i]].Freed?
  }

  class ObjectHeap {
    var cells: Cells
    ghost var freed: seq<int>      // every object ever freed, in that order

    constructor (cells: Cells)
      ensures this.cells == cells && freed == []
    {
      this.cells, freed := cells, [];
    }

    /** _json_object_put_maybe_free.  A container is freed only when its slots are clear: the
        destructors would release what is left in them. */
    method MaybeFree(jso: int, freeContainers: bool) returns (r: int)
      requires IsLive(cells, jso) && cells[jso].refs > 0 && LogOk(cells, freed)
      requires freeContainers && cells[jso].refs == 1 ==> AllNil(cells[jso].slots)
      modifies this
      ensures r == (if old(cells)[jso].refs == 1 && !old(cells)[jso].kind.Leaf?
                       && !freeContainers && old(cells)[jso].slots != [] then 1 else 0)
      ensures old(cells)[jso].refs > 1 || r == 1 ==> cells == Lowered(old(cells), jso) && freed == old(freed)
      ensures old(cells)[jso].refs == 1 && r == 0 ==>
                cells == Lowered(old(cells), jso)[jso := Freed] && freed == old(freed) + [jso]
      ensures LogOk(cells, freed)
    {
      cells := cells[jso := cells[jso].(refs := cells[jso].refs - 1)];
      if cells[jso].refs > 0 {
        return 0;
      }
      if !cells[jso].kind.Leaf? && !freeContainers && |cells[jso].slots| != 0 {
        return 1;
      }
      cells := cells[jso := Freed];
      freed := freed + [jso];
      return 0;
    }

    /** Clears slot k of jso and gives up the reference it held. */
    method Detach(jso: int, k: nat, ghost was: Cells, ghost owners: seq<nat>, ghost zs: seq<int>)
      returns (pending: bool)
      requires Inv(cells, was, owners, zs, NIL) && LogOk(cells, freed)
      requires jso in zs && IsLive(cells, jso) && k < |cells[jso].slots|
      modifies this
      ensures LogOk(cells, freed) && old(freed) <= freed && IsLive(cells, jso)
      ensures cells[jso].slots == old(cells)[jso].slots[k := NIL]
      ensures Weight(cells) <= old(Weight(cells))
      ensures !pending ==> Inv(cells, was, owners, zs, NIL)
      ensures pending ==> old(cells)[jso].slots[k] != NIL && Inv(cells, was, owners, zs, old(cells)[jso].slots[k])
    {
      ghost var t := cells;
      var child := cells[jso].slots[k];
      cells := cells[jso := cells[jso].(slots := cells[jso].slots[k := NIL])];
      if child == NIL {
        assert t[jso].slots[k := NIL] == t[jso].slots;
        assert cells == t;
        return false;
      }
      DetachKeeps(t, was, owners, zs, jso, k);
      DetachWeight(t, jso, k);
      ghost var low := Lowered(Cut(t, jso, k), child);
      assert low[child].refs == 0 && low[child].kind.Leaf? ==> low[child].slots == [] by {
        assert Good(low, was, owners, zs, if t[child].refs == 1 then child else NIL, child);
      }
      var r := MaybeFree(child, false);
      if t[child].refs == 1 && r == 0 {
        FreeKeeps(low, was, owners, zs, child);
      }
      return r != 0;
    }

    /** Hangs the pending child below jso and drops the slots of jso already cleared. */
    method Descend(jso: int, k: nat, child: int, ghost was: Cells, ghost owners: seq<nat>, ghost zs: seq<int>)
      requires child >= 0 && Inv(cells, was, owners, zs, child)
      requires zs != [] && zs[|zs| - 1] == jso && IsLive(cells, jso)
      requires k < |cells[jso].slots| && AllNil(cells[jso].slots[k..]) && LogOk(cells, freed)
      modifies this
      ensures Inv(cells, was, owners, zs + [child], NIL)
      ensures Weight(cells) < old(Weight(cells)) && freed == old(freed) && LogOk(cells, freed)
    {
      PushKeeps(cells, was, owners, zs, child);
      assert jso in zs;
      cells := cells[child := cells[child].(parent := jso)];
      assert jso in zs + [child];
      TruncateKeeps(cells, was, owners, zs + [child], jso, k);
      cells := cells[jso := cells[jso].(slots := cells[jso].slots[..k])];
    }

    /** One turn of the main loop as far as it goes down: the slots of jso from the last to
        the first, until a child has to be released first. */
    method ReleaseSlots(jso: int, ghost was: Cells, ghost owners: seq<nat>, ghost zs: seq<int>)
      returns (down: int)
      requires Inv(cells, was, owners, zs, NIL) && LogOk(cells, freed)
      requires zs != [] && zs[|zs| - 1] == jso && IsLive(cells, jso)
      modifies this
      ensures LogOk(cells, freed) && old(freed) <= freed
      ensures down == NIL ==> Inv(cells, was, owners, zs, NIL) && IsLive(cells, jso)
                              && AllNil(cells[jso].slots) && Weight(cells) <= old(Weight(cells))
      ensures down != NIL ==> Inv(cells, was, owners, zs + [down], NIL) && Weight(cells) < old(Weight(cells))
    {
      var totalSlots := |cells[jso].slots|;
      var slotsLeft := totalSlots;
      while slotsLeft > 0
        invariant 0 <= slotsLeft <= totalSlots
        invariant Inv(cells, was, owners, zs, NIL) && LogOk(cells, freed)
        invariant IsLive(cells, jso) && |cells[jso].slots| == totalSlots
        invariant AllNil(cells[jso].slots[slotsLeft..]) && old(freed) <= freed
        invariant Weight(cells) <= old(Weight(cells))
      {
        var curSlot := slotsLeft - 1;
        var child := cells[jso].slots[curSlot];
        var pending := Detach(jso, curSlot, was, owners, zs);
        if !pending {
          slotsLeft := slotsLeft - 1;
          continue;
        }
        Descend(jso, curSlot, child, was, owners, zs);
        return child;
      }
      return NIL;
    }

    /** The end of a turn: jso has no child left and goes; its parent is next. */
    method Ascend(jso: int, ghost was: Cells, ghost owners: seq<nat>, ghost zs: seq<int>) returns (parent: int)
      requires Inv(cells, was, owners, zs, NIL) && LogOk(cells, freed)
      requires zs != [] && zs[|zs| - 1] == jso && IsLive(cells, jso) && AllNil(cells[jso].slots)
      modifies this
      ensures Inv(cells, was, owners, zs[..|zs| - 1], NIL) && LogOk(cells, freed) && old(freed) <= freed
      ensures parent == (if |zs| == 1 then NIL else zs[|zs| - 2])
      ensures Weight(cells) < old(Weight(cells)) && jso < |cells| && cells[jso].Freed?
    {
      PopKeeps(cells, was, owners, zs);
      FreeKeeps(cells, was, owners, zs[..|zs| - 1], jso);
      assert Link(cells, zs, |zs| - 1) && Good(cells, was, owners, zs, NIL, jso);
      parent := cells[jso].parent;
      assert cells[jso].refs == 0;
      ghost var t := cells;
      cells := cells[jso := cells[jso].(refs := cells[jso].refs + 1)];
      var r := MaybeFree(jso, true);
      assert r == 0;
      assert cells == t[jso := Freed];
    }

    /** The main loop. */
    method ReleaseContainer(root: int, ghost was: Cells, ghost owners: seq<nat>)
      requires Inv(cells, was, owners, [root], NIL) && LogOk(cells, freed)
      modifies this
      ensures Inv(cells, was, owners, [], NIL) && LogOk(cells, freed) && old(freed) <= freed
      ensures 0 <= root < |cells| && cells[root].Freed?
    {
      var jso := root;
      ghost var zs := [root];
      assert Link(cells, zs, 0);
      while jso != NIL
        invariant Inv(cells, was, owners, zs, NIL) && LogOk(cells, freed)
        invariant jso == (if zs == [] then NIL else zs[|zs| - 1]) && (jso == NIL <==> zs == [])
        invariant old(freed) <= freed
        invariant if zs == [] then 0 <= root < |cells| && cells[root].Freed? else zs[0] == root
        decreases Weight(cells)
      {
        assert Link(cells, zs, |zs| - 1);
        var down := ReleaseSlots(jso, was, owners, zs);
        if down != NIL {
          jso, zs := down, zs + [down];
          assert Link(cells, zs, |zs| - 1);
          continue;
        }
        jso := Ascend(jso, was, owners, zs);
        zs := zs[..|zs| - 1];
        assert zs != [] ==> Link(cells, zs, |zs| - 1);
      }
    }

    /** json_object_put.  When a container with slots gives up its last reference, the word
        shared by its user data and the parent link has to be null. */
    method Put(jso: int, ghost owners: seq<nat>, ghost rank: seq<nat>, ghost bound: nat) returns (r: int)
      requires Sound(cells, owners) && LogOk(cells, freed)
      requires Acyclic(cells, rank) && forall y :: 0 <= y < |rank| ==> rank[y] < bound
      requires jso == NIL || (IsLive(cells, jso) && owners[jso] > 0)
      requires jso != NIL && cells[jso].refs == 1 && cells[jso].slots != [] ==> cells[jso].parent == NIL
      modifies this
      ensures LogOk(cells, freed) && old(freed) <= freed
      ensures jso == NIL ==> r == 0 && cells == old(cells)
      ensures jso != NIL ==> Inv(cells, old(cells), Dropped(owners, jso), [], NIL)
      ensures jso != NIL ==>
                forall x :: 0 <= x < |cells| ==> (cells[x].Live? <==> Held(old(cells), Dropped(owners, jso), x))
      ensures jso != NIL ==> (cells[jso].Freed? <==> old(cells)[jso].refs == 1)
      ensures r == if jso != NIL && old(cells)[jso].refs == 1 && old(cells)[jso].slots != [] then 1 else 0
    {
      if jso == NIL {
        return 0;
      }
      ghost var was, left := cells, Dropped(owners, jso);
      StartKeeps(cells, owners, jso);
      ghost var low := Lowered(cells, jso);
      assert was[jso].kind.Leaf? ==> was[jso].slots == [] by {
        assert Good(was, was, owners, [], NIL, jso);
      }
      var more := MaybeFree(jso, false);
      if more == 0 {
        if was[jso].refs == 1 {
          FreeKeeps(low, was, left, [], jso);
        }
        SurvivorsAreHeld(cells, was, left, rank, bound);
        return 0;
      }
      PushKeeps(cells, was, left, [], jso);
      assert cells[jso := cells[jso].(parent := NIL)] == cells && [] + [jso] == [jso];
      ReleaseContainer(jso, was, left);
      SurvivorsAreHeld(cells, was, left, rank, bound);
      return 1;
    }
  }

  /** The return value is not "1 if the object was freed": a released leaf gives 0. */
  method FreedLeafReturnsZero() returns (heap: ObjectHeap, r: int)
    ensures r == 0 && heap.cells == [Freed]
  {
    heap := new ObjectHeap([Live(Leaf, 1, [], NIL)]);
    assert Good(heap.cells, heap.cells, [1], [], NIL, 0);
    r := heap.Put(0, [1], [0], 1);
    assert Good(heap.cells, [Live(Leaf, 1, [], NIL)], [0], [], NIL, 0);
    assert heap.cells[0].Freed?;
  }

  lemma {:induction false} DetachWeight(cells: Cells, z: nat, k: nat)
    requires IsLive(cells, z) && k < |cells[z].slots|
    requires var c := cells[z].slots[k]; c != z && IsLive(cells, c) && cells[c].refs > 0
    ensures Weight(Lowered(Cut(cells, z, k), cells[z].slots[k])) == Weight(cells)
  {
    var c := cells[z].slots[k];
    var cut := Cut(cells, z, k);
    WeightUpdate(cells, z, cut[z]);
    WeightUpdate(cut, c, Lowered(cut, c)[c]);
  }
}
