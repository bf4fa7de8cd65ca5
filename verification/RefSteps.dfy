/** What each reference that is taken or dropped does to the counts. */
module RefSteps {
  import opened RefModel

  /** One table gets other slots: how the holders change. */
  lemma SlotChange(w: World, t: nat, i: nat, x: Slot, o: nat)
    requires t < |w.tables| && i < |w.tables[t].slots|
    ensures Refs(SetSlot(w, t, i, x).tables, o) + One(w.tables[t].slots[i] == Ref(o)) == Refs(w.tables, o) + One(x == Ref(o))
  {
    var y := w.tables[t].(slots := w.tables[t].slots[i := x]);
    RefsChange(w.tables, t, y, o);
    OccursChange(w.tables[t].slots, i, x, o);
  }

  /** Objects that differ only in what the open files do not depend on. */
  lemma HandlesSame(w: World, o: nat, x: Obj, s: nat)
    requires o < |w.objs| && x.kind == w.objs[o].kind && x.deletes == w.objs[o].deletes
    ensures Handles(w.objs[o := x], s) == Handles(w.objs, s)
  {
    HandlesChange(w.objs, o, x, s);
  }

  lemma AddRefOff(w: World, o: nat)
    requires Inv(w) && o < |w.objs| && w.objs[o].deletes == 0
    ensures InvOff(AddRef(w, o), o, 1)
  {
    var v := AddRef(w, o);
    forall p: nat {:trigger CountOk(v, p, o, 1)} ensures CountOk(v, p, o, 1) { assert CountOk(w, p, 0, 0); }
    forall p: nat {:trigger KindOk(v, p)} ensures KindOk(v, p) { assert KindOk(w, p); }
    forall t: nat, i: nat {:trigger SlotOk(v, t, i)} ensures SlotOk(v, t, i) { assert SlotOk(w, t, i); }
    forall t: nat {:trigger TableOk(v, t)} ensures TableOk(v, t) { assert TableOk(w, t); }
    forall s: nat {:trigger FileOk(v, s)} ensures FileOk(v, s) { assert FileOk(w, s); HandlesSame(w, o, v.objs[o], s); }
  }

  /** A table that its process still uses, or one that is being filled for a new process. */
  predicate InUse(w: World, t: nat) {
    && t < |w.tables|
    && (w.tables[t].owner.Ref? ==> w.tables[t].owner.o < |w.objs| && !w.objs[w.tables[t].owner.o].exited)
  }

  lemma FillSlot(w: World, t: nat, i: nat, o: nat)
    requires InvOff(w, o, 1) && InUse(w, t) && i < |w.tables[t].slots| && w.tables[t].slots[i] == Null && o < |w.objs|
    requires w.objs[o].kind.Handle? ==> Refs(w.tables, o) == 0
    ensures Inv(SetSlot(w, t, i, Ref(o)))
  {
    var v := SetSlot(w, t, i, Ref(o));
    assert w.tables[t].slots[i] == Null;
    forall p: nat {:trigger CountOk(v, p, 0, 0)}
      ensures CountOk(v, p, 0, 0)
    {
      assert CountOk(w, p, o, 1);
      SlotChange(w, t, i, Ref(o), p);
    }
    forall p: nat {:trigger KindOk(v, p)}
      ensures KindOk(v, p)
    {
      FillKind(w, t, i, o, p);
    }
    forall u: nat, j: nat {:trigger SlotOk(v, u, j)} ensures SlotOk(v, u, j) { assert SlotOk(w, u, j); }
    forall u: nat {:trigger TableOk(v, u)} ensures TableOk(v, u) { assert TableOk(w, u); }
    forall s: nat {:trigger FileOk(v, s)} ensures FileOk(v, s) { assert FileOk(w, s); }
  }

  lemma FillKind(w: World, t: nat, i: nat, o: nat, p: nat)
    requires InvOff(w, o, 1) && InUse(w, t) && i < |w.tables[t].slots| && w.tables[t].slots[i] == Null && o < |w.objs|
    requires w.objs[o].kind.Handle? ==> Refs(w.tables, o) == 0
    ensures KindOk(SetSlot(w, t, i, Ref(o)), p)
  {
    hide Refs;
    assert KindOk(w, p) && TableOk(w, t);
    SlotChange(w, t, i, Ref(o), p);
  }

  lemma ClearSlot(w: World, t: nat, i: nat)
    requires Inv(w) && t < |w.tables| && i < |w.tables[t].slots| && w.tables[t].slots[i].Ref?
    ensures InvOff(SetSlot(w, t, i, Null), w.tables[t].slots[i].o, 1)
  {
    var o, v := w.tables[t].slots[i].o, SetSlot(w, t, i, Null);
    forall p: nat {:trigger CountOk(v, p, o, 1)}
      ensures CountOk(v, p, o, 1)
    {
      assert CountOk(w, p, 0, 0);
      SlotChange(w, t, i, Null, p);
    }
    forall p: nat {:trigger KindOk(v, p)}
      ensures KindOk(v, p)
    {
      assert KindOk(w, p);
      SlotChange(w, t, i, Null, p);
    }
    forall u: nat, j: nat {:trigger SlotOk(v, u, j)} ensures SlotOk(v, u, j) { assert SlotOk(w, u, j); }
    forall u: nat {:trigger TableOk(v, u)} ensures TableOk(v, u) { assert TableOk(w, u); }
    forall s: nat {:trigger FileOk(v, s)} ensures FileOk(v, s) { assert FileOk(w, s); }
  }

  /** Dropping the surplus reference: the object is deleted exactly when that was the last one, and
      takes its open file or its table with it. */
  lemma UnrefOff(w: World, o: nat)
    requires InvOff(w, o, 1) && o < |w.objs|
    ensures Inv(Unref(w, o))
    ensures Unref(w, o).objs[o].deletes == One(Refs(w.tables, o) + OwnRef(w.objs[o]) == 0)
  {
    hide Handles, Refs;
    var v, x := Unref(w, o), w.objs[o];
    assert CountOk(w, o, o, 1) && KindOk(w, o);
    UnrefObjs(w, o);
    UnrefTables(w, o);
    UnrefFiles(w, o);
    forall p: nat {:trigger CountOk(v, p, 0, 0)} ensures CountOk(v, p, 0, 0) { assert CountOk(w, p, o, 1) && Refs(v.tables, p) == Refs(w.tables, p); }
    forall p: nat {:trigger KindOk(v, p)} ensures KindOk(v, p) { assert KindOk(w, p) && Refs(v.tables, p) == Refs(w.tables, p); }
  }

  lemma UnrefObjs(w: World, o: nat)
    requires o < |w.objs| && w.objs[o].count > 0
    ensures var x := w.objs[o];
      Unref(w, o).objs == w.objs[o := x.(count := x.count - 1, deletes := x.deletes + One(x.count == 1))] && Unref(w, o).dirs == w.dirs
  {
  }

  /** The open files after unref: one holder less for the file of a handle that is deleted. */
  lemma UnrefFiles(w: World, o: nat)
    requires InvOff(w, o, 1) && o < |w.objs|
    ensures |Unref(w, o).files| == |w.files| && forall s: nat {:trigger FileOk(Unref(w, o), s)} :: FileOk(Unref(w, o), s)
  {
    hide Handles, Refs;
    var v, x := Unref(w, o), w.objs[o];
    assert CountOk(w, o, o, 1) && KindOk(w, o);
    UnrefObjs(w, o);
    forall s: nat {:trigger FileOk(v, s)}
      ensures FileOk(v, s)
    {
      assert FileOk(w, s);
      HandlesChange(w.objs, o, v.objs[o], s);
    }
  }

  /** The tables after unref: the same slots everywhere, and a table is deleted with its process. */
  lemma UnrefTables(w: World, o: nat)
    requires InvOff(w, o, 1) && o < |w.objs|
    ensures var v := Unref(w, o);
      && |v.tables| == |w.tables| && (forall p: nat {:trigger Refs(v.tables, p)} :: Refs(v.tables, p) == Refs(w.tables, p))
      && (forall t: nat {:trigger v.tables[t]} :: t < |w.tables| ==> v.tables[t].slots == w.tables[t].slots && v.tables[t].owner == w.tables[t].owner)
      && (forall t: nat {:trigger TableOk(v, t)} :: TableOk(v, t)) && (forall t: nat, i: nat {:trigger SlotOk(v, t, i)} :: SlotOk(v, t, i))
  {
    var v, x := Unref(w, o), w.objs[o];
    assert CountOk(w, o, o, 1) && KindOk(w, o);
    if x.count == 1 && x.kind.Process? {
      var t := x.kind.table;
      assert TableOk(w, t);
      forall p: nat {:trigger Refs(v.tables, p)} ensures Refs(v.tables, p) == Refs(w.tables, p) { RefsChange(w.tables, t, v.tables[t], p); }
    }
    forall t: nat {:trigger TableOk(v, t)} ensures TableOk(v, t) { assert TableOk(w, t); }
    forall t: nat, i: nat {:trigger SlotOk(v, t, i)} ensures SlotOk(v, t, i) { assert SlotOk(w, t, i); }
  }

  // ---------------------------------------------------------------- new objects

  function NewObj(kind: Kind): Obj {
    Obj(kind, 0, 0, false, false, false)
  }

  /** new Semaphore: nobody holds it yet. */
  function MakeSemaphore(w: World): World {
    w.(objs := w.objs + [NewObj(Semaphore)])
  }

  /** openFile: the one there is, or a new one. */
  function OpenStart(w: World, start: nat): World {
    if start >= |w.files| then w
    else
      var f := w.files[start];
      w.(files := w.files[start := if f.present then f.(count := f.count + 1) else OpenFile(true, 1, f.made + 1, f.deletes)])
  }

  /** lookupFile: an open file with one more holder, and the handle that holds it. */
  function MakeHandle(w: World, start: nat): World {
    var u := OpenStart(w, start);
    u.(objs := u.objs + [NewObj(Handle(start))])
  }

  lemma MakeSemaphoreInv(w: World)
    requires Inv(w)
    ensures Inv(MakeSemaphore(w)) && Refs(w.tables, |w.objs|) == 0
  {
    var v := MakeSemaphore(w);
    NewNotNamed(w, 0, 0, |w.objs|);
    forall p: nat {:trigger CountOk(v, p, 0, 0)} ensures CountOk(v, p, 0, 0) { assert CountOk(w, p, 0, 0); }
    forall p: nat {:trigger KindOk(v, p)} ensures KindOk(v, p) { assert KindOk(w, p); }
    forall t: nat, i: nat {:trigger SlotOk(v, t, i)} ensures SlotOk(v, t, i) { assert SlotOk(w, t, i); }
    forall t: nat {:trigger TableOk(v, t)} ensures TableOk(v, t) { assert TableOk(w, t); }
    forall s: nat {:trigger FileOk(v, s)} ensures FileOk(v, s) { assert FileOk(w, s); HandlesAppend(w.objs, NewObj(Semaphore), s); }
  }

  lemma MakeHandleOff(w: World, x: nat, off: nat, start: nat)
    requires InvOff(w, x, off) && start < |w.files| && x < |w.objs|
    ensures InvOff(MakeHandle(w, start), x, off) && Refs(w.tables, |w.objs|) == 0
  {
    var v := MakeHandle(w, start);
    NewNotNamed(w, x, off, |w.objs|);
    forall p: nat {:trigger CountOk(v, p, x, off)} ensures CountOk(v, p, x, off) { assert CountOk(w, p, x, off); }
    forall p: nat {:trigger KindOk(v, p)} ensures KindOk(v, p) { assert KindOk(w, p); }
    forall t: nat, i: nat {:trigger SlotOk(v, t, i)} ensures SlotOk(v, t, i) { assert SlotOk(w, t, i); }
    forall t: nat {:trigger TableOk(v, t)} ensures TableOk(v, t) { assert TableOk(w, t); }
    forall s: nat {:trigger FileOk(v, s)} ensures FileOk(v, s) { assert FileOk(w, s); HandlesAppend(w.objs, NewObj(Handle(start)), s); }
  }
}
