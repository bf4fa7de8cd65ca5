/** Reference counts of semaphores, file handles, open files, processes and their tables, against
    the holders that are really there. */
module RefModel {

  datatype Slot = Null | Ref(o: nat)

  /** A file handle stands for an open file; a process owns a table. */
  datatype Kind = Semaphore | Handle(start: nat) | Process(table: nat)

  /** `deletes` counts how often the object was deleted; `held` says whether anybody ever had a
      reference to it. exited and reaped are about processes. */
  datatype Obj = Obj(kind: Kind, count: nat, deletes: nat, held: bool, exited: bool, reaped: bool)

  datatype Table = Table(slots: seq<Slot>, count: nat, deletes: nat, owner: Slot)

  /** One element of openFiles, with how many open files were made and deleted for it. */
  datatype OpenFile = OpenFile(present: bool, count: nat, made: nat, deletes: nat)

  /** dirs counts the directories on each file; a directory is never deleted. */
  datatype World = World(objs: seq<Obj>, tables: seq<Table>, files: seq<OpenFile>, dirs: seq<nat>)

  // ---------------------------------------------------------------- counting

  function Occurs(slots: seq<Slot>, o: nat): nat {
    if slots == [] then 0 else Occurs(slots[..|slots| - 1], o) + (if slots[|slots| - 1] == Ref(o) then 1 else 0)
  }

  /** The slots of all tables that hold an object. */
  function Refs(tables: seq<Table>, o: nat): nat {
    if tables == [] then 0 else Refs(tables[..|tables| - 1], o) + Occurs(tables[|tables| - 1].slots, o)
  }

  predicate LiveHandle(x: Obj, start: nat) {
    x.kind == Handle(start) && x.deletes == 0
  }

  function Handles(objs: seq<Obj>, start: nat): nat {
    if objs == [] then 0 else Handles(objs[..|objs| - 1], start) + (if LiveHandle(objs[|objs| - 1], start) then 1 else 0)
  }

  function One(b: bool): nat {
    if b then 1 else 0
  }

  lemma {:induction false} OccursChange(slots: seq<Slot>, i: nat, x: Slot, o: nat)
    requires i < |slots|
    ensures Occurs(slots[i := x], o) + One(slots[i] == Ref(o)) == Occurs(slots, o) + One(x == Ref(o))
  {
    var m := |slots| - 1;
    if i < m {
      OccursChange(slots[..m], i, x, o);
      assert slots[i := x][..m] == slots[..m][i := x];
    } else {
      assert slots[i := x][..m] == slots[..m];
    }
  }

  lemma {:induction false} RefsChange(tables: seq<Table>, t: nat, x: Table, o: nat)
    requires t < |tables|
    ensures Refs(tables[t := x], o) + Occurs(tables[t].slots, o) == Refs(tables, o) + Occurs(x.slots, o)
  {
    var m := |tables| - 1;
    if t < m {
      RefsChange(tables[..m], t, x, o);
      assert tables[t := x][..m] == tables[..m][t := x];
    } else {
      assert tables[t := x][..m] == tables[..m];
    }
  }

  lemma {:induction false} HandlesChange(objs: seq<Obj>, o: nat, x: Obj, start: nat)
    requires o < |objs|
    ensures Handles(objs[o := x], start) + One(LiveHandle(objs[o], start)) == Handles(objs, start) + One(LiveHandle(x, start))
  {
    var m := |objs| - 1;
    if o < m {
      HandlesChange(objs[..m], o, x, start);
      assert objs[o := x][..m] == objs[..m][o := x];
    } else {
      assert objs[o := x][..m] == objs[..m];
    }
  }

  lemma HandlesAppend(objs: seq<Obj>, x: Obj, start: nat)
    ensures Handles(objs + [x], start) == Handles(objs, start) + One(LiveHandle(x, start))
  {
    assert (objs + [x])[..|objs|] == objs;
  }

  lemma RefsAppend(tables: seq<Table>, x: Table, o: nat)
    ensures Refs(tables + [x], o) == Refs(tables, o) + Occurs(x.slots, o)
  {
    assert (tables + [x])[..|tables|] == tables;
  }

  predicate AllNull(slots: seq<Slot>) {
    forall i {:trigger slots[i]} :: 0 <= i < |slots| ==> slots[i] == Null
  }

  lemma {:induction false} NoneOccur(slots: seq<Slot>, o: nat)
    requires AllNull(slots)
    ensures Occurs(slots, o) == 0
  {
    if slots != [] { NoneOccur(slots[..|slots| - 1], o); }
  }

  lemma {:induction false} SomeOccur(slots: seq<Slot>, i: nat)
    requires i < |slots| && slots[i].Ref?
    ensures Occurs(slots, slots[i].o) > 0
  {
    if i < |slots| - 1 {
      assert slots[..|slots| - 1][i] == slots[i];
      SomeOccur(slots[..|slots| - 1], i);
    }
  }

  lemma {:induction false} OccursRefs(tables: seq<Table>, t: nat, o: nat)
    requires t < |tables|
    ensures Occurs(tables[t].slots, o) <= Refs(tables, o)
  {
    if t < |tables| - 1 { OccursRefs(tables[..|tables| - 1], t, o); }
  }

  // ---------------------------------------------------------------- changes of single fields

  function SetObj(w: World, o: nat, x: Obj): World {
    if o < |w.objs| then w.(objs := w.objs[o := x]) else w
  }

  function SetSlot(w: World, t: nat, i: nat, x: Slot): World {
    if t < |w.tables| && i < |w.tables[t].slots| then
      w.(tables := w.tables[t := w.tables[t].(slots := w.tables[t].slots[i := x])])
    else w
  }

  // ---------------------------------------------------------------- ref and unref

  /** Resource::ref. */
  function AddRef(w: World, o: nat): World {
    if o < |w.objs| then SetObj(w, o, w.objs[o].(count := w.objs[o].count + 1, held := true)) else w
  }

  /** closeFile: the open file goes with its last holder, and openFiles forgets it. */
  function CloseFile(w: World, start: nat): World {
    if start < |w.files| && w.files[start].present then
      var f := w.files[start];
      if f.count == 1 then w.(files := w.files[start := OpenFile(false, 0, f.made, f.deletes + 1)])
      else if f.count > 1 then w.(files := w.files[start := f.(count := f.count - 1)])
      else w
    else w
  }

  /** unref of a table by its process; the table's destructor finds no slot in use. */
  function DropTable(w: World, t: nat): World {
    if t < |w.tables| && w.tables[t].count > 0 then
      var x := w.tables[t];
      w.(tables := w.tables[t := x.(count := x.count - 1, deletes := x.deletes + One(x.count == 1))])
    else w
  }

  /** What the destructor of an object does. */
  function Delete(w: World, o: nat): World {
    if o >= |w.objs| then w
    else
      var u := SetObj(w, o, w.objs[o].(deletes := w.objs[o].deletes + 1));
      match w.objs[o].kind
      case Semaphore => u
      case Handle(start) => CloseFile(u, start)
      case Process(t) => DropTable(u, t)
  }

  /** Resource::unref. */
  function Unref(w: World, o: nat): World {
    if o >= |w.objs| || w.objs[o].count == 0 then w
    else
      var u := SetObj(w, o, w.objs[o].(count := w.objs[o].count - 1));
      if w.objs[o].count == 1 then Delete(u, o) else u
  }

  // ---------------------------------------------------------------- invariant

  /** The reference that the process system itself has: until the reaper drops it. */
  function OwnRef(x: Obj): nat {
    One(x.kind.Process? && !x.reaped)
  }

  predicate CountOk(w: World, o: nat, x: nat, off: nat) {
    o < |w.objs| ==>
      var y := w.objs[o];
      && y.count == Refs(w.tables, o) + OwnRef(y) + (if o == x then off else 0)
      && y.deletes == One(y.held && y.count == 0)
      && (y.count > 0 ==> y.held)
  }

  predicate KindOk(w: World, o: nat) {
    o < |w.objs| ==>
      match w.objs[o].kind
      case Semaphore => true
      case Handle(start) => start < |w.files| && Refs(w.tables, o) <= 1
      case Process(t) =>
        && t < |w.tables| && w.tables[t].owner == Ref(o) && w.objs[o].held
        && (w.objs[o].reaped ==> w.objs[o].exited) && (w.objs[o].exited ==> AllNull(w.tables[t].slots))
  }

  predicate SlotOk(w: World, t: nat, i: nat) {
    t < |w.tables| && i < |w.tables[t].slots| && w.tables[t].slots[i].Ref? ==> w.tables[t].slots[i].o < |w.objs|
  }

  predicate TableOk(w: World, t: nat) {
    t < |w.tables| ==>
      var x := w.tables[t];
      match x.owner
      case Null => x.count == 0 && x.deletes == 0
      case Ref(o) => o < |w.objs| && w.objs[o].kind == Process(t) && x.count == One(w.objs[o].deletes == 0) && x.deletes == 1 - x.count
  }

  predicate FileOk(w: World, s: nat) {
    s < |w.files| && s < |w.dirs| ==>
      var f := w.files[s];
      && f.count == Handles(w.objs, s) + w.dirs[s]
      && (f.present <==> f.count > 0) && f.made == f.deletes + One(f.present)
  }

  /** Every count is the number of holders, `off` more for object x. */
  ghost predicate InvOff(w: World, x: nat, off: nat) {
    && |w.dirs| == |w.files|
    && (forall o: nat {:trigger CountOk(w, o, x, off)} :: CountOk(w, o, x, off))
    && (forall o: nat {:trigger KindOk(w, o)} :: KindOk(w, o))
    && (forall t: nat, i: nat {:trigger SlotOk(w, t, i)} :: SlotOk(w, t, i))
    && (forall t: nat {:trigger TableOk(w, t)} :: TableOk(w, t))
    && (forall s: nat {:trigger FileOk(w, s)} :: FileOk(w, s))
  }

  ghost predicate Inv(w: World) {
    InvOff(w, 0, 0)
  }

  lemma OffZero(w: World, x: nat, y: nat)
    requires InvOff(w, x, 0)
    ensures InvOff(w, y, 0)
  {
    forall o: nat {:trigger CountOk(w, o, y, 0)} ensures CountOk(w, o, y, 0) { assert CountOk(w, o, x, 0); }
  }

  // ---------------------------------------------------------------- objects nobody names

  lemma {:induction false} NotOccurring(slots: seq<Slot>, o: nat)
    requires forall i {:trigger slots[i]} :: 0 <= i < |slots| ==> slots[i] != Ref(o)
    ensures Occurs(slots, o) == 0
  {
    if slots != [] { NotOccurring(slots[..|slots| - 1], o); }
  }

  lemma {:induction false} NotNamed(tables: seq<Table>, o: nat)
    requires forall t, i {:trigger tables[t].slots[i]} :: 0 <= t < |tables| && 0 <= i < |tables[t].slots| ==> tables[t].slots[i] != Ref(o)
    ensures Refs(tables, o) == 0
  {
    if tables != [] {
      var m := |tables| - 1;
      NotOccurring(tables[m].slots, o);
      var front := tables[..m];
      assert forall t, i {:trigger front[t].slots[i]} :: 0 <= t < |front| && 0 <= i < |front[t].slots| ==> front[t].slots[i] == tables[t].slots[i];
      NotNamed(front, o);
    }
  }

  lemma NewNotNamed(w: World, x: nat, off: nat, o: nat)
    requires InvOff(w, x, off) && o >= |w.objs|
    ensures Refs(w.tables, o) == 0
  {
    forall t, i {:trigger w.tables[t].slots[i]} | 0 <= t < |w.tables| && 0 <= i < |w.tables[t].slots|
      ensures w.tables[t].slots[i] != Ref(o)
    {
      assert SlotOk(w, t, i);
    }
    NotNamed(w.tables, o);
  }
}
