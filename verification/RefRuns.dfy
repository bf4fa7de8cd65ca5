/** System calls on tables, and what holds in every state they can reach. */
module RefRuns {
  import opened RefModel
  import opened RefSteps

  const ERR_INVALID_ID := -1002
  const ERR_NO_ID := -1003

  // ---------------------------------------------------------------- open, close, closeAll

  /** The first free slot from i on. */
  function FirstFree(slots: seq<Slot>, i: nat): (r: nat)
    ensures r < |slots| ==> i <= r && slots[r] == Null
    ensures forall k {:trigger slots[k]} :: i <= k < r && k < |slots| ==> slots[k] != Null
    decreases |slots| - i
  {
    if i >= |slots| || slots[i] == Null then i else FirstFree(slots, i + 1)
  }

  /** Table::open: slot 0 is never used. */
  function Open(w: World, t: nat, o: nat): (World, int) {
    if t >= |w.tables| then (w, ERR_NO_ID)
    else
      var i := FirstFree(w.tables[t].slots, 1);
      if i < |w.tables[t].slots| then (SetSlot(AddRef(w, o), t, i, Ref(o)), i) else (w, ERR_NO_ID)
  }

  /** A slot gives up its reference. */
  function Clear(w: World, t: nat, i: nat): World {
    if t < |w.tables| && i < |w.tables[t].slots| && w.tables[t].slots[i].Ref?
    then Unref(SetSlot(w, t, i, Null), w.tables[t].slots[i].o)
    else w
  }

  /** Table::close. */
  function Close(w: World, t: nat, i: int): (World, int) {
    if t >= |w.tables| || i < 0 || i >= |w.tables[t].slots| then (w, ERR_INVALID_ID)
    else (Clear(w, t, i), if w.tables[t].slots[i] == Null then ERR_INVALID_ID else 0)
  }

  /** Table::closeAll, the first n slots. */
  function CloseAll(w: World, t: nat, n: nat): World {
    if n == 0 then w else Clear(CloseAll(w, t, n - 1), t, n - 1)
  }

  lemma ClearInv(w: World, t: nat, i: nat)
    requires Inv(w)
    ensures Inv(Clear(w, t, i))
  {
    if t < |w.tables| && i < |w.tables[t].slots| && w.tables[t].slots[i].Ref? {
      assert SlotOk(w, t, i);
      ClearSlot(w, t, i);
      UnrefOff(SetSlot(w, t, i, Null), w.tables[t].slots[i].o);
    }
  }

  lemma ClearSlots(w: World, t: nat, i: nat)
    requires Inv(w)
    ensures var v := Clear(w, t, i);
      && |v.tables| == |w.tables| && |v.objs| == |w.objs| && |v.files| == |w.files|
      && (forall u: nat {:trigger v.tables[u]} :: u < |w.tables| ==>
            v.tables[u].slots == if u == t && i < |w.tables[t].slots| then w.tables[t].slots[i := Null] else w.tables[u].slots)
      && (forall u: nat {:trigger v.tables[u]} :: u < |w.tables| ==> v.tables[u].owner == w.tables[u].owner)
      && (forall o: nat {:trigger v.objs[o]} :: o < |w.objs| ==>
            v.objs[o].kind == w.objs[o].kind && v.objs[o].exited == w.objs[o].exited && v.objs[o].reaped == w.objs[o].reaped && v.objs[o].held == w.objs[o].held)
  {
    if t < |w.tables| && i < |w.tables[t].slots| && w.tables[t].slots[i].Ref? {
      var o, u := w.tables[t].slots[i].o, SetSlot(w, t, i, Null);
      assert SlotOk(w, t, i);
      ClearSlot(w, t, i);
      UnrefTables(u, o);
    } else if t < |w.tables| && i < |w.tables[t].slots| {
      assert w.tables[t].slots[i := Null] == w.tables[t].slots;
    }
  }

  /** closeAll leaves nothing in the table, and no trace of it in the counts. */
  lemma {:induction false} CloseAllInv(w: World, t: nat, n: nat)
    requires Inv(w) && t < |w.tables| && n <= |w.tables[t].slots|
    ensures var v := CloseAll(w, t, n);
      && Inv(v) && |v.tables| == |w.tables| && |v.objs| == |w.objs| && |v.files| == |w.files|
      && |v.tables[t].slots| == |w.tables[t].slots| && (forall i {:trigger v.tables[t].slots[i]} :: 0 <= i < n ==> v.tables[t].slots[i] == Null)
      && (forall u: nat {:trigger v.tables[u]} :: u < |w.tables| ==> v.tables[u].owner == w.tables[u].owner)
      && (forall o: nat {:trigger v.objs[o]} :: o < |w.objs| ==>
            v.objs[o].kind == w.objs[o].kind && v.objs[o].exited == w.objs[o].exited && v.objs[o].reaped == w.objs[o].reaped && v.objs[o].held == w.objs[o].held)
  {
    hide InvOff, Clear;
    if n > 0 {
      CloseAllInv(w, t, n - 1);
      var u := CloseAll(w, t, n - 1);
      ClearInv(u, t, n - 1);
      ClearSlots(u, t, n - 1);
    }
  }

  /** Storing a reference to a live object. For a handle this must be its first. */
  lemma OpenInv(w: World, t: nat, o: nat)
    requires Inv(w) && InUse(w, t) && o < |w.objs| && w.objs[o].deletes == 0
    requires w.objs[o].kind.Handle? ==> Refs(w.tables, o) == 0
    ensures Inv(Open(w, t, o).0)
  {
    var i := FirstFree(w.tables[t].slots, 1);
    if i < |w.tables[t].slots| {
      AddRefOff(w, o);
      FillSlot(AddRef(w, o), t, i, o);
    }
  }

  // ---------------------------------------------------------------- fork

  function NullSlots(n: nat): (s: seq<Slot>)
    ensures |s| == n && AllNull(s)
  {
    seq(n, _ => Null)
  }

  /** new Table(n). */
  function NewTable(w: World, n: nat): World {
    w.(tables := w.tables + [Table(NullSlots(n), 0, 0, Null)])
  }

  /** One slot of Table::forkMe. A file handle is copied, with its count; other objects are shared. */
  function ForkSlot(w: World, t: nat, u: nat, i: nat): World {
    if t >= |w.tables| || i >= |w.tables[t].slots| || w.tables[t].slots[i] == Null || w.tables[t].slots[i].o >= |w.objs| then w
    else
      var o := w.tables[t].slots[i].o;
      match w.objs[o].kind
      case Handle(start) =>
        var v := MakeHandle(w, start);
        SetSlot(SetObj(v, |w.objs|, v.objs[|w.objs|].(count := w.objs[o].count, held := true)), u, i, Ref(|w.objs|))
      case _ => SetSlot(AddRef(w, o), u, i, Ref(o))
  }

  function ForkSlots(w: World, t: nat, u: nat, n: nat): World {
    if n == 0 then w else ForkSlot(ForkSlots(w, t, u, n - 1), t, u, n - 1)
  }

  /** The process object, with its first reference and its table. */
  function NewProcess(w: World, t: nat): World {
    if t >= |w.tables| then w
    else
      w.(objs := w.objs + [Obj(Process(t), 1, 0, true, false, false)],
         tables := w.tables[t := w.tables[t].(count := w.tables[t].count + 1, owner := Ref(|w.objs|))])
  }

  /** A process whose table is new. */
  function Spawn(w: World, n: nat): World {
    NewProcess(NewTable(w, n), |w.tables|)
  }

  /** fork: a copy of the table, a process for it, and a slot of the parent for the process. */
  function Fork(w: World, t: nat): (World, int) {
    if t >= |w.tables| then (w, ERR_NO_ID)
    else
      var n := |w.tables[t].slots|;
      var filled := ForkSlots(NewTable(w, n), t, |w.tables|, n);
      Open(NewProcess(filled, |w.tables|), t, |filled.objs|)
  }

  lemma NewTableInv(w: World, n: nat)
    requires Inv(w)
    ensures Inv(NewTable(w, n)) && InUse(NewTable(w, n), |w.tables|)
  {
    var v := NewTable(w, n);
    forall o: nat {:trigger Refs(v.tables, o)}
      ensures Refs(v.tables, o) == Refs(w.tables, o)
    {
      RefsAppend(w.tables, v.tables[|w.tables|], o);
      NoneOccur(v.tables[|w.tables|].slots, o);
    }
    forall p: nat {:trigger CountOk(v, p, 0, 0)} ensures CountOk(v, p, 0, 0) { assert CountOk(w, p, 0, 0) && Refs(v.tables, p) == Refs(w.tables, p); }
    forall p: nat {:trigger KindOk(v, p)} ensures KindOk(v, p) { assert KindOk(w, p) && Refs(v.tables, p) == Refs(w.tables, p); }
    forall t: nat, i: nat {:trigger SlotOk(v, t, i)} ensures SlotOk(v, t, i) { assert SlotOk(w, t, i); }
    forall t: nat {:trigger TableOk(v, t)} ensures TableOk(v, t) { assert TableOk(w, t); }
    forall s: nat {:trigger FileOk(v, s)} ensures FileOk(v, s) { assert FileOk(w, s); }
  }

  /** A live handle is in one slot, so its count is 1, and that is the right count for its copy. */
  lemma HandleHeldOnce(w: World, t: nat, i: nat)
    requires Inv(w) && t < |w.tables| && i < |w.tables[t].slots| && w.tables[t].slots[i].Ref?
    ensures var o := w.tables[t].slots[i].o;
      && o < |w.objs| && w.objs[o].deletes == 0 && w.objs[o].count > 0
      && (w.objs[o].kind.Handle? ==> w.objs[o].count == 1 && w.objs[o].kind.start < |w.files|)
  {
    var o := w.tables[t].slots[i].o;
    assert SlotOk(w, t, i) && CountOk(w, o, 0, 0) && KindOk(w, o);
    SomeOccur(w.tables[t].slots, i);
    OccursRefs(w.tables, t, o);
  }

  lemma ForkSlotInv(w: World, t: nat, u: nat, i: nat)
    requires Inv(w) && t < |w.tables| && InUse(w, u) && t != u && i < |w.tables[t].slots| == |w.tables[u].slots|
    requires w.tables[u].slots[i] == Null
    ensures Inv(ForkSlot(w, t, u, i))
  {
    if w.tables[t].slots[i].Ref? {
      HandleHeldOnce(w, t, i);
      var o := w.tables[t].slots[i].o;
      if w.objs[o].kind.Handle? {
        var start, h := w.objs[o].kind.start, |w.objs|;
        MakeHandleOff(w, 0, 0, start);
        var v := MakeHandle(w, start);
        OffZero(v, 0, h);
        CopyCount(v, u, i, h);
      } else {
        AddRefOff(w, o);
        FillSlot(AddRef(w, o), u, i, o);
      }
    }
  }

  /** A new handle with count 1 goes into one slot. */
  lemma CopyCount(v: World, u: nat, i: nat, h: nat)
    requires Inv(v) && InUse(v, u) && i < |v.tables[u].slots| && v.tables[u].slots[i] == Null && h < |v.objs|
    requires Refs(v.tables, h) == 0 && v.objs[h].kind.Handle? && v.objs[h].count == 0 && v.objs[h].deletes == 0
    ensures Inv(SetSlot(SetObj(v, h, v.objs[h].(count := 1, held := true)), u, i, Ref(h)))
  {
    AddRefOff(v, h);
    FillSlot(AddRef(v, h), u, i, h);
  }

  /** What the loop of forkMe leaves alone. */
  ghost predicate Filling(w: World, v: World, u: nat, n: nat) {
    && |v.tables| == |w.tables| && |v.objs| >= |w.objs| && |v.files| == |w.files|
    && (forall t: nat {:trigger v.tables[t]} :: t < |w.tables| ==>
          v.tables[t].owner == w.tables[t].owner && |v.tables[t].slots| == |w.tables[t].slots| && (t != u ==> v.tables[t] == w.tables[t]))
    && (forall o: nat {:trigger v.objs[o]} :: o < |w.objs| ==>
          v.objs[o].kind == w.objs[o].kind && v.objs[o].exited == w.objs[o].exited && v.objs[o].deletes == w.objs[o].deletes)
    && (u < |w.tables| ==> forall i {:trigger v.tables[u].slots[i]} :: n <= i < |w.tables[u].slots| ==> v.tables[u].slots[i] == Null)
  }

  lemma ForkSlotFills(w: World, v: World, t: nat, u: nat, i: nat)
    requires Filling(w, v, u, i) && t < |w.tables| && u < |w.tables| && i < |v.tables[u].slots|
    ensures Filling(w, ForkSlot(v, t, u, i), u, i + 1)
  {
  }

  lemma {:induction false} ForkSlotsInv(w: World, t: nat, u: nat, n: nat)
    requires Inv(w) && t < |w.tables| && InUse(w, u) && t != u && n <= |w.tables[t].slots| == |w.tables[u].slots| && AllNull(w.tables[u].slots)
    ensures Inv(ForkSlots(w, t, u, n)) && Filling(w, ForkSlots(w, t, u, n), u, n)
  {
    hide InvOff, ForkSlot;
    if n > 0 {
      ForkSlotsInv(w, t, u, n - 1);
      var v := ForkSlots(w, t, u, n - 1);
      StillInUse(w, v, u, n - 1);
      ForkSlotInv(v, t, u, n - 1);
      ForkSlotFills(w, v, t, u, n - 1);
    }
  }

  lemma StillInUse(w: World, v: World, u: nat, n: nat)
    requires Filling(w, v, u, n) && InUse(w, u)
    ensures InUse(v, u)
  {
  }

  lemma NewProcessInv(w: World, t: nat)
    requires Inv(w) && t < |w.tables| && w.tables[t].owner == Null
    ensures var v := NewProcess(w, t); Inv(v) && v.objs[|w.objs|].deletes == 0 && Refs(v.tables, |w.objs|) == 0
  {
    var v := NewProcess(w, t);
    NewNotNamed(w, 0, 0, |w.objs|);
    forall o: nat {:trigger Refs(v.tables, o)} ensures Refs(v.tables, o) == Refs(w.tables, o) { RefsChange(w.tables, t, v.tables[t], o); }
    assert TableOk(w, t);
    forall p: nat {:trigger CountOk(v, p, 0, 0)} ensures CountOk(v, p, 0, 0) { assert CountOk(w, p, 0, 0) && Refs(v.tables, p) == Refs(w.tables, p); }
    forall p: nat {:trigger KindOk(v, p)} ensures KindOk(v, p) { assert KindOk(w, p) && Refs(v.tables, p) == Refs(w.tables, p); }
    forall u: nat, i: nat {:trigger SlotOk(v, u, i)} ensures SlotOk(v, u, i) { assert SlotOk(w, u, i); }
    forall u: nat {:trigger TableOk(v, u)} ensures TableOk(v, u) { assert TableOk(w, u); }
    forall s: nat {:trigger FileOk(v, s)} ensures FileOk(v, s) { assert FileOk(w, s); HandlesAppend(w.objs, v.objs[|w.objs|], s); }
  }

  lemma ForkInv(w: World, t: nat)
    requires Inv(w) && InUse(w, t)
    ensures Inv(Fork(w, t).0)
  {
    hide InvOff, ForkSlots, Filling;
    var n, u := |w.tables[t].slots|, |w.tables|;
    var a := NewTable(w, n);
    NewTableInv(w, n);
    ForkSlotsInv(a, t, u, n);
    var b := ForkSlots(a, t, u, n);
    Filled(w, a, b, t, u, n);
    NewProcessInv(b, u);
    OpenInv(NewProcess(b, u), t, |b.objs|);
  }

  lemma Filled(w: World, a: World, b: World, t: nat, u: nat, n: nat)
    requires InUse(w, t) && a == NewTable(w, n) && u == |w.tables| && Filling(a, b, u, n)
    ensures b.tables[u].owner == Null && u < |b.tables| && InUse(NewProcess(b, u), t)
  {
    assert a.tables[t] == w.tables[t] && b.tables[t] == a.tables[t];
    assert t != u;
  }

  // ---------------------------------------------------------------- exit, the reaper, directories

  /** exit: the table is emptied before the process is handed to the reaper. */
  function Exit(w: World, o: nat): World {
    if o >= |w.objs| || !w.objs[o].kind.Process? || w.objs[o].kind.table >= |w.tables| then w
    else
      var t := w.objs[o].kind.table;
      var v := CloseAll(w, t, |w.tables[t].slots|);
      if o < |v.objs| then SetObj(v, o, v.objs[o].(exited := true)) else v
  }

  /** The reaper drops the reference that every process starts with. */
  function Reap(w: World, o: nat): World {
    if o < |w.objs| then Unref(SetObj(w, o, w.objs[o].(reaped := true)), o) else w
  }

  /** A directory holds its open file for good. */
  function MakeDirectory(w: World, start: nat): World {
    if start < |w.dirs| then OpenStart(w, start).(dirs := w.dirs[start := w.dirs[start] + 1]) else w
  }

  /** A process that has not exited. */
  predicate Running(w: World, o: nat) {
    o < |w.objs| && w.objs[o].kind.Process? && !w.objs[o].exited
  }

  lemma RunningUses(w: World, o: nat)
    requires Inv(w) && Running(w, o)
    ensures InUse(w, w.objs[o].kind.table) && w.tables[w.objs[o].kind.table].owner == Ref(o)
  {
    assert KindOk(w, o);
  }

  lemma ExitInv(w: World, o: nat)
    requires Inv(w) && Running(w, o)
    ensures Inv(Exit(w, o)) && |Exit(w, o).objs| == |w.objs| && Exit(w, o).objs[o].exited && !Running(Exit(w, o), o)
  {
    var t := w.objs[o].kind.table;
    RunningUses(w, o);
    CloseAllInv(w, t, |w.tables[t].slots|);
    var v := CloseAll(w, t, |w.tables[t].slots|);
    assert KindOk(v, o) && v.objs[o].kind == w.objs[o].kind;
    ExitedInv(v, o);
  }

  lemma ExitedInv(w: World, o: nat)
    requires Inv(w) && o < |w.objs| && w.objs[o].kind.Process? && w.objs[o].kind.table < |w.tables| && AllNull(w.tables[w.objs[o].kind.table].slots)
    ensures Inv(SetObj(w, o, w.objs[o].(exited := true)))
  {
    var v := SetObj(w, o, w.objs[o].(exited := true));
    forall p: nat {:trigger CountOk(v, p, 0, 0)} ensures CountOk(v, p, 0, 0) { assert CountOk(w, p, 0, 0); }
    forall p: nat {:trigger KindOk(v, p)} ensures KindOk(v, p) { assert KindOk(w, p); }
    forall t: nat, i: nat {:trigger SlotOk(v, t, i)} ensures SlotOk(v, t, i) { assert SlotOk(w, t, i); }
    forall t: nat {:trigger TableOk(v, t)} ensures TableOk(v, t) { assert TableOk(w, t); }
    forall s: nat {:trigger FileOk(v, s)} ensures FileOk(v, s) { assert FileOk(w, s); HandlesSame(w, o, v.objs[o], s); }
  }

  lemma ReapInv(w: World, o: nat)
    requires Inv(w) && o < |w.objs| && w.objs[o].kind.Process? && w.objs[o].exited && !w.objs[o].reaped
    ensures Inv(Reap(w, o))
  {
    var v := SetObj(w, o, w.objs[o].(reaped := true));
    assert w.objs[o].deletes == 0 by { assert CountOk(w, o, 0, 0); }
    forall p: nat {:trigger CountOk(v, p, o, 1)} ensures CountOk(v, p, o, 1) { assert CountOk(w, p, 0, 0); }
    forall p: nat {:trigger KindOk(v, p)} ensures KindOk(v, p) { assert KindOk(w, p); }
    forall t: nat, i: nat {:trigger SlotOk(v, t, i)} ensures SlotOk(v, t, i) { assert SlotOk(w, t, i); }
    forall t: nat {:trigger TableOk(v, t)} ensures TableOk(v, t) { assert TableOk(w, t); }
    forall s: nat {:trigger FileOk(v, s)} ensures FileOk(v, s) { assert FileOk(w, s); HandlesSame(w, o, v.objs[o], s); }
    UnrefOff(v, o);
  }

  lemma MakeDirectoryInv(w: World, start: nat)
    requires Inv(w)
    ensures Inv(MakeDirectory(w, start))
  {
    var v := MakeDirectory(w, start);
    forall p: nat {:trigger CountOk(v, p, 0, 0)} ensures CountOk(v, p, 0, 0) { assert CountOk(w, p, 0, 0); }
    forall p: nat {:trigger KindOk(v, p)} ensures KindOk(v, p) { assert KindOk(w, p); }
    forall t: nat, i: nat {:trigger SlotOk(v, t, i)} ensures SlotOk(v, t, i) { assert SlotOk(w, t, i); }
    forall t: nat {:trigger TableOk(v, t)} ensures TableOk(v, t) { assert TableOk(w, t); }
    forall s: nat {:trigger FileOk(v, s)} ensures FileOk(v, s) { assert FileOk(w, s); }
  }

  // ---------------------------------------------------------------- runs

  /** What the system does with references; p is the process that makes the call. execv looks its
      program up before it empties the table, and never lets go of that file handle; an execv that
      finds no file changes nothing and is not a step. */
  datatype Op =
    | OpSpawn(n: nat)
    | OpSemaphore(p: nat)
    | OpOpen(p: nat, start: nat)
    | OpClose(p: nat, i: int)
    | OpFork(p: nat)
    | OpExec(p: nat, start: nat)
    | OpExit(p: nat)
    | OpReap(p: nat)
    | OpDirectory(start: nat)

  predicate Legal(w: World, op: Op) {
    match op
    case OpSpawn(_) => true
    case OpSemaphore(p) => Running(w, p)
    case OpOpen(p, start) => Running(w, p) && start < |w.files|
    case OpClose(p, _) => Running(w, p)
    case OpFork(p) => Running(w, p)
    case OpExec(p, start) => Running(w, p) && start < |w.files|
    case OpExit(p) => Running(w, p)
    case OpReap(p) => p < |w.objs| && w.objs[p].kind.Process? && w.objs[p].exited && !w.objs[p].reaped
    case OpDirectory(_) => true
  }

  function TableOf(w: World, p: nat): nat {
    if p < |w.objs| && w.objs[p].kind.Process? then w.objs[p].kind.table else |w.tables|
  }

  function Do(w: World, op: Op): World {
    match op
    case OpSpawn(n) => Spawn(w, n)
    case OpSemaphore(p) => Open(MakeSemaphore(w), TableOf(w, p), |w.objs|).0
    case OpOpen(p, start) => Open(MakeHandle(w, start), TableOf(w, p), |w.objs|).0
    case OpClose(p, i) => Close(w, TableOf(w, p), i).0
    case OpFork(p) => Fork(w, TableOf(w, p)).0
    case OpExec(p, start) => CloseAll(MakeHandle(w, start), TableOf(w, p), if TableOf(w, p) < |w.tables| then |w.tables[TableOf(w, p)].slots| else 0)
    case OpExit(p) => Exit(w, p)
    case OpReap(p) => Reap(w, p)
    case OpDirectory(start) => MakeDirectory(w, start)
  }

  lemma DoInv(w: World, op: Op)
    requires Inv(w) && Legal(w, op)
    ensures Inv(Do(w, op))
  {
    hide InvOff, Open, Close, Fork, CloseAll, Exit, Reap, MakeDirectory, Spawn, MakeSemaphore, MakeHandle;
    match op {
      case OpSpawn(n) => SpawnInv(w, n);
      case OpSemaphore(p) => SemaphoreCall(w, p);
      case OpOpen(p, start) => OpenCall(w, p, start);
      case OpClose(p, i) => CloseCall(w, TableOf(w, p), i);
      case OpFork(p) => RunningUses(w, p); ForkInv(w, TableOf(w, p));
      case OpExec(p, start) => ExecCall(w, p, start);
      case OpExit(p) => ExitInv(w, p);
      case OpReap(p) => ReapInv(w, p);
      case OpDirectory(start) => MakeDirectoryInv(w, start);
    }
  }

  lemma SpawnInv(w: World, n: nat)
    requires Inv(w)
    ensures Inv(Spawn(w, n))
  {
    hide InvOff;
    NewTableInv(w, n);
    NewProcessInv(NewTable(w, n), |w.tables|);
  }

  lemma SemaphoreCall(w: World, p: nat)
    requires Inv(w) && Running(w, p)
    ensures Inv(Open(MakeSemaphore(w), TableOf(w, p), |w.objs|).0)
  {
    hide InvOff, Open;
    RunningUses(w, p);
    MakeSemaphoreInv(w);
    OpenInv(MakeSemaphore(w), TableOf(w, p), |w.objs|);
  }

  lemma OpenCall(w: World, p: nat, start: nat)
    requires Inv(w) && Running(w, p) && start < |w.files|
    ensures Inv(Open(MakeHandle(w, start), TableOf(w, p), |w.objs|).0)
  {
    hide InvOff, Open;
    RunningUses(w, p);
    MakeHandleOff(w, 0, 0, start);
    OpenInv(MakeHandle(w, start), TableOf(w, p), |w.objs|);
  }

  lemma ExecCall(w: World, p: nat, start: nat)
    requires Inv(w) && Running(w, p) && start < |w.files|
    ensures TableOf(w, p) < |w.tables| && Inv(CloseAll(MakeHandle(w, start), TableOf(w, p), |w.tables[TableOf(w, p)].slots|))
  {
    hide InvOff, CloseAll;
    RunningUses(w, p);
    MakeHandleOff(w, 0, 0, start);
    CloseAllInv(MakeHandle(w, start), TableOf(w, p), |w.tables[TableOf(w, p)].slots|);
  }

  lemma CloseCall(w: World, t: nat, i: int)
    requires Inv(w)
    ensures Inv(Close(w, t, i).0)
  {
    hide InvOff, Clear;
    if 0 <= i { ClearInv(w, t, i); }
  }

  /** Before the first process: no objects, no tables, no open files. */
  ghost predicate Fresh(w: World) {
    && w.objs == [] && w.tables == [] && |w.dirs| == |w.files|
    && forall s {:trigger w.files[s]} :: 0 <= s < |w.files| ==> w.files[s] == OpenFile(false, 0, 0, 0) && w.dirs[s] == 0
  }

  lemma FreshInv(w: World)
    requires Fresh(w)
    ensures Inv(w)
  {
  }

  function Run(w: World, ops: seq<Op>): World
    decreases |ops|
  {
    if ops == [] then w else Run(if Legal(w, ops[0]) then Do(w, ops[0]) else w, ops[1..])
  }

  /** In every state of every run the counts are the holders. */
  lemma {:induction false} RunInv(w: World, ops: seq<Op>)
    requires Inv(w)
    ensures Inv(Run(w, ops))
    decreases |ops|
  {
    hide InvOff, Do, Legal;
    if ops != [] {
      if Legal(w, ops[0]) {
        DoInv(w, ops[0]);
        RunInv(Do(w, ops[0]), ops[1..]);
      } else {
        RunInv(w, ops[1..]);
      }
    }
  }

  /** From the start of the system on, in every state: every count is the number of holders, no slot
      names a deleted object, and nothing is deleted twice. */
  lemma BootRunInv(w: World, ops: seq<Op>)
    requires Fresh(w)
    ensures Inv(Run(w, ops))
    ensures forall o: nat {:trigger Run(w, ops).objs[o]} :: o < |Run(w, ops).objs| ==> Run(w, ops).objs[o].deletes <= 1
    ensures forall t: nat, i: nat {:trigger Run(w, ops).tables[t].slots[i]} ::
      var v := Run(w, ops); t < |v.tables| && i < |v.tables[t].slots| && v.tables[t].slots[i].Ref? ==> v.tables[t].slots[i].o < |v.objs| && v.objs[v.tables[t].slots[i].o].deletes == 0
  {
    FreshInv(w);
    RunInv(w, ops);
    var v := Run(w, ops);
    forall o: nat {:trigger v.objs[o]} | o < |v.objs| ensures v.objs[o].deletes <= 1 { DeletedWhenLastGoes(v, o); }
    forall t: nat, i: nat {:trigger v.tables[t].slots[i]} | t < |v.tables| && i < |v.tables[t].slots| && v.tables[t].slots[i].Ref?
      ensures v.tables[t].slots[i].o < |v.objs| && v.objs[v.tables[t].slots[i].o].deletes == 0
    {
      NoDangling(v, t, i);
    }
  }

  // ---------------------------------------------------------------- what it means

  /** The answers of close: 0 exactly if the slot exists and holds something, and then that slot is
      empty and all others are as they were; -1002 otherwise, and then nothing changes. */
  lemma CloseAnswers(w: World, t: nat, i: int)
    requires Inv(w) && t < |w.tables|
    ensures var (v, code) := Close(w, t, i);
      var slots := w.tables[t].slots;
      && (code == 0 <==> 0 <= i < |slots| && slots[i] != Null)
      && (code != 0 ==> code == -1002 && v == w)
      && (code == 0 ==> |v.tables| == |w.tables| && forall u: nat {:trigger v.tables[u]} :: u < |v.tables| ==> v.tables[u].slots == if u == t then slots[i := Null] else w.tables[u].slots)
  {
    if 0 <= i { ClearSlots(w, t, i); }
  }

  /** No table names a deleted object. */
  lemma NoDangling(w: World, t: nat, i: nat)
    requires Inv(w) && t < |w.tables| && i < |w.tables[t].slots| && w.tables[t].slots[i].Ref?
    ensures var o := w.tables[t].slots[i].o; o < |w.objs| && w.objs[o].deletes == 0
  {
    HandleHeldOnce(w, t, i);
  }

  /** An object is deleted at most once; one that was ever held has been deleted exactly when no slot
      names it any more and, for a process, it has been reaped. */
  lemma DeletedWhenLastGoes(w: World, o: nat)
    requires Inv(w) && o < |w.objs|
    ensures w.objs[o].deletes <= 1
    ensures w.objs[o].held ==> (w.objs[o].deletes == 1 <==> Refs(w.tables, o) == 0 && (w.objs[o].kind.Process? ==> w.objs[o].reaped))
    ensures w.objs[o].kind == Semaphore ==> w.objs[o].count == Refs(w.tables, o)
    ensures w.objs[o].kind.Process? ==> w.objs[o].count == Refs(w.tables, o) + One(!w.objs[o].reaped)
  {
    assert CountOk(w, o, 0, 0) && KindOk(w, o);
  }

  /** openFiles[s] is null exactly when no live handle and no directory is on s, and the count of an
      open file is their number. */
  lemma OpenWhileHeld(w: World, s: nat)
    requires Inv(w) && s < |w.files|
    ensures w.files[s].count == Handles(w.objs, s) + w.dirs[s]
    ensures w.files[s].present <==> Handles(w.objs, s) + w.dirs[s] > 0
    ensures w.files[s].deletes == w.files[s].made - One(w.files[s].present)
  {
    assert FileOk(w, s);
  }

  /** A table goes with its process, empty. */
  lemma TableGoesWithProcess(w: World, o: nat)
    requires Inv(w) && o < |w.objs| && w.objs[o].kind.Process?
    ensures w.objs[o].kind.table < |w.tables|
    ensures var t := w.tables[w.objs[o].kind.table];
      t.deletes == w.objs[o].deletes && (t.deletes == 1 ==> AllNull(t.slots))
  {
    assert KindOk(w, o) && CountOk(w, o, 0, 0) && TableOk(w, w.objs[o].kind.table);
  }

  /** What close undoes: the table and the counts are as before the object was opened, and an object
      that nobody else holds is gone. */
  lemma OpenThenClose(w: World, p: nat)
    requires Inv(w) && Running(w, p)
    ensures var u := MakeSemaphore(w);
      var (v, slot) := Open(u, TableOf(w, p), |w.objs|);
      slot >= 0 ==>
        var x := Close(v, TableOf(w, p), slot);
        x.1 == 0 && x.0.tables == w.tables && x.0.files == w.files
        && |x.0.objs| == |w.objs| + 1 && x.0.objs[..|w.objs|] == w.objs && x.0.objs[|w.objs|].deletes == 1
  {
    RunningUses(w, p);
    var u, t, o := MakeSemaphore(w), TableOf(w, p), |w.objs|;
    var (v, slot) := Open(u, t, o);
    if slot >= 0 {
      assert v.tables[t].slots[slot] == Ref(o);
      assert v.tables[t].slots[slot := Null] == w.tables[t].slots;
      var y := SetSlot(v, t, slot, Null);
      assert y.tables == w.tables;
      assert v.objs[o].count == 1;
    }
  }
}
