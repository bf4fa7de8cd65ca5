/** What a child finds in its table after fork. */
module RefFork {
  import opened RefModel
  import opened RefSteps
  import opened RefRuns

  /** Slot i of the child's table u against the parent's table t before the fork: empty if the
      parent's is, the same semaphore or process, or a handle of its own on the same file. */
  predicate SlotForked(w: World, v: World, t: nat, u: nat, i: nat) {
    t < |w.tables| && u < |v.tables| && i < |w.tables[t].slots| == |v.tables[u].slots| ==>
      var x, y := w.tables[t].slots[i], v.tables[u].slots[i];
      match x
      case Null => y == Null
      case Ref(o) =>
        o < |w.objs| && y.Ref? &&
        if w.objs[o].kind.Handle? then
          |w.objs| <= y.o < |v.objs| && v.objs[y.o].kind == w.objs[o].kind && v.objs[y.o].count == 1 && v.objs[y.o].deletes == 0
        else y == x
  }

  /** The handles made for two slots are different. */
  predicate HandlesApart(w: World, v: World, t: nat, u: nat, i: nat, j: nat) {
    t < |w.tables| && u < |v.tables| && i < j < |w.tables[t].slots| == |v.tables[u].slots| && MadeHandle(w, t, i) && MadeHandle(w, t, j) ==>
      v.tables[u].slots[i] != v.tables[u].slots[j]
  }

  predicate MadeHandle(w: World, t: nat, i: nat) {
    t < |w.tables| && i < |w.tables[t].slots| && w.tables[t].slots[i].Ref? && w.tables[t].slots[i].o < |w.objs| && w.objs[w.tables[t].slots[i].o].kind.Handle?
  }

  /** An object of the parent's time: a shared one is referenced once more from each slot that names
      it, a handle is as it was. */
  predicate Shared(w: World, v: World, t: nat, n: nat, o: nat) {
    o < |w.objs| <= |v.objs| && t < |w.tables| && n <= |w.tables[t].slots| ==>
      v.objs[o] == w.objs[o].(count := v.objs[o].count, held := v.objs[o].held)
      && v.objs[o].count == w.objs[o].count + (if w.objs[o].kind.Handle? then 0 else Occurs(w.tables[t].slots[..n], o))
  }

  /** The first n slots have been forked. */
  ghost predicate Forked(w: World, v: World, t: nat, u: nat, n: nat) {
    && t < |w.tables| <= |v.tables| && u < |v.tables| && n <= |w.tables[t].slots| == |v.tables[u].slots| && |w.objs| <= |v.objs|
    && (forall i: nat {:trigger SlotForked(w, v, t, u, i)} :: i < n ==> SlotForked(w, v, t, u, i))
    && (forall i: nat, j: nat {:trigger HandlesApart(w, v, t, u, i, j)} :: i < n && j < n ==> HandlesApart(w, v, t, u, i, j))
    && (forall o: nat {:trigger Shared(w, v, t, n, o)} :: Shared(w, v, t, n, o))
  }

  lemma ForkedNone(w: World, t: nat, u: nat)
    requires t < |w.tables| && u < |w.tables| && |w.tables[t].slots| == |w.tables[u].slots|
    ensures Forked(w, w, t, u, 0)
  {
  }

  lemma OccursNext(slots: seq<Slot>, n: nat, o: nat)
    requires n < |slots|
    ensures Occurs(slots[..n + 1], o) == Occurs(slots[..n], o) + One(slots[n] == Ref(o))
  {
    assert slots[..n + 1][..n] == slots[..n];
  }

  /** One slot more. */
  lemma ForkedNext(w: World, v: World, t: nat, u: nat, n: nat)
    requires Inv(w) && Inv(v) && t != u && Forked(w, v, t, u, n) && n < |w.tables[t].slots| && v.tables[t] == w.tables[t]
    requires v.tables[u].slots[n] == Null
    ensures Forked(w, ForkSlot(v, t, u, n), t, u, n + 1)
  {
    var after := ForkSlot(v, t, u, n);
    NextSame(w, v, t, u, n);
    forall i: nat {:trigger SlotForked(w, after, t, u, i)} | i < n + 1 ensures SlotForked(w, after, t, u, i) { NextSlotForked(w, v, t, u, n, i); }
    forall i: nat, j: nat {:trigger HandlesApart(w, after, t, u, i, j)} | i < n + 1 && j < n + 1
      ensures HandlesApart(w, after, t, u, i, j)
    {
      NextApart(w, v, t, u, n, i, j);
    }
    forall o: nat {:trigger Shared(w, after, t, n + 1, o)} ensures Shared(w, after, t, n + 1, o) { NextShared(w, v, t, u, n, o); }
  }

  lemma NextSame(w: World, v: World, t: nat, u: nat, n: nat)
    requires Forked(w, v, t, u, n) && n < |w.tables[t].slots| && v.tables[t] == w.tables[t]
    ensures var after := ForkSlot(v, t, u, n); |after.tables| == |v.tables| && |v.objs| <= |after.objs| && |after.tables[u].slots| == |v.tables[u].slots|
  {
  }

  lemma NextSlotForked(w: World, v: World, t: nat, u: nat, n: nat, i: nat)
    requires Inv(w) && Inv(v) && t != u && Forked(w, v, t, u, n) && n < |w.tables[t].slots| && v.tables[t] == w.tables[t] && i < n + 1
    requires v.tables[u].slots[n] == Null
    ensures SlotForked(w, ForkSlot(v, t, u, n), t, u, i)
  {
    hide Inv;
    if i < n { OldSlotForked(w, v, t, u, n, i); } else { NewSlotForked(w, v, t, u, n); }
  }

  lemma NewSlotForked(w: World, v: World, t: nat, u: nat, n: nat)
    requires Inv(w) && Inv(v) && t != u && Forked(w, v, t, u, n) && n < |w.tables[t].slots| && v.tables[t] == w.tables[t]
    requires v.tables[u].slots[n] == Null
    ensures SlotForked(w, ForkSlot(v, t, u, n), t, u, n)
  {
    hide Inv;
    if v.tables[t].slots[n].Ref? {
      HandleHeldOnce(v, t, n);
      HandleHeldOnce(w, t, n);
      assert Shared(w, v, t, n, v.tables[t].slots[n].o);
    }
  }

  lemma OldSlotForked(w: World, v: World, t: nat, u: nat, n: nat, i: nat)
    requires Inv(w) && t != u && Forked(w, v, t, u, n) && i < n < |w.tables[t].slots| && v.tables[t] == w.tables[t]
    ensures SlotForked(w, ForkSlot(v, t, u, n), t, u, i)
  {
    hide Inv;
    assert SlotForked(w, v, t, u, i);
    if v.tables[t].slots[n].Ref? {
      HandleHeldOnce(w, t, n);
      assert Shared(w, v, t, n, v.tables[t].slots[n].o);
    }
  }

  lemma NextApart(w: World, v: World, t: nat, u: nat, n: nat, i: nat, j: nat)
    requires Inv(w) && t != u && Forked(w, v, t, u, n) && n < |w.tables[t].slots| && v.tables[t] == w.tables[t] && i < n + 1 && j < n + 1
    ensures HandlesApart(w, ForkSlot(v, t, u, n), t, u, i, j)
  {
    assert HandlesApart(w, v, t, u, i, j) || j == n;
    if i < n { assert SlotForked(w, v, t, u, i); }
    if j == n && v.tables[t].slots[n].Ref? {
      HandleHeldOnce(w, t, n);
      assert Shared(w, v, t, n, v.tables[t].slots[n].o);
    }
  }

  lemma NextShared(w: World, v: World, t: nat, u: nat, n: nat, o: nat)
    requires Inv(w) && t != u && Forked(w, v, t, u, n) && n < |w.tables[t].slots| && v.tables[t] == w.tables[t]
    ensures Shared(w, ForkSlot(v, t, u, n), t, n + 1, o)
  {
    assert Shared(w, v, t, n, o);
    OccursNext(w.tables[t].slots, n, o);
    if v.tables[t].slots[n].Ref? {
      HandleHeldOnce(w, t, n);
      assert Shared(w, v, t, n, v.tables[t].slots[n].o);
    }
  }

  lemma {:induction false} SlotsForked(w: World, t: nat, u: nat, n: nat)
    requires Inv(w) && t < |w.tables| && InUse(w, u) && t != u && n <= |w.tables[t].slots| == |w.tables[u].slots| && AllNull(w.tables[u].slots)
    ensures Forked(w, ForkSlots(w, t, u, n), t, u, n)
  {
    hide InvOff, ForkSlot, Forked;
    if n == 0 {
      ForkedNone(w, t, u);
    } else {
      SlotsForked(w, t, u, n - 1);
      ForkSlotsInv(w, t, u, n - 1);
      StillNull(w, ForkSlots(w, t, u, n - 1), u, n - 1);
      ParentTable(w, ForkSlots(w, t, u, n - 1), t, u, n - 1);
      ForkedNext(w, ForkSlots(w, t, u, n - 1), t, u, n - 1);
    }
  }

  lemma StillNull(w: World, v: World, u: nat, n: nat)
    requires Filling(w, v, u, n) && u < |w.tables| && n < |w.tables[u].slots|
    ensures v.tables[u].slots[n] == Null
  {
  }

  lemma ParentTable(w: World, v: World, t: nat, u: nat, n: nat)
    requires Filling(w, v, u, n) && t < |w.tables| && t != u
    ensures v.tables[t] == w.tables[t]
  {
  }

  // ---------------------------------------------------------------- fork as a whole

  /** What open does to a table's slots: the first free one from 1 on takes the object, and is the
      answer; with none free the answer is -1003. */
  predicate TakesFirst(before: seq<Slot>, after: seq<Slot>, id: int, child: nat) {
    if 1 <= id < |before| then
      before[id] == Null && after == before[id := Ref(child)] && forall k {:trigger before[k]} :: 1 <= k < id ==> before[k] != Null
    else
      id == -1003 && after == before && forall k {:trigger before[k]} :: 1 <= k < |before| ==> before[k] != Null
  }

  lemma OpenTakes(w: World, t: nat, o: nat)
    requires t < |w.tables| && o < |w.objs|
    ensures var (v, id) := Open(w, t, o);
      && |v.tables| == |w.tables| && TakesFirst(w.tables[t].slots, v.tables[t].slots, id, o)
      && |v.objs| == |w.objs| && v.objs[o].count == w.objs[o].count + One(id >= 0)
      && (forall x: nat {:trigger v.tables[x]} :: x < |w.tables| && x != t ==> v.tables[x] == w.tables[x])
      && (forall x: nat {:trigger v.objs[x]} :: x < |w.objs| && x != o ==> v.objs[x] == w.objs[x])
  {
  }

  ghost predicate ForkResult(w: World, v: World, t: nat, id: int) {
    var u, child := |w.tables|, |v.objs| - 1;
    && t < |w.tables| && |v.tables| == u + 1 && |w.objs| <= child
    && (forall i: nat {:trigger SlotForked(w, v, t, u, i)} :: SlotForked(w, v, t, u, i))
    && (forall i: nat, j: nat {:trigger HandlesApart(w, v, t, u, i, j)} :: HandlesApart(w, v, t, u, i, j))
    && (forall o: nat {:trigger Shared(w, v, t, |w.tables[t].slots|, o)} :: Shared(w, v, t, |w.tables[t].slots|, o))
    && |v.tables[u].slots| == |w.tables[t].slots| && v.tables[u].owner == Ref(child) && v.objs[child].kind == Process(u)
    && v.objs[child].count == 1 + One(id >= 0) && !v.objs[child].exited
    && TakesFirst(w.tables[t].slots, v.tables[t].slots, id, child)
    && forall x: nat {:trigger v.tables[x]} :: x < u && x != t ==> v.tables[x] == w.tables[x]
  }

  /** fork: the child's slots are the parent's, slot by slot - shared semaphores and processes with
      one more reference for each slot, and handles of its own on the same files - and the parent's
      table differs from before only in the slot that takes the child. */
  lemma ForkCopies(w: World, t: nat)
    requires Inv(w) && InUse(w, t)
    ensures ForkResult(w, Fork(w, t).0, t, Fork(w, t).1)
  {
    hide InvOff, ForkSlots, Filling, Forked, SlotForked, HandlesApart, Shared, Open;
    var n, u := |w.tables[t].slots|, |w.tables|;
    var a := NewTable(w, n);
    NewTableInv(w, n);
    ForkSlotsInv(a, t, u, n);
    SlotsForked(a, t, u, n);
    var b := ForkSlots(a, t, u, n);
    Filled(w, a, b, t, u, n);
    ForkEnds(w, a, b, t);
  }

  lemma ForkEnds(w: World, a: World, b: World, t: nat)
    requires t < |w.tables| && a == NewTable(w, |w.tables[t].slots|) && Filling(a, b, |w.tables|, |w.tables[t].slots|)
    requires Forked(a, b, t, |w.tables|, |w.tables[t].slots|)
    ensures var r := Open(NewProcess(b, |w.tables|), t, |b.objs|); ForkResult(w, r.0, t, r.1)
  {
    var n, u, child := |w.tables[t].slots|, |w.tables|, |b.objs|;
    OpenTakes(NewProcess(b, u), t, child);
    var (v, id) := Open(NewProcess(b, u), t, child);
    assert b.tables[t] == a.tables[t] == w.tables[t];
    forall i: nat {:trigger SlotForked(w, v, t, u, i)} ensures SlotForked(w, v, t, u, i) { assert i < n ==> SlotForked(a, b, t, u, i); }
    forall i: nat, j: nat {:trigger HandlesApart(w, v, t, u, i, j)} ensures HandlesApart(w, v, t, u, i, j) { assert i < n && j < n ==> HandlesApart(a, b, t, u, i, j); }
    forall o: nat {:trigger Shared(w, v, t, n, o)} ensures Shared(w, v, t, n, o) { assert Shared(a, b, t, n, o); }
  }

  // ---------------------------------------------------------------- the other calls

  /** A new process has a table of n empty slots of its own and one reference to it. */
  lemma SpawnMakes(w: World, n: nat)
    requires Inv(w)
    ensures var v, p, t := Do(w, OpSpawn(n)), |w.objs|, |w.tables|;
      && |v.objs| == p + 1 && |v.tables| == t + 1 && v.objs[..p] == w.objs && v.tables[..t] == w.tables && v.files == w.files
      && Running(v, p) && v.objs[p].kind == Process(t) && v.objs[p].count == 1
      && |v.tables[t].slots| == n && AllNull(v.tables[t].slots)
  {
  }

  /** exec leaves the caller an empty table and the tables of the others as they were; its handle on
      the program is held by nobody. */
  lemma ExecEmpties(w: World, p: nat, start: nat)
    requires Inv(w) && Legal(w, OpExec(p, start))
    ensures var v, t := Do(w, OpExec(p, start)), TableOf(w, p);
      && t < |w.tables| == |v.tables| && Running(v, p) && TableOf(v, p) == t
      && |v.tables[t].slots| == |w.tables[t].slots| && AllNull(v.tables[t].slots)
      && (forall u: nat {:trigger v.tables[u]} :: u < |v.tables| && u != t ==> v.tables[u].slots == w.tables[u].slots)
      && |v.objs| == |w.objs| + 1 && v.objs[|w.objs|].kind == Handle(start)
  {
    hide InvOff, CloseAll;
    RunningUses(w, p);
    MakeHandleOff(w, 0, 0, start);
    var u, t := MakeHandle(w, start), TableOf(w, p);
    CloseAllInv(u, t, |u.tables[t].slots|);
    CloseAllOthers(u, t, |u.tables[t].slots|);
  }

  lemma {:induction false} CloseAllOthers(w: World, t: nat, n: nat)
    requires Inv(w) && t < |w.tables| && n <= |w.tables[t].slots|
    ensures var v := CloseAll(w, t, n);
      |v.tables| == |w.tables| && forall u: nat {:trigger v.tables[u]} :: u < |v.tables| && u != t ==> v.tables[u].slots == w.tables[u].slots
  {
    hide InvOff, Clear;
    if n > 0 {
      CloseAllInv(w, t, n - 1);
      CloseAllOthers(w, t, n - 1);
      ClearSlots(CloseAll(w, t, n - 1), t, n - 1);
    }
  }

  /** exit: the process has exited, its table is empty and those of the others are as they were. */
  lemma ExitEmpties(w: World, p: nat)
    requires Inv(w) && Legal(w, OpExit(p))
    ensures var v, t := Do(w, OpExit(p)), TableOf(w, p);
      && t < |w.tables| == |v.tables| && p < |v.objs| && v.objs[p].exited && AllNull(v.tables[t].slots)
      && (forall u: nat {:trigger v.tables[u]} :: u < |v.tables| && u != t ==> v.tables[u].slots == w.tables[u].slots)
      && (forall q: nat {:trigger v.objs[q]} :: q < |w.objs| && q != p ==> q < |v.objs| && v.objs[q].exited == w.objs[q].exited)
  {
    hide InvOff, CloseAll;
    RunningUses(w, p);
    CloseAllInv(w, TableOf(w, p), |w.tables[TableOf(w, p)].slots|);
    CloseAllOthers(w, TableOf(w, p), |w.tables[TableOf(w, p)].slots|);
  }

  /** fork as a call of process p. */
  lemma ForkCall(w: World, p: nat) returns (id: int)
    requires Inv(w) && Legal(w, OpFork(p))
    ensures ForkResult(w, Do(w, OpFork(p)), TableOf(w, p), id)
  {
    RunningUses(w, p);
    ForkCopies(w, TableOf(w, p));
    id := Fork(w, TableOf(w, p)).1;
  }

  /** Opening a file or making a semaphore as a call of process p: the new object takes the first
      free slot, if there is one. */
  lemma OpenCallTakes(w: World, op: Op) returns (id: int)
    requires Inv(w) && Legal(w, op) && (op.OpSemaphore? || op.OpOpen?)
    ensures var v, t, o := Do(w, op), TableOf(w, op.p), |w.objs|;
      && t < |w.tables| == |v.tables| && |v.objs| == o + 1 && v.objs[o].kind == (if op.OpOpen? then Handle(op.start) else Semaphore)
      && TakesFirst(w.tables[t].slots, v.tables[t].slots, id, o) && v.objs[o].count == One(id >= 0) && v.objs[o].deletes == 0
      && v.objs[..o] == w.objs
      && (forall x: nat {:trigger v.tables[x]} :: x < |w.tables| && x != t ==> v.tables[x] == w.tables[x])
  {
    RunningUses(w, op.p);
    var u := if op.OpOpen? then MakeHandle(w, op.start) else MakeSemaphore(w);
    OpenTakes(u, TableOf(w, op.p), |w.objs|);
    id := Open(u, TableOf(w, op.p), |w.objs|).1;
    assert Do(w, op).objs[..|w.objs|] == w.objs;
  }

  /** close as a call of process p. */
  lemma CloseCallClears(w: World, p: nat, i: int)
    requires Inv(w) && Legal(w, OpClose(p, i))
    ensures var v, t := Do(w, OpClose(p, i)), TableOf(w, p);
      && t < |w.tables| == |v.tables|
      && forall x: nat {:trigger v.tables[x]} :: x < |v.tables| ==>
           v.tables[x].slots == if x == t && 0 <= i < |w.tables[t].slots| then w.tables[t].slots[i := Null] else w.tables[x].slots
  {
    RunningUses(w, p);
    CloseAnswers(w, TableOf(w, p), i);
  }

  /** The reaper lets go of an exited process; it is deleted exactly if no slot names it. A directory
      is one holder more for its file. */
  lemma ReapAndDirectory(w: World, p: nat, start: nat)
    requires Inv(w)
    ensures Legal(w, OpReap(p)) ==>
      var v := Do(w, OpReap(p)); p < |v.objs| && v.objs[p].reaped && v.objs[p].deletes == One(Refs(w.tables, p) == 0)
    ensures start < |w.files| ==>
      var v := Do(w, OpDirectory(start)); start < |w.dirs| == |v.dirs| && v.dirs == w.dirs[start := w.dirs[start] + 1] && start < |v.files| && v.files[start].present
  {
    if Legal(w, OpReap(p)) {
      ReapInv(w, p);
      var v := Reap(w, p);
      assert CountOk(w, p, 0, 0) && CountOk(v, p, 0, 0);
    }
  }
}
