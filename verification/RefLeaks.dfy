/** Objects that nobody can ever let go: those for which open found no slot, and the program file of
    execv. */
module RefLeaks {
  import opened RefModel
  import opened RefSteps
  import opened RefRuns

  /** An object that exists and has never been held. */
  predicate Lost(w: World, o: nat) {
    o < |w.objs| && !w.objs[o].held && !w.objs[o].kind.Process?
  }

  predicate SameObj(w: World, v: World, o: nat) {
    o < |w.objs| && o < |v.objs| && v.objs[o] == w.objs[o]
  }

  /** No slot names it. */
  lemma NamedIsHeld(w: World, o: nat, t: nat, i: nat)
    requires Inv(w) && Lost(w, o) && t < |w.tables| && i < |w.tables[t].slots|
    ensures w.tables[t].slots[i] != Ref(o)
  {
    if w.tables[t].slots[i].Ref? {
      HandleHeldOnce(w, t, i);
      assert CountOk(w, w.tables[t].slots[i].o, 0, 0);
    }
  }

  lemma LostCount(w: World, o: nat)
    requires Inv(w) && Lost(w, o)
    ensures w.objs[o].count == 0 && w.objs[o].deletes == 0
    ensures w.objs[o].kind.Handle? ==> w.objs[o].kind.start < |w.files| && w.files[w.objs[o].kind.start].present
  {
    assert CountOk(w, o, 0, 0) && KindOk(w, o);
    if w.objs[o].kind.Handle? {
      var s := w.objs[o].kind.start;
      assert FileOk(w, s);
      LiveCounts(w.objs, o, s);
    }
  }

  lemma {:induction false} LiveCounts(objs: seq<Obj>, o: nat, start: nat)
    requires o < |objs| && LiveHandle(objs[o], start)
    ensures Handles(objs, start) > 0
  {
    if o < |objs| - 1 { LiveCounts(objs[..|objs| - 1], o, start); }
  }

  // ---------------------------------------------------------------- no step touches it

  lemma ClearSame(w: World, t: nat, i: nat, o: nat)
    requires Inv(w) && Lost(w, o)
    ensures SameObj(w, Clear(w, t, i), o)
  {
    if t < |w.tables| && i < |w.tables[t].slots| { NamedIsHeld(w, o, t, i); }
  }

  lemma {:induction false} CloseAllSame(w: World, t: nat, n: nat, o: nat)
    requires Inv(w) && Lost(w, o) && t < |w.tables| && n <= |w.tables[t].slots|
    ensures SameObj(w, CloseAll(w, t, n), o)
  {
    hide InvOff, Clear;
    if n > 0 {
      CloseAllInv(w, t, n - 1);
      CloseAllSame(w, t, n - 1, o);
      ClearSame(CloseAll(w, t, n - 1), t, n - 1, o);
    }
  }

  lemma OpenSame(w: World, t: nat, x: nat, o: nat)
    requires o < |w.objs| && x != o
    ensures SameObj(w, Open(w, t, x).0, o)
  {
  }

  lemma ForkSlotSame(w: World, t: nat, u: nat, i: nat, o: nat)
    requires Inv(w) && Lost(w, o)
    ensures SameObj(w, ForkSlot(w, t, u, i), o)
  {
    if t < |w.tables| && i < |w.tables[t].slots| { NamedIsHeld(w, o, t, i); }
  }

  lemma {:induction false} ForkSlotsSame(w: World, t: nat, u: nat, n: nat, o: nat)
    requires Inv(w) && t < |w.tables| && InUse(w, u) && t != u && n <= |w.tables[t].slots| == |w.tables[u].slots| && AllNull(w.tables[u].slots)
    requires Lost(w, o)
    ensures SameObj(w, ForkSlots(w, t, u, n), o)
  {
    hide InvOff, ForkSlot;
    if n > 0 {
      ForkSlotsInv(w, t, u, n - 1);
      ForkSlotsSame(w, t, u, n - 1, o);
      ForkSlotSame(ForkSlots(w, t, u, n - 1), t, u, n - 1, o);
    }
  }

  lemma ForkSame(w: World, t: nat, o: nat)
    requires Inv(w) && InUse(w, t) && Lost(w, o)
    ensures SameObj(w, Fork(w, t).0, o)
  {
    hide InvOff, ForkSlots, Open;
    var n, u := |w.tables[t].slots|, |w.tables|;
    var a := NewTable(w, n);
    NewTableInv(w, n);
    ForkSlotsSame(a, t, u, n, o);
    var b := ForkSlots(a, t, u, n);
    OpenSame(NewProcess(b, u), t, |b.objs|, o);
  }

  lemma ExitSame(w: World, p: nat, o: nat)
    requires Inv(w) && Running(w, p) && Lost(w, o)
    ensures SameObj(w, Exit(w, p), o)
  {
    hide InvOff, CloseAll;
    RunningUses(w, p);
    CloseAllSame(w, w.objs[p].kind.table, |w.tables[w.objs[p].kind.table].slots|, o);
  }

  lemma DoSame(w: World, op: Op, o: nat)
    requires Inv(w) && Legal(w, op) && Lost(w, o)
    ensures SameObj(w, Do(w, op), o)
  {
    hide InvOff, Open, CloseAll, Exit, Fork, Clear;
    match op {
      case OpSpawn(n) =>
      case OpSemaphore(p) => OpenSame(MakeSemaphore(w), TableOf(w, p), |w.objs|, o);
      case OpOpen(p, start) => OpenSame(MakeHandle(w, start), TableOf(w, p), |w.objs|, o);
      case OpClose(p, i) => if i >= 0 { ClearSame(w, TableOf(w, p), i, o); }
      case OpFork(p) => RunningUses(w, p); ForkSame(w, TableOf(w, p), o);
      case OpExec(p, start) => ExecSame(w, p, start, o);
      case OpExit(p) => ExitSame(w, p, o);
      case OpReap(p) => ReapSame(w, p, o);
      case OpDirectory(start) =>
    }
  }

  lemma ExecSame(w: World, p: nat, start: nat, o: nat)
    requires Inv(w) && Running(w, p) && start < |w.files| && Lost(w, o)
    ensures SameObj(w, Do(w, OpExec(p, start)), o)
  {
    hide InvOff, CloseAll;
    RunningUses(w, p);
    MakeHandleOff(w, 0, 0, start);
    CloseAllSame(MakeHandle(w, start), TableOf(w, p), |w.tables[TableOf(w, p)].slots|, o);
  }

  lemma ReapSame(w: World, p: nat, o: nat)
    requires p < |w.objs| && w.objs[p].kind.Process? && Lost(w, o)
    ensures SameObj(w, Reap(w, p), o)
  {
  }

  /** Once lost, lost for good: no run ever changes the object, and a handle keeps its open file. */
  lemma {:induction false} StaysLost(w: World, ops: seq<Op>, o: nat)
    requires Inv(w) && Lost(w, o)
    ensures SameObj(w, Run(w, ops), o) && Lost(Run(w, ops), o) && Inv(Run(w, ops))
    decreases |ops|
  {
    hide InvOff, Do, Legal;
    if ops != [] {
      if Legal(w, ops[0]) {
        DoInv(w, ops[0]);
        DoSame(w, ops[0], o);
        StaysLost(Do(w, ops[0]), ops[1..], o);
      } else {
        StaysLost(w, ops[1..], o);
      }
    }
  }

  // ---------------------------------------------------------------- open without a slot

  /** The process whose table takes the object that a call makes. */
  predicate Opens(op: Op) {
    op.OpSemaphore? || op.OpOpen?
  }

  predicate Full(w: World, t: nat) {
    t < |w.tables| && FirstFree(w.tables[t].slots, 1) >= |w.tables[t].slots|
  }

  predicate Undeleted(w: World, o: nat) {
    o < |w.objs| && w.objs[o].count == 0 && w.objs[o].deletes == 0 && (w.objs[o].kind.Handle? ==> w.objs[o].kind.start < |w.files| && w.files[w.objs[o].kind.start].present)
  }

  /** A semaphore or a file handle that open finds no slot for is never deleted, whatever happens
      afterwards, and the handle's open file stays; and this is so exactly if all slots from 1 on are
      taken when the call is made. Otherwise closing the slot deletes it. */
  lemma LostExactlyWhenFull(w: World, op: Op)
    requires Inv(w) && Legal(w, op) && Opens(op)
    ensures (forall ops: seq<Op> {:trigger Run(Do(w, op), ops)} :: Undeleted(Run(Do(w, op), ops), |w.objs|)) <==> Full(w, TableOf(w, op.p))
    ensures !Full(w, TableOf(w, op.p)) ==>
      var t := TableOf(w, op.p);
      var v := Run(Do(w, op), [OpClose(op.p, if t < |w.tables| then FirstFree(w.tables[t].slots, 1) else 0)]);
      |w.objs| < |v.objs| && v.objs[|w.objs|].deletes == 1
  {
    hide InvOff, Do, Run, FirstFree;
    RunningUses(w, op.p);
    DoInv(w, op);
    var v, o := Do(w, op), |w.objs|;
    if Full(w, TableOf(w, op.p)) {
      FullLoses(w, op);
      forall ops: seq<Op> {:trigger Run(v, ops)}
        ensures Undeleted(Run(v, ops), o)
      {
        StaysLost(v, ops, o);
        LostCount(Run(v, ops), o);
      }
    } else {
      ClosedAgain(w, op);
    }
  }

  lemma FullLoses(w: World, op: Op)
    requires Inv(w) && Legal(w, op) && Opens(op) && Full(w, TableOf(w, op.p))
    ensures Lost(Do(w, op), |w.objs|)
  {
  }

  lemma ClosedAgain(w: World, op: Op)
    requires Inv(w) && Legal(w, op) && Opens(op) && TableOf(w, op.p) < |w.tables| && !Full(w, TableOf(w, op.p))
    ensures var v := Run(Do(w, op), [OpClose(op.p, FirstFree(w.tables[TableOf(w, op.p)].slots, 1))]);
      |w.objs| < |v.objs| && v.objs[|w.objs|].deletes == 1
  {
    hide InvOff, FirstFree;
    var t := TableOf(w, op.p);
    var i := FirstFree(w.tables[t].slots, 1);
    var v := Do(w, op);
    var c := OpClose(op.p, i);
    assert v.tables[t].slots[i] == Ref(|w.objs|) && v.objs[|w.objs|].count == 1 && v.objs[|w.objs|].deletes == 0;
    assert Legal(v, c);
    assert Run(v, [c]) == Do(v, c);
  }

  /** The file that execv looked up keeps an open file for good, one more with every execv. */
  lemma ExecLosesHandle(w: World, p: nat, start: nat, ops: seq<Op>)
    requires Inv(w) && Legal(w, OpExec(p, start))
    ensures var v := Run(Do(w, OpExec(p, start)), ops);
      |w.objs| < |v.objs| && v.objs[|w.objs|].kind == Handle(start) && Undeleted(v, |w.objs|)
  {
    hide InvOff, CloseAll, Run;
    RunningUses(w, p);
    MakeHandleOff(w, 0, 0, start);
    CloseAllSame(MakeHandle(w, start), TableOf(w, p), |w.tables[TableOf(w, p)].slots|, |w.objs|);
    DoInv(w, OpExec(p, start));
    var v := Do(w, OpExec(p, start));
    StaysLost(v, ops, |w.objs|);
    LostCount(Run(v, ops), |w.objs|);
  }

  // ---------------------------------------------------------------- a full table is reached

  function Semaphores(n: nat): seq<Op> {
    if n == 0 then [] else Semaphores(n - 1) + [OpSemaphore(0)]
  }

  /** Process 0 has semaphores in slots 1 to k of its table of n. */
  ghost predicate Taken(v: World, n: nat, k: nat) {
    && k < n && Running(v, 0) && v.objs[0].kind == Process(0) && |v.tables| == 1 && |v.tables[0].slots| == n
    && forall i {:trigger v.tables[0].slots[i]} :: 0 <= i < n ==> (v.tables[0].slots[i] == Null <==> i == 0 || i > k)
  }

  lemma TakenMore(v: World, n: nat, k: nat)
    requires Taken(v, n, k) && k + 1 < n
    ensures Legal(v, OpSemaphore(0)) && Taken(Do(v, OpSemaphore(0)), n, k + 1)
  {
    var slots := v.tables[0].slots;
    var i := FirstFree(slots, 1);
    assert slots[k + 1] == Null;
    assert i == k + 1;
  }

  lemma {:induction false} RunMore(w: World, ops: seq<Op>, op: Op)
    ensures Run(w, ops + [op]) == var v := Run(w, ops); if Legal(v, op) then Do(v, op) else v
    decreases |ops|
  {
    hide Do, Legal;
    if ops == [] {
      assert ops + [op] == [op];
    } else {
      assert (ops + [op])[1..] == ops[1..] + [op];
      RunMore(if Legal(w, ops[0]) then Do(w, ops[0]) else w, ops[1..], op);
    }
  }

  lemma {:induction false} TakenAfter(w: World, n: nat, k: nat)
    requires Taken(w, n, 0) && k < n
    ensures Taken(Run(w, Semaphores(k)), n, k)
  {
    hide Taken, Do, Legal;
    if k > 0 {
      TakenAfter(w, n, k - 1);
      RunMore(w, Semaphores(k - 1), OpSemaphore(0));
      TakenMore(Run(w, Semaphores(k - 1)), n, k - 1);
    }
  }

  /** A process that is given a table of n slots, as every process is of 100, fills it with n - 1
      semaphores; the next one is lost. */
  lemma FullIsReached(w: World, n: nat)
    requires Fresh(w) && n > 0
    ensures var v := Run(Do(w, OpSpawn(n)), Semaphores(n - 1)); Inv(v) && Legal(v, OpSemaphore(0)) && Full(v, TableOf(v, 0))
  {
    hide InvOff;
    FreshInv(w);
    DoInv(w, OpSpawn(n));
    var u := Do(w, OpSpawn(n));
    assert Taken(u, n, 0);
    RunInv(u, Semaphores(n - 1));
    TakenAfter(u, n, n - 1);
    var v := Run(u, Semaphores(n - 1));
    var i := FirstFree(v.tables[0].slots, 1);
    assert i >= n;
  }
}
