/** Events: nobody gets past the wait for a process's end before that process has set its exit
    code. */
module SchedJoin {
  import opened SchedModel
  import opened SchedSteps
  import opened SchedCalls
  import opened SchedRuns
  import opened SchedTheorems
  import opened SchedNotes

  // ---------------------------------------------------------------- waits

  ghost predicate Unexited(k: K, q: Pid) {
    q in k.procs && k.procs[q].exitCode == None
  }

  predicate Waits(k: K, p: Pid, q: Pid) {
    Waiting(q) in NotesOf(k, p)
  }

  /** While q has no exit code its event is closed, and whoever waits for q is queued on it. */
  ghost predicate EventOk(k: K, q: Pid) {
    Done(q) in k.counts && Waiters(Done(q)) in k.queues && k.counts[Done(q)] == 0
    && forall p {:trigger Waits(k, p, q)} :: Waits(k, p, q) ==> p in k.queues[Waiters(Done(q))]
  }

  ghost predicate JoinOk(k: K, q: Pid) {
    (Unexited(k, q) ==> EventOk(k, q)) && (q !in k.procs ==> forall p {:trigger Waits(k, p, q)} :: !Waits(k, p, q))
  }

  /** From k to t nobody starts to wait for q, and q keeps its exit code. */
  ghost predicate NoNewWait(k: K, t: K, q: Pid) {
    && (forall p {:trigger Waits(t, p, q)} :: Waits(t, p, q) ==> Waits(k, p, q))
    && (q in k.procs ==> q in t.procs && (t.procs[q].exitCode == None ==> k.procs[q].exitCode == None))
    && (q in t.procs ==> q in k.procs)
  }

  lemma NoNewWaitTransitive(k: K, m: K, t: K, q: Pid)
    requires NoNewWait(k, m, q) && NoNewWait(m, t, q)
    ensures NoNewWait(k, t, q)
  {
  }

  lemma SameIsNoNew(k: K, t: K, q: Pid)
    requires SameNotes(k, t)
    ensures NoNewWait(k, t, q)
  {
    assert SameNote(k, t, q);
    forall p {:trigger Waits(t, p, q)} | Waits(t, p, q) ensures Waits(k, p, q) { assert SameNote(k, t, p); }
  }

  /** The same when only p's notes change, and p keeps its exit code or gets one. */
  lemma ButNoNew(k: K, t: K, p: Pid, q: Pid)
    requires NotesBut(k, t, p) && p in k.procs && p in t.procs && (Waits(t, p, q) ==> Waits(k, p, q))
    requires t.procs[p].exitCode == None ==> k.procs[p].exitCode == None
    ensures NoNewWait(k, t, q)
  {
    assert q != p ==> SameNote(k, t, q);
    forall x {:trigger Waits(t, x, q)} | Waits(t, x, q) ensures Waits(k, x, q) { assert x != p ==> SameNote(k, t, x); }
  }

  lemma UnnoteWaits(k: K, q: Pid)
    requires Stable(k) && Top(k).Some? && IsBracket(Top(k).value) == 0
    ensures Inv(Pop(k)) && NoNewWait(k, Unwind(Pop(k)), q)
  {
    UnnoteStable(k);
    UnnoteNotes(k);
    ButNoNew(k, Unwind(Pop(k)), k.current.value, q);
  }

  // ---------------------------------------------------------------- a closed event stays closed

  /** q's event is still closed and nobody has left its queue. */
  predicate Shut(sh: Shape, after: Shape, q: Pid) {
    && Done(q) in after.counts && after.counts[Done(q)] == 0
    && Waiters(Done(q)) in sh.queues && Waiters(Done(q)) in after.queues
    && sh.queues[Waiters(Done(q))] <= after.queues[Waiters(Done(q))]
  }

  predicate Closed(sh: Shape, q: Pid) {
    Done(q) in sh.counts && sh.counts[Done(q)] == 0 && Waiters(Done(q)) in sh.queues
  }

  lemma DownShut(k: K, s: Sid, q: Pid)
    requires Stable(k) && s in k.counts && k.current.value != k.idle && Closed(ShapeOf(k), q)
    ensures Shut(ShapeOf(k), ShapeOf(Down(k, s)), q)
    ensures s == Done(q) ==> k.current.value in ShapeOf(Down(k, s)).queues[Waiters(Done(q))]
  {
    DownShape(k, s);
  }

  lemma UpShut(k: K, s: Sid, q: Pid)
    requires Stable(k) && s in k.counts && Closed(ShapeOf(k), q) && s != Done(q)
    ensures Shut(ShapeOf(k), ShapeOf(Up(k, s)), q)
  {
    UpShape(k, s);
  }

  lemma SleepShut(k: K, t: nat, q: Pid)
    requires Stable(k) && k.current.value != k.idle && Closed(ShapeOf(k), q)
    ensures Shut(ShapeOf(k), ShapeOf(SleepUntil(k, t)), q)
  {
    hide Stable, Inv, SleepUntil, Popped, Shut;
    StableCurrent(k);
    SleepShape(k, t);
    SelfShut(k, q);
    if t > k.jiffies { SleptShut(k, t, q); }
  }

  lemma SleptShut(k: K, t: nat, q: Pid)
    requires k.current.Some? && Closed(ShapeOf(k), q) && Sleepers(t) in AddTimer(k, t).queues && Ready in AddTimer(k, t).queues
    ensures Shut(ShapeOf(k), Popped(Append(ShapeOf(AddTimer(k, t)), Sleepers(t), k.current.value)), q)
  {
  }

  lemma YieldShut(k: K, q: Pid)
    requires Stable(k) && Closed(ShapeOf(k), q)
    ensures Shut(ShapeOf(k), ShapeOf(Yield(k)), q)
  {
    hide ProcOk, QueueOk, SemOk, TimersOk;
    YieldShape(k, Ready);
  }

  lemma DieShut(k: K, q: Pid)
    requires Stable(k) && k.current.value != k.idle && Closed(ShapeOf(k), q)
    ensures Shut(ShapeOf(k), ShapeOf(Die(k)), q)
  {
    DieShape(k);
  }

  lemma TickedShut(sh: Shape, q: Pid)
    requires Closed(sh, q) && Ready in sh.queues
    ensures Ready in Ticked(sh).queues && Shut(sh, Ticked(sh), q) && Shut(sh, sh, q)
  {
  }

  lemma PoppedShut(sh: Shape, mid: Shape, p: Pid, queued: bool, q: Pid)
    requires Shut(sh, mid, q) && Ready in mid.queues
    ensures Shut(sh, Popped(if queued then Append(mid, Ready, p) else mid), q)
  {
  }

  lemma IrqShut(k: K, tick: bool, q: Pid)
    requires Stable(k) && k.irqOn && Closed(ShapeOf(k), q)
    ensures Shut(ShapeOf(k), ShapeOf(Irq(k, tick)), q)
  {
    hide Stable, Popped, Ticked, Shut, Append;
    StableCurrent(k);
    IrqShape(k, tick);
    TickedShut(ShapeOf(k), q);
    PoppedShut(ShapeOf(k), if tick then Ticked(ShapeOf(k)) else ShapeOf(k), k.current.value, k.current.value != k.idle, q);
  }

  /** What one step does to the invariant of q's event, from its two halves. */
  lemma JoinFrom(k: K, t: K, q: Pid)
    requires JoinOk(k, q) && NoNewWait(k, t, q)
    requires Unexited(k, q) ==> Shut(ShapeOf(k), ShapeOf(t), q)
    ensures JoinOk(t, q)
  {
    assert ShapeOf(k).queues == k.queues && ShapeOf(t).queues == t.queues && ShapeOf(t).counts == t.counts;
    if Unexited(t, q) {
      forall p {:trigger Waits(t, p, q)} | Waits(t, p, q)
        ensures p in t.queues[Waiters(Done(q))]
      {
        assert Waits(k, p, q);
        assert p in k.queues[Waiters(Done(q))];
      }
    }
  }

  lemma ClosedWhile(k: K, q: Pid)
    requires JoinOk(k, q) && Unexited(k, q)
    ensures Closed(ShapeOf(k), q) && Shut(ShapeOf(k), ShapeOf(k), q)
  {
  }

  /** Whoever runs and has waited for q finds that q has exited. */
  lemma PastTheWait(k: K, q: Pid)
    requires Stable(k) && JoinOk(k, q) && Top(k) == Some(Waiting(q))
    ensures q in k.procs && k.procs[q].exitCode.Some?
  {
    var p := k.current.value;
    assert Waits(k, p, q);
    assert ProcOk(k, p);
    if Unexited(k, q) { RunningUnqueued(k, Waiters(Done(q))); }
  }

  lemma RunningUnqueued(k: K, x: QueueId)
    requires Stable(k) && x in k.queues
    ensures k.current.value !in k.queues[x]
  {
    assert QueueOk(k, x);
  }

  lemma WaitJoin(k: K, x: Pid, q: Pid)
    requires Stable(k) && JoinOk(k, q) && x in k.procs && Done(x) in k.counts && k.current.value != k.idle
    ensures k.current.value in k.procs && Stable(Push(k, Waiting(x))) && JoinOk(Down(Push(k, Waiting(x)), Done(x)), q)
  {
    NoteStable(k, Waiting(x));
    var u := Push(k, Waiting(x));
    var t := Down(u, Done(x));
    DownNotes(u, Done(x));
    SameIsNoNew(u, t, q);
    PushNotes(k, Waiting(x));
    if x != q {
      ButNoNew(k, u, k.current.value, q);
      NoNewWaitTransitive(k, u, t, q);
      if Unexited(k, q) { ClosedWhile(k, q); DownShut(u, Done(x), q); }
      JoinFrom(k, t, q);
    } else if Unexited(k, q) {
      ClosedWhile(k, q);
      DownShut(u, Done(x), q);
      WaitOwn(k, u, t, q);
    } else {
      assert q in t.procs;
    }
  }

  lemma WaitOwn(k: K, u: K, t: K, q: Pid)
    requires JoinOk(k, q) && Unexited(k, q) && k.current.Some? && k.current.value in k.procs && u == Push(k, Waiting(q))
    requires NoNewWait(u, t, q) && Shut(ShapeOf(u), ShapeOf(t), q) && k.current.value in ShapeOf(t).queues[Waiters(Done(q))]
    ensures JoinOk(t, q)
  {
    assert ShapeOf(t).queues == t.queues && ShapeOf(t).counts == t.counts && ShapeOf(u).queues == k.queues;
    PushNotes(k, Waiting(q));
    forall p {:trigger Waits(t, p, q)} | Waits(t, p, q)
      ensures p in t.queues[Waiters(Done(q))]
    {
      assert Waits(u, p, q);
      if p != k.current.value { assert SameNote(k, u, p) && Waits(k, p, q); }
    }
  }

  lemma WaitEndJoin(k: K, x: Pid, q: Pid)
    requires Stable(k) && JoinOk(k, q) && Top(k) == Some(Waiting(x)) && Done(x) in k.counts
    ensures k.current.value in k.procs && Stable(Unwind(Pop(k))) && Done(x) in Unwind(Pop(k)).counts
    ensures JoinOk(Up(Unwind(Pop(k)), Done(x)), q)
  {
    UnnoteShape(k);
    UnnoteWaits(k, q);
    var u := Unwind(Pop(k));
    assert u.counts == ShapeOf(k).counts;
    var t := Up(u, Done(x));
    UpNotes(u, Done(x));
    SameIsNoNew(u, t, q);
    NoNewWaitTransitive(k, u, t, q);
    if x == q { PastTheWait(k, q); }
    if Unexited(k, q) { ClosedWhile(k, q); UpShut(u, Done(x), q); }
    JoinFrom(k, t, q);
  }

  lemma SignalJoin(k: K, q: Pid)
    requires Stable(k) && JoinOk(k, q) && Top(k) == Some(Exiting) && k.procs[k.current.value].exitCode.Some?
    ensures JoinOk(Signal(k), q)
  {
    SignalShape(k);
    SignalNotes(k);
    var u, t, p := Push(Unwind(Pop(k)), Signalled), Signal(k), k.current.value;
    assert u.counts == ShapeOf(k).counts;
    ButNoNew(k, t, p, q);
    if Unexited(k, q) { ClosedWhile(k, q); UpShut(u, Done(p), q); }
    JoinFrom(k, t, q);
  }

  lemma StartJoin(k: K, p: Pid, q: Pid)
    requires Stable(k) && JoinOk(k, q) && p !in k.procs && Done(p) !in k.counts
    ensures JoinOk(Start(k, p), q)
  {
    var t := Start(k, p);
    forall x {:trigger Waits(t, x, q)} | Waits(t, x, q)
      ensures Waits(k, x, q)
    {
    }
    if q != p && Unexited(k, q) { ClosedWhile(k, q); assert Unexited(t, q); }
  }

  lemma ExitJoin(k: K, code: int, q: Pid)
    requires Stable(k) && Legal(k, ExitOp(code)) && JoinOk(k, q)
    ensures k.current.value in k.procs && JoinOk(Push(SetExit(k, code), Exiting), q)
  {
    var t := Push(SetExit(k, code), Exiting);
    ExitNotes(k, code);
    ButNoNew(k, t, k.current.value, q);
    if Unexited(k, q) { ClosedWhile(k, q); }
    JoinFrom(k, t, q);
  }

  lemma QuietJoin(k: K, op: Op, q: Pid)
    requires Stable(k) && Legal(k, op) && JoinOk(k, q) && Quiet(op)
    ensures JoinOk(Step(k, op), q)
  {
    hide JoinOk, NoNewWait, Unexited, Step, Shut, ShapeOf, SameNotes;
    QuietNotes(k, op);
    SameIsNoNew(k, Step(k, op), q);
    if Unexited(k, q) {
      ClosedWhile(k, q);
      QuietShut(k, op, q);
    }
    JoinFrom(k, Step(k, op), q);
  }

  lemma QuietShut(k: K, op: Op, q: Pid)
    requires Stable(k) && Legal(k, op) && Quiet(op) && Closed(ShapeOf(k), q)
    ensures Shut(ShapeOf(k), ShapeOf(Step(k, op)), q)
  {
    hide Down, Up, SleepUntil, Irq, Die, Yield, Shut, Closed, ShapeOf, Stable, Inv, Unwind, Close;
    StableCurrent(k);
    match op {
      case YieldOp => YieldShut(k, q);
      case DownOp(s) => DownShut(k, s, q);
      case UpOp(s) => UpShut(k, s, q);
      case SleepOp(t) => SleepShut(k, t, q);
      case IrqOp(tick) => IrqShut(k, tick, q);
      case DieOp => DieShut(k, q);
      case HoldOp => HoldShut(k, q);
      case ReleaseOp => CloseShape(k); SelfShut(k, q);
      case NewSemOp(s, n) => NewSemShut(k, s, n, q);
    }
  }

  lemma SelfShut(k: K, q: Pid)
    requires Closed(ShapeOf(k), q)
    ensures Shut(ShapeOf(k), ShapeOf(k), q)
  {
  }

  lemma HoldShut(k: K, q: Pid)
    requires Closed(ShapeOf(k), q) && k.current.Some? && k.current.value in k.procs
    ensures Shut(ShapeOf(k), ShapeOf(Hold(k)), q)
  {
  }

  lemma NewSemShut(k: K, s: Sid, n: nat, q: Pid)
    requires Closed(ShapeOf(k), q) && s !in k.counts
    ensures Shut(ShapeOf(k), ShapeOf(NewSem(k, s, n)), q)
  {
  }

  /** The invariant of every event survives every step. */
  lemma StepJoin(k: K, op: Op, q: Pid)
    requires Stable(k) && Legal(k, op) && JoinOk(k, q)
    ensures JoinOk(Step(k, op), q)
  {
    hide JoinOk, Stable, Down, Up, Signal, Die, Irq, SleepUntil, Yield, Unwind, Inv;
    StableCurrent(k);
    match op
    case StartOp(p) => StartJoin(k, p, q);
    case WaitOp(x) => WaitJoin(k, x, q);
    case WaitEndOp(x) => WaitEndJoin(k, x, q);
    case ExitOp(code) => ExitJoin(k, code, q);
    case SignalOp => SignalJoin(k, q);
    case _ => QuietJoin(k, op, q);
  }

  /** join: in every run from boot, a process that is past its wait for q reads q's exit code
      only after q has set it. */
  lemma {:induction false} JoinAfterExit(ks: seq<K>, ops: seq<Op>, i: nat, q: Pid)
    requires RunFrom(ks, ops) && i < |ks| && JoinOk(ks[0], q)
    ensures JoinOk(ks[i], q)
    ensures ks[i].current.Some? && ks[i].current.value in ks[i].procs && Top(ks[i]) == Some(Waiting(q)) ==>
      q in ks[i].procs && ks[i].procs[q].exitCode.Some?
  {
    hide JoinOk, Stable, Legal, Step;
    RunStable(ks, ops, i);
    StableCurrent(ks[i]);
    if i > 0 {
      JoinAfterExit(ks, ops, i - 1, q);
      RunStable(ks, ops, i - 1);
      StepJoin(ks[i - 1], ops[i - 1], q);
      assert ks[i] == Step(ks[i - 1], ops[i - 1]);
    }
    if Top(ks[i]) == Some(Waiting(q)) { PastTheWait(ks[i], q); }
  }

  lemma BootJoin(idle: Pid, init: Pid, q: Pid)
    requires idle != init
    ensures Vacant(Boot(idle, init)) && JoinOk(Pick(Boot(idle, init)), q)
  {
    BootVacant(idle, init);
    var k := Boot(idle, init);
    PickNotes(k);
    SameIsNoNew(k, Pick(k), q);
    PickShape(k);
    assert JoinOk(k, q);
    JoinFrom(k, Pick(k), q);
  }

  /** An exit code is set once. */
  lemma CodeStays(k: K, op: Op, q: Pid, code: int)
    requires Stable(k) && Legal(k, op) && q in k.procs && k.procs[q].exitCode == Some(code)
    ensures q in Step(k, op).procs && Step(k, op).procs[q].exitCode == Some(code)
  {
    hide Step, Stable, NotesOf;
    var t := Step(k, op);
    StableCurrent(k);
    if Quiet(op) { QuietNotes(k, op); assert SameNote(k, t, q); }
    if op.StartOp? { StartNotes(k, op.p); assert SameNote(k, t, q); }
    if op.WaitOp? { WaitNotes(k, op.q); assert q != k.current.value ==> SameNote(k, t, q); }
    if op.WaitEndOp? { WaitEndNotes(k, op.q); assert q != k.current.value ==> SameNote(k, t, q); }
    if op.ExitOp? { ExitNotes(k, op.code); assert SameNote(k, t, q); }
    if op.SignalOp? { SignalNotes(k); assert q != k.current.value ==> SameNote(k, t, q); }
  }

  /** From the moment q calls exit(code) on, in every later state of the run, whoever looks at q's
      exit code finds `code`. */
  lemma {:induction false} JoinReadsCode(ks: seq<K>, ops: seq<Op>, i: nat, j: nat, q: Pid, code: int)
    requires RunFrom(ks, ops) && i < j < |ks| && ops[i] == ExitOp(code) && ks[i].current == Some(q)
    ensures q in ks[j].procs && ks[j].procs[q].exitCode == Some(code)
    decreases j
  {
    hide Stable, Legal, Step;
    RunStable(ks, ops, j - 1);
    if j == i + 1 {
      ExitNotes(ks[i], code);
    } else {
      JoinReadsCode(ks, ops, i, j - 1, q, code);
      CodeStays(ks[j - 1], ops[j - 1], q, code);
    }
  }
}
