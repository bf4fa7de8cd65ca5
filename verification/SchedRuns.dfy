/** Runs of the machine from boot, and what holds over all of them. */
module SchedRuns {
  import opened SchedModel
  import opened SchedSteps
  import opened SchedCalls

  /** What happens next: an interrupt, or a call of the running process. */
  datatype Op =
    | YieldOp
    | DownOp(s: Sid)
    | UpOp(s: Sid)
    | SleepOp(target: nat)
    | IrqOp(tick: bool)
    | StartOp(p: Pid)
    | NewSemOp(s: Sid, n: nat)
    | HoldOp
    | ReleaseOp
    | WaitOp(q: Pid)
    | WaitEndOp(q: Pid)
    | ExitOp(code: int)
    | SignalOp
    | DieOp

  /** The idle process only yields and takes interrupts; done events are reached through wait
      and exit alone; brackets, waits and exits end in the order in which they began. */
  ghost predicate Legal(k: K, op: Op)
    requires Stable(k)
  {
    var me := k.current.value;
    match op
    case YieldOp => true
    case DownOp(s) => s.User? && s in k.counts && me != k.idle
    case UpOp(s) => s.User? && s in k.counts
    case SleepOp(_) => me != k.idle
    case IrqOp(_) => k.irqOn
    case StartOp(p) => p !in k.procs && Done(p) !in k.counts
    case NewSemOp(s, _) => s.User? && s !in k.counts
    case HoldOp => true
    case ReleaseOp => Top(k) == Some(Held)
    case WaitOp(q) => q in k.procs && Done(q) in k.counts && me != k.idle
    case WaitEndOp(q) => Top(k) == Some(Waiting(q)) && Done(q) in k.counts
    case ExitOp(_) => me != k.idle && k.procs[me].exitCode == None
    case SignalOp => Top(k) == Some(Exiting) && k.procs[me].exitCode.Some?
    case DieOp => Top(k) == Some(Signalled) && me != k.idle
  }

  ghost function Step(k: K, op: Op): K
    requires Stable(k) && Legal(k, op)
  {
    match op
    case YieldOp => Yield(k)
    case DownOp(s) => Down(k, s)
    case UpOp(s) => Up(k, s)
    case SleepOp(t) => SleepUntil(k, t)
    case IrqOp(tick) => Irq(k, tick)
    case StartOp(p) => Start(k, p)
    case NewSemOp(s, n) => NewSem(k, s, n)
    case HoldOp => Hold(k)
    case ReleaseOp => ReleaseStable(k); Unwind(Close(k))
    case WaitOp(q) => NoteStable(k, Waiting(q)); Down(Push(k, Waiting(q)), Done(q))
    case WaitEndOp(q) => UnnoteStable(k); Up(Unwind(Pop(k)), Done(q))
    case ExitOp(code) => SetExitStable(k, code); Push(SetExit(k, code), Exiting)
    case SignalOp => Signal(k)
    case DieOp => Die(k)
  }

  /** doneEvent.signal() in exit. */
  ghost function Signal(k: K): K
    requires Stable(k) && Top(k) == Some(Exiting)
  {
    UnnoteStable(k);
    NoteStable(Unwind(Pop(k)), Signalled);
    assert ProcOk(k, k.current.value);
    Up(Push(Unwind(Pop(k)), Signalled), Done(k.current.value))
  }

  lemma SignalStable(k: K)
    requires Stable(k) && Top(k) == Some(Exiting)
    ensures Stable(Signal(k))
  {
    UnnoteStable(k);
    NoteStable(Unwind(Pop(k)), Signalled);
    assert ProcOk(k, k.current.value);
    UpStable(Push(Unwind(Pop(k)), Signalled), Done(k.current.value));
  }

  /** Every call and every interrupt leads from a stable moment to a stable moment. */
  lemma StepStable(k: K, op: Op)
    requires Stable(k) && Legal(k, op)
    ensures Stable(Step(k, op))
  {
    match op
    case YieldOp => YieldToStable(k, Ready);
    case DownOp(s) => DownStable(k, s);
    case UpOp(s) => UpStable(k, s);
    case SleepOp(t) => SleepStable(k, t);
    case IrqOp(tick) => IrqStable(k, tick);
    case StartOp(p) => StartInv(k, p);
    case NewSemOp(s, n) => NewSemInv(k, s, n); assert Stable(NewSem(k, s, n));
    case HoldOp => HoldStable(k);
    case ReleaseOp => ReleaseStable(k);
    case WaitOp(q) => NoteStable(k, Waiting(q)); DownStable(Push(k, Waiting(q)), Done(q));
    case WaitEndOp(q) => UnnoteStable(k); UpStable(Unwind(Pop(k)), Done(q));
    case ExitOp(code) => SetExitStable(k, code); NoteStable(SetExit(k, code), Exiting);
    case SignalOp => SignalStable(k);
    case DieOp => DieStable(k);
  }

  // ---------------------------------------------------------------- boot

  /** kernelMain before its yield: the idle process and the first process are started, nobody
      has the CPU, interrupts are off. */
  function Boot(idle: Pid, init: Pid): K
  {
    var fresh0 := Proc(READY, 0, 0, [], None);
    K(None, map[idle := fresh0, init := fresh0],
      map[Ready := [init], Reaper := [], Waiters(Done(idle)) := [], Waiters(Done(init)) := []],
      map[Done(idle) := 0, Done(init) := 0], [], 0, false, idle, {},
      map[idle := Idling, init := In(Ready)])
  }

  lemma BootVacant(idle: Pid, init: Pid)
    requires idle != init
    ensures Vacant(Boot(idle, init)) && Stable(Pick(Boot(idle, init))) && Pick(Boot(idle, init)).current == Some(init)
  {
    var k := Boot(idle, init);
    assert ProcOk(k, idle) && ProcOk(k, init);
    assert QueueOk(k, Ready) && QueueOk(k, Reaper) && QueueOk(k, Waiters(Done(idle))) && QueueOk(k, Waiters(Done(init)));
    assert SemOk(k, Done(idle)) && SemOk(k, Done(init));
    PickStable(k);
  }

  /** The states of a run; ops[i] leads from the i-th to the next. Only the first state is known
      to be stable. */
  ghost predicate RunFrom(ks: seq<K>, ops: seq<Op>) {
    && |ks| == |ops| + 1 && Stable(ks[0])
    && forall i {:trigger ops[i]} :: 0 <= i < |ops| && Stable(ks[i]) ==> Legal(ks[i], ops[i]) && ks[i + 1] == Step(ks[i], ops[i])
  }

  /** Process placement and interrupt nesting hold in every state of every run: each process is
      in exactly one place and its state agrees, interrupts are on exactly if the running
      process's disable count is 0, and no panic of enable, startIrq or endIrq was reached. */
  lemma {:induction false} RunStable(ks: seq<K>, ops: seq<Op>, i: nat)
    requires RunFrom(ks, ops) && i < |ks|
    ensures Stable(ks[i])
  {
    if i > 0 {
      RunStable(ks, ops, i - 1);
      StepStable(ks[i - 1], ops[i - 1]);
    }
  }

  /** A run that begins with the first dispatch after boot. */
  ghost predicate BootRun(ks: seq<K>, ops: seq<Op>, idle: Pid, init: Pid) {
    idle != init && RunFrom(ks, ops) && (BootVacant(idle, init); ks[0] == Pick(Boot(idle, init)))
  }

  /** From boot on, in every state that any calls and interrupts lead to. */
  lemma BootRunStable(ks: seq<K>, ops: seq<Op>, idle: Pid, init: Pid, j: nat)
    requires idle != init && j < |ks| && |ks| == |ops| + 1 && (BootVacant(idle, init); ks[0] == Pick(Boot(idle, init)))
    requires forall i {:trigger ops[i]} :: 0 <= i < |ops| && Stable(ks[i]) ==> Legal(ks[i], ops[i]) && ks[i + 1] == Step(ks[i], ops[i])
    ensures BootRun(ks, ops, idle, init) && Stable(ks[j])
  {
    BootVacant(idle, init);
    RunStable(ks, ops, j);
  }
}
