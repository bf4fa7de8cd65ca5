/** Conservation for semaphores: tokens are neither lost nor made. */
module SchedSync {
  import opened SchedModel
  import opened SchedSteps
  import opened SchedCalls
  import opened SchedRuns
  import opened SchedTheorems

  // ---------------------------------------------------------------- conservation

  /** Count minus waiters. */
  function Balance(sh: Shape, s: Sid): int {
    (if s in sh.counts then sh.counts[s] else 0) - (if Waiters(s) in sh.queues then |sh.queues[Waiters(s)]| else 0)
  }

  ghost function Ups(k: K, op: Op, s: Sid): int
    requires Stable(k)
  {
    match op
    case UpOp(x) => if x == s then 1 else 0
    case WaitEndOp(q) => if Done(q) == s then 1 else 0
    case SignalOp => if Done(k.current.value) == s then 1 else 0
    case _ => 0
  }

  function Downs(op: Op, s: Sid): int {
    match op
    case DownOp(x) => if x == s then 1 else 0
    case WaitOp(q) => if Done(q) == s then 1 else 0
    case _ => 0
  }

  lemma SemShape(k: K, s: Sid)
    requires Stable(k) && s in k.counts
    ensures s in ShapeOf(k).counts && Waiters(s) in ShapeOf(k).queues && Ready in ShapeOf(k).queues
  {
    assert SemOk(k, s);
  }

  lemma PoppedBalance(sh: Shape, s: Sid)
    requires Ready in sh.queues && s in sh.counts && Waiters(s) in sh.queues
    ensures s in Popped(sh).counts && Waiters(s) in Popped(sh).queues && Balance(Popped(sh), s) == Balance(sh, s)
  {
  }

  lemma DownBalance(k: K, x: Sid, s: Sid)
    requires Stable(k) && x in k.counts && s in k.counts && k.current.value != k.idle
    ensures var t := ShapeOf(Down(k, x));
      && s in t.counts && Waiters(s) in t.queues && Balance(t, s) == Balance(ShapeOf(k), s) - (if x == s then 1 else 0)
  {
    SemShape(k, s);
    DownShape(k, x);
    if k.counts[x] == 0 {
      PoppedBalance(Append(ShapeOf(k), Waiters(x), k.current.value), s);
    }
  }

  lemma UpBalance(k: K, x: Sid, s: Sid)
    requires Stable(k) && x in k.counts && s in k.counts
    ensures var t := ShapeOf(Up(k, x));
      && s in t.counts && Waiters(s) in t.queues && Balance(t, s) == Balance(ShapeOf(k), s) + (if x == s then 1 else 0)
  {
    SemShape(k, s);
    UpShape(k, x);
  }

  lemma SleepBalance(k: K, t: nat, s: Sid)
    requires Stable(k) && s in k.counts && k.current.value != k.idle
    ensures var sh := ShapeOf(SleepUntil(k, t));
      && s in sh.counts && Waiters(s) in sh.queues && Balance(sh, s) == Balance(ShapeOf(k), s)
  {
    SemShape(k, s);
    SleepShape(k, t);
    if t > k.jiffies {
      PoppedBalance(Append(ShapeOf(AddTimer(k, t)), Sleepers(t), k.current.value), s);
    }
  }

  lemma TickedBalance(sh: Shape, s: Sid)
    requires Ready in sh.queues && s in sh.counts && Waiters(s) in sh.queues
    ensures var t := Ticked(sh); Ready in t.queues && s in t.counts && Waiters(s) in t.queues && Balance(t, s) == Balance(sh, s)
  {
  }

  lemma AppendBalance(sh: Shape, p: Pid, s: Sid)
    requires Ready in sh.queues && s in sh.counts && Waiters(s) in sh.queues
    ensures var t := Append(sh, Ready, p); Ready in t.queues && s in t.counts && Waiters(s) in t.queues && Balance(t, s) == Balance(sh, s)
  {
  }

  lemma IrqBalance(k: K, tick: bool, s: Sid)
    requires Stable(k) && s in k.counts && k.irqOn
    ensures var sh := ShapeOf(Irq(k, tick));
      && s in sh.counts && Waiters(s) in sh.queues && Balance(sh, s) == Balance(ShapeOf(k), s)
  {
    SemShape(k, s);
    IrqShape(k, tick);
    TickedBalance(ShapeOf(k), s);
    var a := if tick then Ticked(ShapeOf(k)) else ShapeOf(k);
    AppendBalance(a, k.current.value, s);
    hide Ticked, Append, Popped, Balance, Stable;
    PoppedBalance(if k.current.value == k.idle then a else Append(a, Ready, k.current.value), s);
  }

  lemma YieldBalance(k: K, s: Sid)
    requires Stable(k) && s in k.counts
    ensures var sh := ShapeOf(Yield(k));
      && s in sh.counts && Waiters(s) in sh.queues && Balance(sh, s) == Balance(ShapeOf(k), s)
  {
    SemShape(k, s);
    YieldShape(k, Ready);
    PoppedBalance(Queued(k, Ready), s);
  }

  lemma DieBalance(k: K, s: Sid)
    requires Stable(k) && s in k.counts && k.current.value != k.idle
    ensures var sh := ShapeOf(Die(k));
      && s in sh.counts && Waiters(s) in sh.queues && Balance(sh, s) == Balance(ShapeOf(k), s)
  {
    SemShape(k, s);
    DieShape(k);
    PoppedBalance(ShapeOf(k), s);
  }

  /** Every call and interrupt changes count minus waiters by the ups minus the downs in it. */
  lemma StepBalance(k: K, op: Op, s: Sid)
    requires Stable(k) && Legal(k, op) && s in k.counts
    ensures var t := ShapeOf(Step(k, op));
      && s in t.counts && Waiters(s) in t.queues
      && Balance(t, s) == Balance(ShapeOf(k), s) + Ups(k, op, s) - Downs(op, s)
  {
    hide ProcOk, QueueOk, SemOk, TimersOk;
    SemShape(k, s);
    StableCurrent(k);
    match op
    case YieldOp => YieldBalance(k, s);
    case DownOp(x) => DownBalance(k, x, s);
    case UpOp(x) => UpBalance(k, x, s);
    case SleepOp(t) => SleepBalance(k, t, s);
    case IrqOp(tick) => IrqBalance(k, tick, s);
    case StartOp(p) =>
    case NewSemOp(x, n) =>
    case HoldOp =>
    case ReleaseOp => CloseShape(k);
    case WaitOp(q) => NoteStable(k, Waiting(q)); DownBalance(Push(k, Waiting(q)), Done(q), s);
    case WaitEndOp(q) => UnnoteShape(k); UpBalance(Unwind(Pop(k)), Done(q), s);
    case ExitOp(code) =>
    case SignalOp => SignalShape(k); UpBalance(Push(Unwind(Pop(k)), Signalled), Done(k.current.value), s);
    case DieOp => DieBalance(k, s);
  }

  ghost function UpsIn(ks: seq<K>, ops: seq<Op>, s: Sid, j: nat): int
    requires RunFrom(ks, ops) && j <= |ops|
  {
    if j == 0 then 0
    else
      RunStable(ks, ops, j - 1);
      UpsIn(ks, ops, s, j - 1) + Ups(ks[j - 1], ops[j - 1], s)
  }

  function DownsIn(ops: seq<Op>, s: Sid, j: nat): int
    requires j <= |ops|
  {
    if j == 0 then 0 else DownsIn(ops, s, j - 1) + Downs(ops[j - 1], s)
  }

  /** Over any run: initial count + ups == count + granted downs, where the granted downs are
      those issued less those still waiting; and a positive count means that nobody waits. */
  lemma {:induction false} SemaphoreConservation(ks: seq<K>, ops: seq<Op>, s: Sid, j: nat)
    requires RunFrom(ks, ops) && j <= |ops| && s in ks[0].counts && Waiters(s) in ks[0].queues && ks[0].queues[Waiters(s)] == []
    ensures s in ks[j].counts && Waiters(s) in ks[j].queues
    ensures ks[0].counts[s] + UpsIn(ks, ops, s, j) == ks[j].counts[s] + (DownsIn(ops, s, j) - |ks[j].queues[Waiters(s)]|)
    ensures ks[j].counts[s] > 0 ==> ks[j].queues[Waiters(s)] == []
  {
    hide Stable, Legal, Step, Ups, Downs;
    RunStable(ks, ops, j);
    if j > 0 {
      RunStable(ks, ops, j - 1);
      SemaphoreConservation(ks, ops, s, j - 1);
      StepBalance(ks[j - 1], ops[j - 1], s);
      assert ks[j] == Step(ks[j - 1], ops[j - 1]);
      BalanceIs(ks[j - 1], s);
    }
    NobodyWaits(ks[j], s);
    BalanceIs(ks[j], s);
  }

  lemma BalanceIs(k: K, s: Sid)
    requires s in ShapeOf(k).counts && Waiters(s) in ShapeOf(k).queues
    ensures s in k.counts && Waiters(s) in k.queues && Balance(ShapeOf(k), s) == k.counts[s] - |k.queues[Waiters(s)]|
  {
  }

  lemma NobodyWaits(k: K, s: Sid)
    requires Stable(k) && s in k.counts
    ensures Waiters(s) in k.queues && (k.counts[s] > 0 ==> k.queues[Waiters(s)] == [])
  {
    assert SemOk(k, s);
  }

  /** The same for a semaphore made during the run, from its own count on. */
  lemma CreatedConservation(ks: seq<K>, ops: seq<Op>, m: nat, s: Sid, n: nat, j: nat)
    requires RunFrom(ks, ops) && m < |ops| && ops[m] == NewSemOp(s, n) && j <= |ops| - m - 1
    ensures RunFrom(ks[m + 1..], ops[m + 1..])
    ensures var k := ks[m + 1 + j];
      && s in k.counts && Waiters(s) in k.queues
      && n + UpsIn(ks[m + 1..], ops[m + 1..], s, j) == k.counts[s] + (DownsIn(ops[m + 1..], s, j) - |k.queues[Waiters(s)]|)
  {
    hide Stable, NewSem, Legal, Step;
    RunStable(ks, ops, m);
    RunSuffix(ks, ops, m + 1);
    Created(ks[m], s, n);
    SemaphoreConservation(ks[m + 1..], ops[m + 1..], s, j);
    assert ks[m + 1..][j] == ks[m + 1 + j];
  }

  lemma Created(k: K, s: Sid, n: nat)
    requires Stable(k) && Legal(k, NewSemOp(s, n))
    ensures var t := Step(k, NewSemOp(s, n)); s in t.counts && t.counts[s] == n && Waiters(s) in t.queues && t.queues[Waiters(s)] == []
  {
    NewSemShape(k, s, n);
  }

  lemma RunSuffix(ks: seq<K>, ops: seq<Op>, m: nat)
    requires RunFrom(ks, ops) && m <= |ops|
    ensures RunFrom(ks[m..], ops[m..])
  {
    hide Stable, Legal, Step;
    RunStable(ks, ops, m);
    var us, vs := ks[m..], ops[m..];
    forall i {:trigger vs[i]} | 0 <= i < |vs| && Stable(us[i])
      ensures Legal(us[i], vs[i]) && us[i + 1] == Step(us[i], vs[i])
    {
      assert vs[i] == ops[m + i] && us[i] == ks[m + i] && us[i + 1] == ks[m + i + 1];
    }
  }
}
