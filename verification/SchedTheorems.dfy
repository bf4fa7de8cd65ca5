/** What the stable moments of a run say about single processes, semaphores and timers. */
module SchedTheorems {
  import opened SchedModel
  import opened SchedSteps
  import opened SchedCalls
  import opened SchedRuns

  // ---------------------------------------------------------------- placement

  /** A process is on at most one queue, then it does not run, is not the idle process and has
      the state that goes with the queue; off all queues it runs, idles or is reaped. */
  lemma PlacedOnce(k: K, p: Pid, q: QueueId, r: QueueId)
    requires Stable(k) && p in k.procs && q in k.queues && r in k.queues
    ensures p in k.queues[q] && p in k.queues[r] ==> q == r
    ensures p in k.queues[q] ==> k.current != Some(p) && p != k.idle && k.procs[p].state == StateAt(In(q))
    ensures k.current == Some(p) ==> k.procs[p].state == RUNNING
    ensures (forall x :: x in k.queues ==> p !in k.queues[x]) ==>
      k.current == Some(p) || p == k.idle || k.procs[p].state == TERMINATED
    ensures multiset(k.queues[q])[p] <= 1
  {
    assert QueueOk(k, q) && QueueOk(k, r) && ProcOk(k, p);
    DistinctOnce(k.queues[q], p);
    if k.place[p].In? { assert QueueOk(k, k.place[p].q); }
  }

  lemma {:induction false} DistinctOnce(s: seq<Pid>, p: Pid)
    requires Distinct(s)
    ensures multiset(s)[p] <= 1
  {
    if s != [] {
      assert s == [s[0]] + s[1..];
      DistinctOnce(s[1..], p);
      assert s[0] !in s[1..];
    }
  }

  /** Interrupts are on exactly when a process runs with disable count 0, and each process's
      count is the number of brackets open on its stack, running or not. */
  lemma CountsMatch(k: K, p: Pid)
    requires Stable(k) && p in k.procs
    ensures k.current.Some? && k.current.value in k.procs
    ensures k.irqOn <==> k.procs[k.current.value].disableCount == 0
    ensures k.procs[p].disableCount == Brackets(k.procs[p].frames)
    ensures 480 !in k.panics && 493 !in k.panics && 499 !in k.panics && 511 !in k.panics
  {
    assert ProcOk(k, p);
  }

  // ---------------------------------------------------------------- the ready queue advances

  /** The step ends with a dispatch. */
  predicate Dispatches(k: K, op: Op) {
    match op
    case YieldOp => true
    case IrqOp(_) => true
    case DieOp => true
    case DownOp(s) => s in k.counts && k.counts[s] == 0
    case WaitOp(q) => Done(q) in k.counts && k.counts[Done(q)] == 0
    case SleepOp(t) => t > k.jiffies
    case _ => false
  }

  /** What the theorems look at: queues, counts, timers and the clock. */
  datatype Shape = Shape(queues: map<QueueId, seq<Pid>>, counts: map<Sid, nat>, timers: seq<nat>, jiffies: nat)

  function ShapeOf(k: K): Shape {
    Shape(k.queues, k.counts, k.timers, k.jiffies)
  }

  function Append(s: Shape, q: QueueId, p: Pid): Shape
    requires q in s.queues
  {
    s.(queues := s.queues[q := s.queues[q] + [p]])
  }

  /** After a dispatch: the ready queue has lost its head and the reaper queue is empty. */
  function Popped(s: Shape): Shape
    requires Ready in s.queues
  {
    var served := if s.queues[Ready] == [] then s.queues else s.queues[Ready := s.queues[Ready][1..]];
    s.(queues := served[Reaper := []])
  }

  function HeadOr(s: Shape, idle: Pid): Pid
    requires Ready in s.queues
  {
    if s.queues[Ready] == [] then idle else s.queues[Ready][0]
  }

  lemma PickShape(v: K)
    requires Vacant(v)
    ensures Ready in v.queues && ShapeOf(Pick(v)) == Popped(ShapeOf(v)) && Pick(v).current == Some(HeadOr(ShapeOf(v), v.idle))
  {
    PickStable(v);
    PickChosen(v);
    RunFlag(v);
    UnwindInv(Reap(Chosen(v)));
  }

  function Queued(k: K, q: QueueId): Shape
    requires k.current.Some? && q in k.queues
  {
    if q == Ready && k.current == Some(k.idle) then ShapeOf(k) else Append(ShapeOf(k), q, k.current.value)
  }

  /** yield(q): the running process goes to the end of q, the head of the ready queue runs. */
  lemma YieldShape(k: K, q: QueueId)
    requires MaySuspend(k, q)
    ensures Ready in k.queues && Ready in Queued(k, q).queues
    ensures YieldTo(k, q).jiffies == k.jiffies
    ensures ShapeOf(YieldTo(k, q)) == Popped(Queued(k, q)) && YieldTo(k, q).current == Some(HeadOr(Queued(k, q), k.idle))
  {
    hide ProcOk, QueueOk, SemOk, TimersOk, Suspend;
    SuspendVacant(k, q);
    PickShape(Suspend(k, q));
    SuspendShape(k, q);
  }

  lemma SuspendShape(k: K, q: QueueId)
    requires MaySuspend(k, q)
    ensures Ready in Queued(k, q).queues && ShapeOf(Suspend(k, q)) == Queued(k, q) && Suspend(k, q).idle == k.idle
  {
    hide ProcOk, QueueOk, SemOk, TimersOk;
    OpenInv(k, InYield);
  }

  lemma DownShape(k: K, s: Sid)
    requires Stable(k) && s in k.counts && k.current.value != k.idle
    ensures Waiters(s) in k.queues && Ready in k.queues && Down(k, s).jiffies == k.jiffies
    ensures k.counts[s] == 0 ==>
      && ShapeOf(Down(k, s)) == Popped(Append(ShapeOf(k), Waiters(s), k.current.value))
      && Down(k, s).current == Some(HeadOr(ShapeOf(k), k.idle))
    ensures k.counts[s] > 0 ==> ShapeOf(Down(k, s)) == ShapeOf(k).(counts := k.counts[s := k.counts[s] - 1]) && Down(k, s).current == k.current
  {
    hide ProcOk, QueueOk, TimersOk;
    DownParts(k, s);
    OpenInv(k, InDown);
    assert SemOk(k, s);
    if k.counts[s] == 0 {
      YieldShape(Open(k, InDown), Waiters(s));
    } else {
      UnwindInv(Open(k, InDown).(counts := k.counts[s := k.counts[s] - 1]));
    }
  }

  lemma UpShape(k: K, s: Sid)
    requires Stable(k) && s in k.counts
    ensures Waiters(s) in k.queues && Ready in k.queues && Up(k, s).current == k.current && Up(k, s).jiffies == k.jiffies
    ensures var w := k.queues[Waiters(s)];
      ShapeOf(Up(k, s)) == if w == [] then ShapeOf(k).(counts := k.counts[s := k.counts[s] + 1])
                           else Append(ShapeOf(k).(queues := k.queues[Waiters(s) := w[1..]]), Ready, w[0])
  {
    OpenInv(k, Held);
    var open := Open(k, Held);
    UpBodyInv(open, s);
    BodyStable(k, UpBody(open, s));
    CloseInv(UpBody(open, s));
    assert SemOk(k, s);
    if k.queues[Waiters(s)] != [] { DequeueInv(open, Waiters(s)); }
  }

  lemma SleepShape(k: K, t: nat)
    requires Stable(k) && k.current.value != k.idle
    ensures SleepUntil(k, t).jiffies == k.jiffies
    ensures t <= k.jiffies ==> ShapeOf(SleepUntil(k, t)) == ShapeOf(k) && SleepUntil(k, t).current == k.current
    ensures t > k.jiffies ==>
      var a := ShapeOf(AddTimer(k, t));
      && Sleepers(t) in a.queues && Ready in a.queues
      && ShapeOf(SleepUntil(k, t)) == Popped(Append(a, Sleepers(t), k.current.value))
      && SleepUntil(k, t).current == Some(HeadOr(a, k.idle))
  {
    hide ProcOk, QueueOk, SemOk;
    SleepParts(k, t);
    OpenInv(k, InSleep);
    if t > k.jiffies {
      YieldShape(AddTimer(Open(k, InSleep), t), Sleepers(t));
    } else {
      UnwindInv(Open(k, InSleep));
    }
  }

  /** The timer interrupt moves a due timer's queue to the ready queue, in order. */
  function Ticked(s: Shape): Shape
    requires Ready in s.queues
  {
    if s.timers != [] && s.timers[0] == s.jiffies + 1 && Sleepers(s.timers[0]) in s.queues then
      var q := Sleepers(s.timers[0]);
      Shape(s.queues[Ready := s.queues[Ready] + s.queues[q]] - {q}, s.counts, s.timers[1..], s.jiffies + 1)
    else s.(jiffies := s.jiffies + 1)
  }

  lemma WokenQueues(k: K, after: K, t: nat)
    requires Sleepers(t) in k.queues && Woken(k, after, t, |k.queues[Sleepers(t)]|)
    ensures after.queues - {Sleepers(t)} == k.queues[Ready := k.queues[Ready] + k.queues[Sleepers(t)]] - {Sleepers(t)}
  {
    var s := k.queues[Sleepers(t)];
    assert s[..|s|] == s;
    var left := after.queues - {Sleepers(t)};
    var right := k.queues[Ready := k.queues[Ready] + s] - {Sleepers(t)};
    assert left.Keys == right.Keys;
    forall x {:trigger left[x]} | x in left
      ensures left[x] == right[x]
    {
      assert x in k.queues && (x != Ready ==> after.queues[x] == k.queues[x]);
    }
  }

  lemma TickShape(k: K)
    requires Inv(k) && Settled(k)
    ensures ShapeOf(TickBody(k)) == Ticked(ShapeOf(k))
  {
    if Due(k) {
      var q := Sleepers(k.timers[0]);
      assert k.timers[0] in k.timers && q in k.queues;
      WakeAllInv(k, k.timers[0]);
      WokenQueues(k, WakeAll(k, k.timers[0]), k.timers[0]);
    }
  }

  lemma IrqShape(k: K, tick: bool)
    requires Stable(k) && k.irqOn
    ensures Ready in k.queues
    ensures var s := if tick then Ticked(ShapeOf(k)) else ShapeOf(k);
      var a := if k.current.value == k.idle then s else Append(s, Ready, k.current.value);
      ShapeOf(Irq(k, tick)) == Popped(a) && Irq(k, tick).current == Some(HeadOr(a, k.idle))
  {
    hide ProcOk, QueueOk, SemOk, TimersOk, Popped, Append, Ticked, TickBody;
    EnterIrqInv(k);
    var inside := EnterIrq(k);
    TickBodyInv(inside);
    var mid := if tick then TickBody(inside) else inside;
    YieldShape(mid, Ready);
    InsideShape(k, tick);
  }

  /** The queues as the handler leaves them. */
  lemma InsideShape(k: K, tick: bool)
    requires Stable(k) && k.irqOn
    ensures Inv(EnterIrq(k)) && Settled(EnterIrq(k)) && Ready in k.queues
    ensures var mid := if tick then TickBody(EnterIrq(k)) else EnterIrq(k);
      mid.idle == k.idle && ShapeOf(mid) == if tick then Ticked(ShapeOf(k)) else ShapeOf(k)
  {
    hide ProcOk, QueueOk, SemOk, TimersOk, TickBody, Ticked;
    EnterIrqInv(k);
    TickShape(EnterIrq(k));
    TickIdle(EnterIrq(k));
  }

  lemma TickIdle(k: K)
    requires Inv(k) && Settled(k)
    ensures TickBody(k).idle == k.idle
  {
    if Due(k) {
      assert k.timers[0] in k.timers && Sleepers(k.timers[0]) in k.queues;
      WakeAllInv(k, k.timers[0]);
    }
  }

  lemma DieShape(k: K)
    requires Stable(k) && k.current.value != k.idle
    ensures Ready in k.queues && Die(k).jiffies == k.jiffies && ShapeOf(Die(k)) == Popped(ShapeOf(k)) && Die(k).current == Some(HeadOr(ShapeOf(k), k.idle))
  {
    DieVacant(k);
    PickShape(Leave(Open(k, Held), Reaper));
  }

  lemma CloseShape(k: K)
    requires Stable(k) && Top(k) == Some(Held)
    ensures Inv(Close(k)) && Settled(Close(k))
    ensures Unwind(Close(k)).jiffies == k.jiffies && ShapeOf(Unwind(Close(k))) == ShapeOf(k) && Unwind(Close(k)).current == k.current
  {
    assert ProcOk(k, k.current.value);
    TopFrame(k.procs[k.current.value].frames);
    CloseInv(k);
    UnwindInv(Close(k));
  }

  lemma UnnoteShape(k: K)
    requires Stable(k) && Top(k).Some? && IsBracket(Top(k).value) == 0
    ensures Stable(Unwind(Pop(k))) && Unwind(Pop(k)).jiffies == k.jiffies && ShapeOf(Unwind(Pop(k))) == ShapeOf(k) && Unwind(Pop(k)).current == k.current
  {
    UnnoteStable(k);
    UnwindInv(Pop(k));
  }

  lemma SignalShape(k: K)
    requires Stable(k) && Top(k) == Some(Exiting)
    ensures k.current.value in k.procs && Done(k.current.value) in k.counts
    ensures var u := Push(Unwind(Pop(k)), Signalled);
      && Stable(u) && u.jiffies == k.jiffies && ShapeOf(u) == ShapeOf(k) && u.current == k.current && Signal(k) == Up(u, Done(k.current.value))
  {
    UnnoteShape(k);
    NoteStable(Unwind(Pop(k)), Signalled);
    assert ProcOk(k, k.current.value);
  }

  /** start: the process is the last of the ready queue and has neither exited nor begun anything;
      nobody waits for its end, which has not come. Nothing else changes. */
  lemma StartShape(k: K, p: Pid)
    requires Stable(k) && p !in k.procs && Done(p) !in k.counts
    ensures var t := Start(k, p);
      && Ready in k.queues && Ready in t.queues && t.queues[Ready] == k.queues[Ready] + [p]
      && t.procs.Keys == k.procs.Keys + {p} && t.procs[p].frames == [] && t.procs[p].exitCode == None && t.procs[p].disableCount == 0
      && (forall x {:trigger t.procs[x]} :: x in k.procs ==> t.procs[x] == k.procs[x])
      && Waiters(Done(p)) in t.queues && t.queues[Waiters(Done(p))] == [] && Done(p) in t.counts && t.counts[Done(p)] == 0
      && (forall q {:trigger t.queues[q]} :: q in k.queues && q != Ready && q != Waiters(Done(p)) ==> q in t.queues && t.queues[q] == k.queues[q])
      && (forall s {:trigger t.counts[s]} :: s in k.counts ==> s in t.counts && t.counts[s] == k.counts[s])
      && t.current == k.current && t.irqOn == k.irqOn && t.timers == k.timers && t.jiffies == k.jiffies
  {
  }

  /** A new semaphore has the given count and no waiters, and nothing else changes. */
  lemma NewSemShape(k: K, s: Sid, n: nat)
    requires Stable(k) && s !in k.counts
    ensures var t := NewSem(k, s, n);
      && s in t.counts && t.counts[s] == n && Waiters(s) in t.queues && t.queues[Waiters(s)] == []
      && (forall x {:trigger t.counts[x]} :: x in k.counts ==> x in t.counts && t.counts[x] == k.counts[x])
      && (forall q {:trigger t.queues[q]} :: q in k.queues && q != Waiters(s) ==> q in t.queues && t.queues[q] == k.queues[q])
      && t.procs == k.procs && t.current == k.current && t.irqOn == k.irqOn && t.timers == k.timers && t.jiffies == k.jiffies
  {
  }

  // ---------------------------------------------------------------- FIFO

  ghost predicate Grew(k: K, t: K) {
    Ready in k.queues && Ready in t.queues && k.queues[Ready] <= t.queues[Ready]
  }

  ghost predicate Advanced(k: K, t: K) {
    && Ready in k.queues && Ready in t.queues
    && (k.queues[Ready] != [] ==> t.current == Some(k.queues[Ready][0]) && k.queues[Ready][1..] <= t.queues[Ready])
  }

  /** A dispatch after appends only. */
  lemma PoppedAdvances(k: K, s: Shape, t: K)
    requires Ready in k.queues && Ready in s.queues && k.queues[Ready] <= s.queues[Ready]
    requires ShapeOf(t) == Popped(s) && t.current == Some(HeadOr(s, k.idle))
    ensures Advanced(k, t)
  {
    assert t.queues == ShapeOf(t).queues;
    if k.queues[Ready] != [] {
      assert k.queues[Ready][1..] <= s.queues[Ready][1..];
    }
  }

  lemma DownReady(k: K, s: Sid)
    requires Stable(k) && s in k.counts && k.current.value != k.idle
    ensures if k.counts[s] == 0 then Advanced(k, Down(k, s)) else Grew(k, Down(k, s))
  {
    DownShape(k, s);
    if k.counts[s] == 0 {
      PoppedAdvances(k, Append(ShapeOf(k), Waiters(s), k.current.value), Down(k, s));
    } else {
      assert Down(k, s).queues == ShapeOf(Down(k, s)).queues;
    }
  }

  lemma SleepReady(k: K, t: nat)
    requires Stable(k) && k.current.value != k.idle
    ensures if t > k.jiffies then Advanced(k, SleepUntil(k, t)) else Grew(k, SleepUntil(k, t))
  {
    SleepShape(k, t);
    if t > k.jiffies {
      PoppedAdvances(k, Append(ShapeOf(AddTimer(k, t)), Sleepers(t), k.current.value), SleepUntil(k, t));
    } else {
      assert SleepUntil(k, t).queues == ShapeOf(SleepUntil(k, t)).queues;
    }
  }

  lemma IrqReady(k: K, tick: bool)
    requires Stable(k) && k.irqOn
    ensures Advanced(k, Irq(k, tick))
  {
    IrqShape(k, tick);
    TickedGrew(ShapeOf(k));
    var s := if tick then Ticked(ShapeOf(k)) else ShapeOf(k);
    var a := if k.current.value == k.idle then s else Append(s, Ready, k.current.value);
    AppendGrew(s, k.current.value);
    hide Ticked, Append, Popped, Stable;
    PoppedAdvances(k, a, Irq(k, tick));
  }

  lemma TickedGrew(s: Shape)
    requires Ready in s.queues
    ensures Ready in Ticked(s).queues && s.queues[Ready] <= Ticked(s).queues[Ready]
  {
  }

  lemma AppendGrew(s: Shape, p: Pid)
    requires Ready in s.queues
    ensures s.queues[Ready] <= Append(s, Ready, p).queues[Ready]
  {
  }

  lemma UpReady(k: K, s: Sid)
    requires Stable(k) && s in k.counts
    ensures Grew(k, Up(k, s))
  {
    UpShape(k, s);
    assert Up(k, s).queues == ShapeOf(Up(k, s)).queues;
  }

  lemma YieldReady(k: K)
    requires Stable(k)
    ensures Advanced(k, Yield(k))
  {
    YieldShape(k, Ready);
    PoppedAdvances(k, Queued(k, Ready), Yield(k));
  }

  lemma DieReady(k: K)
    requires Stable(k) && k.current.value != k.idle
    ensures Advanced(k, Die(k))
  {
    DieShape(k);
    PoppedAdvances(k, ShapeOf(k), Die(k));
  }

  /** FIFO without loss: a step with a dispatch runs the head and moves everybody else one place
      up; any other step leaves the queue's order alone and appends at most. */
  lemma StepReady(k: K, op: Op)
    requires Stable(k) && Legal(k, op)
    ensures if Dispatches(k, op) then Advanced(k, Step(k, op)) else Grew(k, Step(k, op))
  {
    hide Stable, Advanced, Grew, Down, Up, SleepUntil, Irq, Die, Yield, Signal, Unwind, Close, Push, Pop;
    StableCurrent(k);
    match op
    case YieldOp => YieldReady(k);
    case DownOp(s) => DownReady(k, s);
    case UpOp(s) => UpReady(k, s);
    case SleepOp(t) => SleepReady(k, t);
    case IrqOp(tick) => IrqReady(k, tick);
    case StartOp(p) => StartReady(k, p);
    case NewSemOp(s, n) => NewSemReady(k, s, n);
    case HoldOp => HoldReady(k);
    case ReleaseOp => ReleaseReady(k);
    case WaitOp(q) => WaitReady(k, q);
    case WaitEndOp(q) => WaitEndReady(k, q);
    case ExitOp(code) => ExitReady(k, code);
    case SignalOp => SignalShape(k); SignalReady(k);
    case DieOp => DieReady(k);
  }

  lemma StableCurrent(k: K)
    requires Stable(k)
    ensures k.current.Some? && k.current.value in k.procs && Ready in k.queues && Done(k.current.value) in k.counts
  {
    assert ProcOk(k, k.current.value);
  }

  lemma StartReady(k: K, p: Pid)
    requires Stable(k)
    ensures Grew(k, Start(k, p))
  {
  }

  lemma NewSemReady(k: K, s: Sid, n: nat)
    requires Stable(k)
    ensures Grew(k, NewSem(k, s, n))
  {
  }

  lemma HoldReady(k: K)
    requires Stable(k)
    ensures Grew(k, Hold(k))
  {
  }

  lemma ReleaseReady(k: K)
    requires Stable(k) && Top(k) == Some(Held)
    ensures Inv(Close(k)) && Grew(k, Unwind(Close(k)))
  {
    CloseShape(k);
    assert Unwind(Close(k)).queues == ShapeOf(k).queues;
  }

  lemma ExitReady(k: K, code: int)
    requires Stable(k)
    ensures k.current.value in k.procs && Grew(k, Push(SetExit(k, code), Exiting))
  {
  }

  lemma SameReady(k: K, mid: K, t: K)
    requires ShapeOf(mid) == ShapeOf(k)
    ensures Grew(mid, t) ==> Grew(k, t)
    ensures Advanced(mid, t) ==> Advanced(k, t)
  {
    assert mid.queues == ShapeOf(mid).queues;
  }

  lemma WaitReady(k: K, q: Pid)
    requires Stable(k) && Done(q) in k.counts && k.current.value != k.idle
    ensures k.current.value in k.procs && Stable(Push(k, Waiting(q)))
    ensures var t := Down(Push(k, Waiting(q)), Done(q));
      if k.counts[Done(q)] == 0 then Advanced(k, t) else Grew(k, t)
  {
    NoteStable(k, Waiting(q));
    var u := Push(k, Waiting(q));
    DownReady(u, Done(q));
    SameReady(k, u, Down(u, Done(q)));
  }

  lemma WaitEndReady(k: K, q: Pid)
    requires Stable(k) && Top(k) == Some(Waiting(q)) && Done(q) in k.counts
    ensures k.current.value in k.procs && Stable(Unwind(Pop(k))) && Done(q) in Unwind(Pop(k)).counts
    ensures Grew(k, Up(Unwind(Pop(k)), Done(q)))
  {
    UnnoteShape(k);
    var u := Unwind(Pop(k));
    assert u.counts == ShapeOf(u).counts;
    UpReady(u, Done(q));
    SameReady(k, u, Up(u, Done(q)));
  }

  lemma SignalReady(k: K)
    requires Stable(k) && Top(k) == Some(Exiting)
    ensures Grew(k, Signal(k))
  {
    SignalShape(k);
    var u := Push(Unwind(Pop(k)), Signalled);
    UpReady(u, Done(k.current.value));
    SameReady(k, u, Signal(k));
  }

  /** Dispatches among ops[i..j]. */
  ghost function DispatchCount(ks: seq<K>, ops: seq<Op>, i: nat, j: nat): nat
    requires i <= j <= |ops| && |ks| == |ops| + 1
    decreases j - i
  {
    if i == j then 0 else (if Dispatches(ks[i], ops[i]) then 1 else 0) + DispatchCount(ks, ops, i + 1, j)
  }

  /** The process at position n of the ready queue runs by the (n + 1)-th later dispatch. */
  lemma {:induction false} RunsInTurn(ks: seq<K>, ops: seq<Op>, i: nat, j: nat, n: nat, p: Pid)
    requires RunFrom(ks, ops) && i <= j <= |ops| && DispatchCount(ks, ops, i, j) > n
    requires Ready in ks[i].queues && n < |ks[i].queues[Ready]| && ks[i].queues[Ready][n] == p
    ensures exists m :: i < m <= j && ks[m].current == Some(p)
    decreases j - i
  {
    hide Stable, Step, Grew, Advanced, Legal, Dispatches;
    RunStable(ks, ops, i);
    var k, t, op := ks[i], ks[i + 1], ops[i];
    StepReady(k, op);
    if Dispatches(k, op) {
      AdvancedAt(k, t, n, p);
      if n > 0 { RunsInTurn(ks, ops, i + 1, j, n - 1, p); }
    } else {
      GrewAt(k, t, n, p);
      RunsInTurn(ks, ops, i + 1, j, n, p);
    }
  }

  lemma AdvancedAt(k: K, t: K, n: nat, p: Pid)
    requires Advanced(k, t) && Ready in k.queues && n < |k.queues[Ready]| && k.queues[Ready][n] == p
    ensures n == 0 ==> t.current == Some(p)
    ensures n > 0 ==> Ready in t.queues && n - 1 < |t.queues[Ready]| && t.queues[Ready][n - 1] == p
  {
    if n > 0 { assert k.queues[Ready][1..][n - 1] == p; }
  }

  lemma GrewAt(k: K, t: K, n: nat, p: Pid)
    requires Grew(k, t) && Ready in k.queues && n < |k.queues[Ready]| && k.queues[Ready][n] == p
    ensures Ready in t.queues && n < |t.queues[Ready]| && t.queues[Ready][n] == p
  {
  }

  /** A process that has been started runs, at the latest by as many dispatches later as there were
      processes ready before it, and one more. */
  lemma StartedRuns(ks: seq<K>, ops: seq<Op>, i: nat, j: nat, p: Pid)
    requires RunFrom(ks, ops) && i < j <= |ops| && ops[i] == StartOp(p) && Ready in ks[i].queues
    requires DispatchCount(ks, ops, i + 1, j) > |ks[i].queues[Ready]|
    ensures exists m :: i + 1 < m <= j && ks[m].current == Some(p)
  {
    hide Stable, Start;
    RunStable(ks, ops, i);
    StartShape(ks[i], p);
    RunsInTurn(ks, ops, i + 1, j, |ks[i].queues[Ready]|, p);
  }
}
