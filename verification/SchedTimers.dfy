/** Sleeping processes become ready at exactly their target tick, in the order in which they
    went to sleep. */
module SchedTimers {
  import opened SchedModel
  import opened SchedSteps
  import opened SchedCalls
  import opened SchedRuns
  import opened SchedTheorems

  /** The sleepers of t are still asleep, in the same order, perhaps with later ones behind. */
  predicate StillAsleep(sh: Shape, after: Shape, t: nat) {
    Sleepers(t) in sh.queues && Sleepers(t) in after.queues && sh.queues[Sleepers(t)] <= after.queues[Sleepers(t)]
  }

  /** The sleepers of t are, in order, behind those that were ready already; then the head of
      the whole has been dispatched. */
  predicate Released(sh: Shape, after: K, t: nat) {
    && Ready in sh.queues && Sleepers(t) in sh.queues && Sleepers(t) !in after.queues && Ready in after.queues
    && var line := sh.queues[Ready] + sh.queues[Sleepers(t)];
      line != [] ==> after.current == Some(line[0]) && line[1..] <= after.queues[Ready]
  }

  lemma PoppedAsleep(sh: Shape, mid: Shape, t: nat)
    requires StillAsleep(sh, mid, t) && Ready in mid.queues
    ensures StillAsleep(sh, Popped(mid), t)
  {
  }

  /** The first timer is the only one that can be due: all targets lie beyond the clock. */
  lemma DueIsFirst(k: K, t: nat)
    requires Stable(k) && Sleepers(t) in k.queues
    ensures k.timers != [] && t >= k.timers[0] && k.timers[0] > k.jiffies && Sleepers(k.timers[0]) in k.queues
    ensures t == k.jiffies + 1 ==> t == k.timers[0]
  {
    assert t in k.timers;
    var i :| 0 <= i < |k.timers| && k.timers[i] == t;
    assert k.timers[0] in k.timers;
  }

  lemma TickedAsleep(k: K, t: nat)
    requires Stable(k) && Sleepers(t) in k.queues && Ready in k.queues
    ensures Ready in Ticked(ShapeOf(k)).queues
    ensures t != k.jiffies + 1 ==> StillAsleep(ShapeOf(k), Ticked(ShapeOf(k)), t)
    ensures t == k.jiffies + 1 ==>
      Sleepers(t) !in Ticked(ShapeOf(k)).queues && Ticked(ShapeOf(k)).queues[Ready] == k.queues[Ready] + k.queues[Sleepers(t)]
  {
    DueIsFirst(k, t);
  }

  lemma StillTransitive(a: Shape, b: Shape, c: Shape, t: nat)
    requires StillAsleep(a, b, t) && StillAsleep(b, c, t)
    ensures StillAsleep(a, c, t)
  {
  }

  /** A dispatch after the sleepers have joined the ready queue. */
  lemma ReleasedPopped(sh: Shape, mid: Shape, after: K, idle: Pid, t: nat)
    requires Ready in sh.queues && Sleepers(t) in sh.queues && Sleepers(t) !in mid.queues && Ready in mid.queues
    requires sh.queues[Ready] + sh.queues[Sleepers(t)] <= mid.queues[Ready]
    requires ShapeOf(after) == Popped(mid) && after.current == Some(HeadOr(mid, idle))
    ensures Released(sh, after, t)
  {
    var line := sh.queues[Ready] + sh.queues[Sleepers(t)];
    assert after.queues == Popped(mid).queues by { assert ShapeOf(after).queues == after.queues; }
    if line != [] { assert line[1..] <= mid.queues[Ready][1..]; }
  }

  lemma IrqSleepers(k: K, tick: bool, t: nat)
    requires Stable(k) && k.irqOn && Sleepers(t) in k.queues
    ensures if tick && t == k.jiffies + 1 then Released(ShapeOf(k), Irq(k, tick), t) else StillAsleep(ShapeOf(k), ShapeOf(Irq(k, tick)), t)
  {
    hide Stable, Popped, Released, StillAsleep, Ticked;
    StableCurrent(k);
    IrqShape(k, tick);
    TickedAsleep(k, t);
    var sh := ShapeOf(k);
    SelfAsleep(sh, t);
    var s := if tick then Ticked(sh) else sh;
    var a := if k.current.value == k.idle then s else Append(s, Ready, k.current.value);
    if tick && t == k.jiffies + 1 {
      ReleasedPopped(sh, a, Irq(k, tick), k.idle, t);
    } else {
      AsleepBoth(sh, s, k.current.value, t);
      PoppedAsleep(sh, a, t);
    }
  }

  lemma SelfAsleep(sh: Shape, t: nat)
    requires Sleepers(t) in sh.queues
    ensures StillAsleep(sh, sh, t)
  {
  }

  lemma AsleepBoth(sh: Shape, s: Shape, p: Pid, t: nat)
    requires StillAsleep(sh, s, t) && Ready in s.queues
    ensures StillAsleep(sh, Append(s, Ready, p), t)
  {
  }

  lemma SleepSleepers(k: K, u: nat, t: nat)
    requires Stable(k) && k.current.value != k.idle && Sleepers(t) in k.queues
    ensures StillAsleep(ShapeOf(k), ShapeOf(SleepUntil(k, u)), t)
  {
    hide ProcOk, QueueOk, SemOk, TimersOk, SleepUntil, Popped;
    SleepShape(k, u);
    SelfAsleep(ShapeOf(k), t);
    if u > k.jiffies {
      var a := ShapeOf(AddTimer(k, u));
      var b := Append(a, Sleepers(u), k.current.value);
      assert StillAsleep(ShapeOf(k), b, t);
      PoppedAsleep(ShapeOf(k), b, t);
    }
  }

  lemma DownSleepers(k: K, s: Sid, t: nat)
    requires Stable(k) && s in k.counts && k.current.value != k.idle && Sleepers(t) in k.queues
    ensures StillAsleep(ShapeOf(k), ShapeOf(Down(k, s)), t)
  {
    DownShape(k, s);
  }

  lemma UpSleepers(k: K, s: Sid, t: nat)
    requires Stable(k) && s in k.counts && Sleepers(t) in k.queues
    ensures StillAsleep(ShapeOf(k), ShapeOf(Up(k, s)), t)
  {
    UpShape(k, s);
  }

  lemma YieldSleepers(k: K, t: nat)
    requires Stable(k) && Sleepers(t) in k.queues
    ensures StillAsleep(ShapeOf(k), ShapeOf(Yield(k)), t)
  {
    hide Stable, Inv, Popped, Yield, StillAsleep;
    StableCurrent(k);
    YieldOnReady(k);
    QueuedAsleep(k, t);
    PoppedAsleep(ShapeOf(k), Queued(k, Ready), t);
  }

  lemma YieldOnReady(k: K)
    requires Stable(k)
    ensures k.current.Some? && Ready in k.queues && Ready in Queued(k, Ready).queues && ShapeOf(Yield(k)) == Popped(Queued(k, Ready))
  {
    YieldShape(k, Ready);
  }

  lemma QueuedAsleep(k: K, t: nat)
    requires k.current.Some? && Ready in k.queues && Sleepers(t) in k.queues
    ensures StillAsleep(ShapeOf(k), Queued(k, Ready), t)
  {
  }

  lemma DieSleepers(k: K, t: nat)
    requires Stable(k) && k.current.value != k.idle && Sleepers(t) in k.queues
    ensures StillAsleep(ShapeOf(k), ShapeOf(Die(k)), t)
  {
    hide Popped, Die;
    DieShape(k);
    PoppedAsleep(ShapeOf(k), ShapeOf(k), t);
  }

  /** Only the tick that makes jiffies equal to t wakes the sleepers of t; it wakes all of them. */
  lemma StepSleepers(k: K, op: Op, t: nat)
    requires Stable(k) && Legal(k, op) && Sleepers(t) in k.queues
    ensures if op == IrqOp(true) && t == k.jiffies + 1 then Released(ShapeOf(k), Step(k, op), t)
            else StillAsleep(ShapeOf(k), ShapeOf(Step(k, op)), t)
  {
    hide ProcOk, QueueOk, SemOk, TimersOk;
    StableCurrent(k);
    match op
    case YieldOp => YieldSleepers(k, t);
    case DownOp(x) => DownSleepers(k, x, t);
    case UpOp(x) => UpSleepers(k, x, t);
    case SleepOp(u) => SleepSleepers(k, u, t);
    case IrqOp(tick) => IrqSleepers(k, tick, t);
    case StartOp(p) =>
    case NewSemOp(x, n) =>
    case HoldOp =>
    case ReleaseOp => CloseShape(k);
    case WaitOp(q) => NoteStable(k, Waiting(q)); DownSleepers(Push(k, Waiting(q)), Done(q), t);
    case WaitEndOp(q) => UnnoteShape(k); UpSleepers(Unwind(Pop(k)), Done(q), t);
    case ExitOp(code) =>
    case SignalOp => SignalShape(k); UpSleepers(Push(Unwind(Pop(k)), Signalled), Done(k.current.value), t);
    case DieOp => DieSleepers(k, t);
  }

  /** As long as the clock has not reached t, the sleepers of t sleep, in the order in which they
      came. */
  lemma {:induction false} AsleepUntilTarget(ks: seq<K>, ops: seq<Op>, i: nat, j: nat, t: nat)
    requires RunFrom(ks, ops) && i <= j <= |ops| && Sleepers(t) in ks[i].queues && ks[j].jiffies < t
    ensures StillAsleep(ShapeOf(ks[i]), ShapeOf(ks[j]), t) && ks[i].jiffies <= ks[j].jiffies
    decreases j - i
  {
    hide Stable, Legal, Step, StillAsleep, Released;
    if i < j {
      RunStable(ks, ops, i);
      ClockUp(ks, ops, i + 1, j);
      StepClock(ks[i], ops[i]);
      StepSleepers(ks[i], ops[i], t);
      SleepersKey(ShapeOf(ks[i]), ks[i + 1], t);
      AsleepUntilTarget(ks, ops, i + 1, j, t);
      StillTransitive(ShapeOf(ks[i]), ShapeOf(ks[i + 1]), ShapeOf(ks[j]), t);
    } else {
      SelfAsleep(ShapeOf(ks[i]), t);
    }
  }

  lemma SleepersKey(sh: Shape, k: K, t: nat)
    requires StillAsleep(sh, ShapeOf(k), t)
    ensures Sleepers(t) in k.queues
  {
    assert ShapeOf(k).queues == k.queues;
  }

  lemma StepClock(k: K, op: Op)
    requires Stable(k) && Legal(k, op)
    ensures Step(k, op).jiffies == k.jiffies + (if op == IrqOp(true) then 1 else 0)
  {
    hide Stable, Down, Up, SleepUntil, Irq, Die, Yield, Signal, Unwind, Popped, Queued, Append, ShapeOf, Inv;
    StableCurrent(k);
    match op
    case YieldOp => YieldClock(k);
    case DownOp(x) => DownShape(k, x);
    case UpOp(x) => UpShape(k, x);
    case SleepOp(u) => SleepShape(k, u);
    case IrqOp(tick) => IrqClock(k, tick);
    case StartOp(p) =>
    case NewSemOp(x, n) =>
    case HoldOp =>
    case ReleaseOp => CloseShape(k);
    case WaitOp(q) => WaitClock(k, q);
    case WaitEndOp(q) => WaitEndClock(k, q);
    case ExitOp(code) =>
    case SignalOp => SignalClock(k);
    case DieOp => DieShape(k);
  }

  lemma IrqClock(k: K, tick: bool)
    requires Stable(k) && k.irqOn
    ensures Irq(k, tick).jiffies == k.jiffies + (if tick then 1 else 0)
  {
    hide Stable, Irq, Inv;
    IrqShape(k, tick);
    assert ShapeOf(Irq(k, tick)).jiffies == Irq(k, tick).jiffies;
  }

  lemma YieldClock(k: K)
    requires Stable(k)
    ensures Yield(k).jiffies == k.jiffies
  {
    YieldShape(k, Ready);
  }

  lemma WaitClock(k: K, q: Pid)
    requires Stable(k) && Done(q) in k.counts && k.current.value != k.idle
    ensures k.current.value in k.procs && Stable(Push(k, Waiting(q))) && Down(Push(k, Waiting(q)), Done(q)).jiffies == k.jiffies
  {
    NoteStable(k, Waiting(q));
    DownShape(Push(k, Waiting(q)), Done(q));
  }

  lemma WaitEndClock(k: K, q: Pid)
    requires Stable(k) && Top(k) == Some(Waiting(q)) && Done(q) in k.counts
    ensures k.current.value in k.procs && Stable(Unwind(Pop(k))) && Done(q) in Unwind(Pop(k)).counts
    ensures Up(Unwind(Pop(k)), Done(q)).jiffies == k.jiffies
  {
    UnnoteShape(k);
    assert Unwind(Pop(k)).counts == ShapeOf(k).counts;
    UpShape(Unwind(Pop(k)), Done(q));
  }

  lemma SignalClock(k: K)
    requires Stable(k) && Top(k) == Some(Exiting)
    ensures Signal(k).jiffies == k.jiffies
  {
    SignalShape(k);
    var u := Push(Unwind(Pop(k)), Signalled);
    assert u.counts == ShapeOf(k).counts;
    UpShape(u, Done(k.current.value));
  }

  lemma {:induction false} ClockUp(ks: seq<K>, ops: seq<Op>, i: nat, j: nat)
    requires RunFrom(ks, ops) && i <= j <= |ops|
    ensures ks[i].jiffies <= ks[j].jiffies
    decreases j - i
  {
    if i < j {
      RunStable(ks, ops, i);
      StepClock(ks[i], ops[i]);
      ClockUp(ks, ops, i + 1, j);
    }
  }

  /** The sleepers that are on timer t at moment i are all released, in order, by the tick that
      takes the clock from t - 1 to t. */
  lemma WokenOnTime(ks: seq<K>, ops: seq<Op>, i: nat, j: nat, t: nat)
    requires RunFrom(ks, ops) && i <= j < |ops| && Sleepers(t) in ks[i].queues
    requires ks[j].jiffies + 1 == t && ops[j] == IrqOp(true)
    ensures StillAsleep(ShapeOf(ks[i]), ShapeOf(ks[j]), t) && Released(ShapeOf(ks[j]), ks[j + 1], t)
    ensures ks[j + 1].jiffies == t
  {
    hide Stable, Legal, Step, StillAsleep, Released;
    AsleepUntilTarget(ks, ops, i, j, t);
    SleepersKey(ShapeOf(ks[i]), ks[j], t);
    RunStable(ks, ops, j);
    StepSleepers(ks[j], ops[j], t);
    StepClock(ks[j], ops[j]);
  }

  // ---------------------------------------------------------------- milliseconds and ticks

  function Millis(jiffies: nat, hz: nat): nat
    requires hz > 0
  {
    jiffies * 1000 / hz
  }

  /** The target that sleepUntil computes. */
  function Target(millis: nat, hz: nat): nat {
    millis * hz / 1000
  }

  /** sleepFor(m) aims between (m - 1) * hz / 1000 - 1 (exclusive) and m * hz / 1000 ticks ahead. */
  lemma SleepForTarget(jiffies: nat, hz: nat, m: nat)
    requires hz > 0
    ensures var ahead := Target(Millis(jiffies, hz) + m, hz) - jiffies;
      (m - 1) * hz - 1000 < 1000 * ahead <= m * hz
  {
    var now := Millis(jiffies, hz);
    Floor(jiffies * 1000, hz);
    assert now * hz <= jiffies * 1000 < now * hz + hz;
    var product := (now + m) * hz;
    assert product == now * hz + m * hz;
    assert (m - 1) * hz == m * hz - hz;
    var target := Target(now + m, hz);
    assert 1000 * target <= product < 1000 * target + 1000;
  }

  lemma Floor(a: nat, b: nat)
    requires b > 0
    ensures a / b * b <= a < a / b * b + b
  {
  }
}
