/** The kernel calls: each takes the machine from one stable moment to the next. */
module SchedCalls {
  import opened SchedModel
  import opened SchedSteps

  /** checkReaper: everything on the reaper queue is let go. */
  function Reap(k: K): K
    requires Reaper in k.queues
  {
    k.(queues := k.queues[Reaper := []],
       place := map p | p in k.place :: if k.place[p] == In(Reaper) then Gone else k.place[p])
  }

  lemma ReapInv(k: K)
    requires Inv(k)
    ensures Inv(Reap(k)) && (Settled(k) ==> Settled(Reap(k)))
  {
    var after := Reap(k);
    assert QueueOk(k, Reaper);
    forall p {:trigger ProcOk(after, p)} | p in after.procs
      ensures ProcOk(after, p)
    {
      assert ProcOk(k, p);
    }
    forall q {:trigger QueueOk(after, q)} | q in after.queues
      ensures QueueOk(after, q)
    {
      assert QueueOk(k, q);
    }
    forall s {:trigger SemOk(after, s)} | s in after.counts
      ensures SemOk(after, s)
    {
      assert SemOk(k, s);
    }
  }

  /** The process at the head of the ready queue, or the idle process. */
  function Next(k: K): Pid
    requires Ready in k.queues
  {
    if k.queues[Ready] == [] then k.idle else k.queues[Ready][0]
  }

  /** The second half of yield, when no process has the CPU: choose, dispatch, and let the chosen
      process run on to its next stable moment. */
  function Pick(k: K): K
    requires Vacant(k)
  {
    PickChosen(k);
    Unwind(Reap(Chosen(k)))
  }

  function Chosen(k: K): K
    requires Ready in k.queues && Next(k) in k.procs
  {
    Run(if k.queues[Ready] == [] then k else Dequeue(k, Ready), Next(k))
  }

  lemma PickChosen(k: K)
    requires Vacant(k)
    ensures Next(k) in k.procs && Inv(Chosen(k)) && Settled(Chosen(k)) && Chosen(k).current == Some(Next(k))
    ensures Inv(Reap(Chosen(k))) && Settled(Reap(Chosen(k)))
  {
    var p := Next(k);
    assert ProcOk(k, k.idle);
    if k.queues[Ready] == [] {
      RunInv(k, p);
    } else {
      DequeueInv(k, Ready);
      RunInv(Dequeue(k, Ready), p);
    }
    ReapInv(Chosen(k));
  }

  lemma PickStable(k: K)
    requires Vacant(k)
    ensures Ready in k.queues && Stable(Pick(k)) && Pick(k).current == Some(Next(k))
  {
    hide Stable, Unwind, ProcOk, QueueOk, SemOk, TimersOk, Run, Dequeue;
    PickChosen(k);
    RunFlag(k);
    UnwindInv(Reap(Chosen(k)));
  }

  lemma RunFlag(k: K)
    requires Vacant(k)
    ensures Ready in k.queues && Next(k) in k.procs && Reaper in Chosen(k).queues
    ensures Next(k) in Reap(Chosen(k)).procs
    ensures Reap(Chosen(k)).irqOn == (Reap(Chosen(k)).procs[Next(k)].disableCount == 0)
    ensures Reap(Chosen(k)).current == Some(Next(k))
  {
    PickChosen(k);
  }

  // ---------------------------------------------------------------- yield

  /** The first half of yield(q) by the running process. */
  function Suspend(k: K, q: QueueId): K
    requires k.current.Some? && k.current.value in k.procs && q in k.queues
  {
    var open := Open(k, InYield);
    if q == Ready && k.current == Some(k.idle) then Rest(open) else Leave(open, q)
  }

  /** The running process may give up the CPU for queue q. */
  ghost predicate MaySuspend(k: K, q: QueueId) {
    && Inv(k) && Settled(k) && k.current.Some? && q in k.queues
    && match q
       case Ready => Top(k) != Some(InYield)
       case Reaper => false
       case Waiters(s) => Inside(k, InDown) && k.counts[s] == 0 && k.current.value != k.idle
       case Sleepers(_) => Inside(k, InSleep) && k.current.value != k.idle
  }

  lemma SuspendVacant(k: K, q: QueueId)
    requires MaySuspend(k, q)
    ensures Vacant(Suspend(k, q))
  {
    OpenInv(k, InYield);
    var open := Open(k, InYield);
    if q == Ready && k.current == Some(k.idle) {
      RestInv(open);
    } else {
      LeaveInv(open, q);
    }
  }

  ghost function YieldTo(k: K, q: QueueId): K
    requires MaySuspend(k, q)
  {
    SuspendVacant(k, q);
    Pick(Suspend(k, q))
  }

  lemma YieldToStable(k: K, q: QueueId)
    requires MaySuspend(k, q)
    ensures Stable(YieldTo(k, q))
  {
    SuspendVacant(k, q);
    PickStable(Suspend(k, q));
  }

  /** Process::yield(). */
  ghost function Yield(k: K): K
    requires Stable(k)
  {
    YieldTo(k, Ready)
  }

  // ---------------------------------------------------------------- semaphores

  /** Semaphore::down. */
  ghost function Down(k: K, s: Sid): K
    requires Stable(k) && s in k.counts && k.current.value != k.idle
  {
    OpenInv(k, InDown);
    assert SemOk(k, s);
    var open := Open(k, InDown);
    if k.counts[s] == 0 then YieldTo(open, Waiters(s)) else Unwind(open.(counts := k.counts[s := k.counts[s] - 1]))
  }

  lemma CountChanged(k: K, s: Sid, n: nat)
    requires Inv(k) && s in k.counts && (n > 0 ==> Waiters(s) in k.queues && k.queues[Waiters(s)] == [])
    ensures Inv(k.(counts := k.counts[s := n]))
  {
    var after := k.(counts := k.counts[s := n]);
    assert SemOk(k, s);
    forall p {:trigger ProcOk(after, p)} | p in after.procs
      ensures ProcOk(after, p)
    {
      assert ProcOk(k, p);
    }
    forall q {:trigger QueueOk(after, q)} | q in after.queues
      ensures QueueOk(after, q)
    {
      assert QueueOk(k, q);
    }
    forall x {:trigger SemOk(after, x)} | x in after.counts
      ensures SemOk(after, x)
    {
      assert SemOk(k, x);
    }
  }

  lemma DownStable(k: K, s: Sid)
    requires Stable(k) && s in k.counts && k.current.value != k.idle
    ensures Stable(Down(k, s))
  {
    hide Stable, Inv, Unwind, YieldTo, MaySuspend;
    DownParts(k, s);
    if k.counts[s] == 0 {
      YieldToStable(Open(k, InDown), Waiters(s));
    } else {
      UnwindInv(Open(k, InDown).(counts := k.counts[s := k.counts[s] - 1]));
    }
  }

  lemma DownParts(k: K, s: Sid)
    requires Stable(k) && s in k.counts && k.current.value != k.idle
    ensures k.current.value in k.procs
    ensures k.counts[s] == 0 ==> MaySuspend(Open(k, InDown), Waiters(s))
    ensures k.counts[s] > 0 ==>
      var after := Open(k, InDown).(counts := k.counts[s := k.counts[s] - 1]);
      Inv(after) && Settled(after) && after.current.Some? && after.current.value in after.procs
      && after.irqOn == (after.procs[after.current.value].disableCount == 0)
  {
    OpenInv(k, InDown);
    assert SemOk(k, s);
    if k.counts[s] > 0 { CountChanged(Open(k, InDown), s, k.counts[s] - 1); }
  }

  /** Semaphore::up between its disable and its enable: hand-off to the first waiter, if any. */
  function UpBody(k: K, s: Sid): K
    requires s in k.counts && Waiters(s) in k.queues && Ready in k.queues
    requires k.queues[Waiters(s)] != [] ==> k.queues[Waiters(s)][0] in k.procs
  {
    var w := k.queues[Waiters(s)];
    if w == [] then k.(counts := k.counts[s := k.counts[s] + 1]) else Wake(Dequeue(k, Waiters(s)), w[0])
  }

  lemma UpBodyInv(k: K, s: Sid)
    requires Inv(k) && Settled(k) && s in k.counts && k.current.Some?
    ensures Waiters(s) in k.queues && (k.queues[Waiters(s)] != [] ==> k.queues[Waiters(s)][0] in k.procs)
    ensures Inv(UpBody(k, s)) && Settled(UpBody(k, s)) && UpBody(k, s).current == k.current && UpBody(k, s).irqOn == k.irqOn
    ensures k.current.value in k.procs && UpBody(k, s).procs[k.current.value] == k.procs[k.current.value]
  {
    assert SemOk(k, s);
    var w := k.queues[Waiters(s)];
    if w == [] {
      CountChanged(k, s, k.counts[s] + 1);
    } else {
      DequeueInv(k, Waiters(s));
      WakeInv(Dequeue(k, Waiters(s)), w[0]);
    }
  }

  /** Semaphore::up. */
  ghost function Up(k: K, s: Sid): K
    requires Stable(k) && s in k.counts
  {
    OpenInv(k, Held);
    UpBodyInv(Open(k, Held), s);
    Close(UpBody(Open(k, Held), s))
  }

  lemma UpStable(k: K, s: Sid)
    requires Stable(k) && s in k.counts
    ensures Stable(Up(k, s)) && Up(k, s).current == k.current
  {
    OpenInv(k, Held);
    var open := Open(k, Held);
    UpBodyInv(open, s);
    BodyStable(k, UpBody(open, s));
  }

  /** A call that opens a bracket, changes others only, and closes the bracket. */
  lemma BodyStable(k: K, body: K)
    requires Stable(k) && Inv(body) && Settled(body) && body.current == k.current && !body.irqOn
    requires body.procs[k.current.value] == Open(k, Held).procs[k.current.value]
    ensures Top(body).Some? && Stable(Close(body)) && Close(body).current == k.current
  {
    hide ProcOk, QueueOk, SemOk, TimersOk;
    OpenInv(k, Held);
    CloseInv(body);
    assert Pop(body).procs[k.current.value].frames == k.procs[k.current.value].frames;
  }

  // ---------------------------------------------------------------- timers

  /** The sorted list with t in it. */
  function Insert(ts: seq<nat>, t: nat): seq<nat> {
    if ts == [] || t < ts[0] then [t] + ts
    else if ts[0] == t then ts
    else [ts[0]] + Insert(ts[1..], t)
  }

  ghost predicate Increasing(ts: seq<nat>) {
    forall i, j {:trigger ts[i], ts[j]} :: 0 <= i < j < |ts| ==> ts[i] < ts[j]
  }

  lemma {:induction false} InsertSorted(ts: seq<nat>, t: nat)
    requires Increasing(ts)
    ensures Increasing(Insert(ts, t))
    ensures forall x :: x in Insert(ts, t) <==> x == t || x in ts
  {
    if !(ts == [] || t <= ts[0]) {
      InsertSorted(ts[1..], t);
      var r := Insert(ts[1..], t);
      assert ts == [ts[0]] + ts[1..];
      forall j | 0 <= j < |r|
        ensures ts[0] < r[j]
      {
        assert r[j] in r;
      }
    }
  }

  /** The timer for tick t exists, with an empty queue if it is new. */
  function AddTimer(k: K, t: nat): K {
    k.(timers := Insert(k.timers, t), queues := if Sleepers(t) in k.queues then k.queues else k.queues[Sleepers(t) := []])
  }

  lemma AddTimerInv(k: K, t: nat)
    requires Inv(k) && k.jiffies < t
    ensures Inv(AddTimer(k, t)) && (Settled(k) ==> Settled(AddTimer(k, t)))
  {
    var after := AddTimer(k, t);
    InsertSorted(k.timers, t);
    forall p {:trigger ProcOk(after, p)} | p in after.procs
      ensures ProcOk(after, p)
    {
      assert ProcOk(k, p);
    }
    forall q {:trigger QueueOk(after, q)} | q in after.queues
      ensures QueueOk(after, q)
    {
      if q in k.queues { assert QueueOk(k, q); } else { NotPlaced(k, q); }
    }
    forall s {:trigger SemOk(after, s)} | s in after.counts
      ensures SemOk(after, s)
    {
      assert SemOk(k, s);
    }
    forall i {:trigger after.timers[i]} | 0 <= i < |after.timers|
      ensures after.jiffies < after.timers[i]
    {
      assert after.timers[i] in after.timers;
      if after.timers[i] != t { var j :| 0 <= j < |k.timers| && k.timers[j] == after.timers[i]; }
    }
    forall x {:trigger Sleepers(x)}
      ensures Sleepers(x) in after.queues <==> x in after.timers
    {
    }
  }

  lemma NotPlaced(k: K, q: QueueId)
    requires Inv(k) && q !in k.queues
    ensures forall p {:trigger k.place[p]} :: p in k.place ==> k.place[p] != In(q)
  {
    forall p {:trigger k.place[p]} | p in k.place
      ensures k.place[p] != In(q)
    {
      assert ProcOk(k, p);
    }
  }

  /** Process::sleepUntil, for a target already converted to ticks. */
  ghost function SleepUntil(k: K, target: nat): K
    requires Stable(k) && k.current.value != k.idle
  {
    OpenInv(k, InSleep);
    var open := Open(k, InSleep);
    if target > k.jiffies then
      SleepParts(k, target);
      YieldTo(AddTimer(open, target), Sleepers(target))
    else Unwind(open)
  }

  lemma SleepParts(k: K, target: nat)
    requires Stable(k) && k.current.value != k.idle
    ensures k.current.value in k.procs
    ensures target > k.jiffies ==> MaySuspend(AddTimer(Open(k, InSleep), target), Sleepers(target))
    ensures var open := Open(k, InSleep);
      && Inv(open) && Settled(open) && open.current.Some? && open.current.value in open.procs
      && open.irqOn == (open.procs[open.current.value].disableCount == 0)
  {
    OpenInv(k, InSleep);
    if target > k.jiffies {
      AddTimerInv(Open(k, InSleep), target);
      InsertSorted(k.timers, target);
    }
  }

  lemma SleepStable(k: K, target: nat)
    requires Stable(k) && k.current.value != k.idle
    ensures Stable(SleepUntil(k, target))
  {
    hide Stable, Inv, Unwind, YieldTo, MaySuspend;
    SleepParts(k, target);
    if target > k.jiffies {
      YieldToStable(AddTimer(Open(k, InSleep), target), Sleepers(target));
    } else {
      UnwindInv(Open(k, InSleep));
    }
  }

  /** The loop of tick: the sleepers of timer t become ready in the order of their queue. */
  ghost function WakeAll(k: K, t: nat): (after: K)
    requires Inv(k) && Sleepers(t) in k.queues
    ensures after.current == k.current && (k.current.Some? ==> k.current.value in after.procs)
    decreases |k.queues[Sleepers(t)]|
  {
    if k.queues[Sleepers(t)] == [] then k
    else
      WakeHead(k, t);
      WakeAll(Wake(Dequeue(k, Sleepers(t)), k.queues[Sleepers(t)][0]), t)
  }

  /** The first n sleepers of timer t have moved to the ready queue, in order; the running
      process and the other queues are as before. */
  ghost predicate Woken(k: K, after: K, t: nat, n: nat) {
    && Sleepers(t) in k.queues && Ready in k.queues && after.queues.Keys == k.queues.Keys && n <= |k.queues[Sleepers(t)]|
    && after.queues[Sleepers(t)] == k.queues[Sleepers(t)][n..]
    && after.queues[Ready] == k.queues[Ready] + k.queues[Sleepers(t)][..n]
    && (forall q {:trigger k.queues[q]} :: q != Ready && q != Sleepers(t) && q in k.queues ==> after.queues[q] == k.queues[q])
    && after.timers == k.timers && after.jiffies == k.jiffies && after.counts == k.counts
    && after.current == k.current && after.irqOn == k.irqOn && after.idle == k.idle
    && (k.current.Some? ==> k.current.value in k.procs && k.current.value in after.procs && after.procs[k.current.value] == k.procs[k.current.value])
  }

  lemma WakeHead(k: K, t: nat)
    requires Inv(k) && Sleepers(t) in k.queues && k.queues[Sleepers(t)] != []
    ensures k.queues[Sleepers(t)][0] in k.procs && Ready in k.queues
    ensures var next := Wake(Dequeue(k, Sleepers(t)), k.queues[Sleepers(t)][0]);
      && Inv(next) && (Settled(k) ==> Settled(next)) && Woken(k, next, t, 1)
      && Sleepers(t) in next.queues && |next.queues[Sleepers(t)]| == |k.queues[Sleepers(t)]| - 1
  {
    DequeueInv(k, Sleepers(t));
    WakeInv(Dequeue(k, Sleepers(t)), k.queues[Sleepers(t)][0]);
    assert k.queues[Sleepers(t)][..1] == [k.queues[Sleepers(t)][0]];
  }

  lemma WokenMore(k: K, next: K, after: K, t: nat, n: nat)
    requires Woken(k, next, t, 1) && Woken(next, after, t, n)
    ensures Woken(k, after, t, n + 1)
  {
    var s := k.queues[Sleepers(t)];
    assert s[1..][n..] == s[n + 1..] && s[..n + 1] == s[..1] + s[1..][..n];
    assert k.queues[Ready] + s[..n + 1] == (k.queues[Ready] + s[..1]) + s[1..][..n];
  }

  lemma {:induction false} WakeAllInv(k: K, t: nat)
    requires Inv(k) && Settled(k) && Sleepers(t) in k.queues
    ensures Inv(WakeAll(k, t)) && Settled(WakeAll(k, t)) && Woken(k, WakeAll(k, t), t, |k.queues[Sleepers(t)]|)
    decreases |k.queues[Sleepers(t)]|
  {
    hide Inv, Settled, Woken, Wake;
    var w := k.queues[Sleepers(t)];
    if w == [] {
      NobodyWoken(k, t);
    } else {
      WakeHead(k, t);
      var next := Wake(Dequeue(k, Sleepers(t)), w[0]);
      WakeAllInv(next, t);
      WokenMore(k, next, WakeAll(next, t), t, |w| - 1);
    }
  }

  lemma NobodyWoken(k: K, t: nat)
    requires Inv(k) && Sleepers(t) in k.queues && k.queues[Sleepers(t)] == []
    ensures Woken(k, k, t, 0)
  {
    assert k.queues[Ready] + [] == k.queues[Ready];
  }

  ghost predicate Due(k: K) {
    k.timers != [] && k.timers[0] == k.jiffies + 1
  }

  /** The timer interrupt's work: jiffies goes up, and the first timer goes off if it is due. */
  ghost function TickBody(k: K): K
    requires Inv(k) && Settled(k)
  {
    if Due(k) then
      assert k.timers[0] in k.timers && Sleepers(k.timers[0]) in k.queues;
      var awake := WakeAll(k, k.timers[0]);
      awake.(jiffies := k.jiffies + 1, timers := k.timers[1..], queues := awake.queues - {Sleepers(k.timers[0])})
    else k.(jiffies := k.jiffies + 1)
  }

  lemma TickQuiet(k: K)
    requires Inv(k) && Settled(k) && !Due(k)
    ensures Inv(TickBody(k)) && Settled(TickBody(k))
  {
    var after := TickBody(k);
    forall p {:trigger ProcOk(after, p)} | p in after.procs
      ensures ProcOk(after, p)
    {
      assert ProcOk(k, p);
    }
    forall q {:trigger QueueOk(after, q)} | q in after.queues
      ensures QueueOk(after, q)
    {
      assert QueueOk(k, q);
    }
    forall s {:trigger SemOk(after, s)} | s in after.counts
      ensures SemOk(after, s)
    {
      assert SemOk(k, s);
    }
    assert k.timers != [] ==> k.jiffies + 1 < k.timers[0];
  }

  lemma DropTimer(k: K)
    requires Inv(k) && Due(k) && Sleepers(k.timers[0]) in k.queues && k.queues[Sleepers(k.timers[0])] == []
    ensures Inv(k.(jiffies := k.jiffies + 1, timers := k.timers[1..], queues := k.queues - {Sleepers(k.timers[0])}))
  {
    var t := k.timers[0];
    var after := k.(jiffies := k.jiffies + 1, timers := k.timers[1..], queues := k.queues - {Sleepers(t)});
    assert QueueOk(k, Sleepers(t));
    assert k.timers == [t] + k.timers[1..];
    forall p {:trigger ProcOk(after, p)} | p in after.procs
      ensures ProcOk(after, p)
    {
      assert ProcOk(k, p) && p !in k.queues[Sleepers(t)];
    }
    forall q {:trigger QueueOk(after, q)} | q in after.queues
      ensures QueueOk(after, q)
    {
      assert QueueOk(k, q);
    }
    forall s {:trigger SemOk(after, s)} | s in after.counts
      ensures SemOk(after, s)
    {
      assert SemOk(k, s);
    }
    forall x {:trigger Sleepers(x)}
      ensures Sleepers(x) in after.queues <==> x in after.timers
    {
      assert x in k.timers <==> x == t || x in after.timers;
      assert t !in after.timers by { TimerOnce(k.timers); }
    }
  }

  lemma TimerOnce(ts: seq<nat>)
    requires Increasing(ts) && ts != []
    ensures ts[0] !in ts[1..]
  {
    forall i {:trigger ts[1..][i]} | 0 <= i < |ts[1..]|
      ensures ts[1..][i] != ts[0]
    {
      assert ts[1..][i] == ts[i + 1];
    }
  }

  lemma TickBodyInv(k: K)
    requires Inv(k) && Settled(k)
    ensures Inv(TickBody(k)) && Settled(TickBody(k)) && TickBody(k).current == k.current && TickBody(k).irqOn == k.irqOn
    ensures k.current.Some? ==> TickBody(k).procs[k.current.value] == k.procs[k.current.value]
  {
    if Due(k) {
      assert k.timers[0] in k.timers && Sleepers(k.timers[0]) in k.queues;
      WakeAllInv(k, k.timers[0]);
      DropTimer(WakeAll(k, k.timers[0]));
    } else {
      TickQuiet(k);
    }
  }

  // ---------------------------------------------------------------- interrupts

  function EnterIrq(k: K): K
    requires k.current.Some? && k.current.value in k.procs
  {
    Push(StartIrq(k), InIrq)
  }

  /** An interrupt finds a running process with no bracket open, so startIrq panics nowhere. */
  lemma EnterIrqInv(k: K)
    requires Stable(k) && k.irqOn
    ensures Inside(EnterIrq(k), InIrq) && Settled(EnterIrq(k)) && EnterIrq(k).current == k.current
  {
    var p := k.current.value;
    var after := EnterIrq(k);
    assert ProcOk(k, p);
    BracketsPush(k.procs[p].frames, InIrq);
    NestedPush(k.procs[p].frames, InIrq);
    assert ProcOk(after, p);
    ProcChanged(k, after, p);
  }

  /** pic_irq: the timer's handler or none, then yield, then endIrq when the process runs again. */
  ghost function Irq(k: K, tick: bool): K
    requires Stable(k) && k.irqOn
  {
    EnterIrqInv(k);
    var inside := EnterIrq(k);
    TickBodyInv(inside);
    YieldTo(if tick then TickBody(inside) else inside, Ready)
  }

  lemma IrqStable(k: K, tick: bool)
    requires Stable(k) && k.irqOn
    ensures Stable(Irq(k, tick))
  {
    EnterIrqInv(k);
    var inside := EnterIrq(k);
    TickBodyInv(inside);
    YieldToStable(if tick then TickBody(inside) else inside, Ready);
  }

  // ---------------------------------------------------------------- brackets and events

  /** An explicit disable() by the running process. */
  function Hold(k: K): K
    requires k.current.Some? && k.current.value in k.procs
  {
    Open(k, Held)
  }

  lemma HoldStable(k: K)
    requires Stable(k)
    ensures Stable(Hold(k))
  {
    OpenInv(k, Held);
  }

  lemma ReleaseStable(k: K)
    requires Stable(k) && Top(k) == Some(Held)
    ensures Inv(Close(k)) && Settled(Close(k)) && Stable(Unwind(Close(k)))
  {
    TopFrame(k.procs[k.current.value].frames) by { assert ProcOk(k, k.current.value); }
    assert ProcOk(k, k.current.value);
    CloseInv(k);
    UnwindInv(Close(k));
  }

  lemma NoteStable(k: K, f: Frame)
    requires Stable(k) && IsBracket(f) == 0
    ensures Stable(Push(k, f)) && Push(k, f).current == k.current && Push(k, f).counts == k.counts
  {
    var p := k.current.value;
    assert ProcOk(k, p);
    BracketsPush(k.procs[p].frames, f);
    NestedPush(k.procs[p].frames, f);
    assert ProcOk(Push(k, f), p);
    ProcChanged(k, Push(k, f), p);
  }

  /** Taking a note off the stack; what is below may close itself. */
  lemma UnnoteStable(k: K)
    requires Stable(k) && Top(k).Some? && IsBracket(Top(k).value) == 0
    ensures Inv(Pop(k)) && Settled(Pop(k)) && Pop(k).current == k.current && Pop(k).counts == k.counts
    ensures k.current.value in Pop(k).procs && Pop(k).irqOn == (Pop(k).procs[k.current.value].disableCount == 0)
    ensures Stable(Unwind(Pop(k))) && Unwind(Pop(k)).current == k.current && Unwind(Pop(k)).counts == k.counts
  {
    var p := k.current.value;
    assert ProcOk(k, p);
    TopFrame(k.procs[p].frames);
    assert ProcOk(Pop(k), p);
    ProcChanged(k, Pop(k), p);
    UnwindInv(Pop(k));
  }

  // ---------------------------------------------------------------- processes and semaphores come and go

  /** A new process, with its done event, goes to the ready queue. */
  function Start(k: K, p: Pid): K
    requires Ready in k.queues
  {
    k.(procs := k.procs[p := Proc(READY, 0, 0, [], None)],
       counts := k.counts[Done(p) := 0],
       queues := k.queues[Waiters(Done(p)) := []][Ready := k.queues[Ready] + [p]],
       place := k.place[p := In(Ready)])
  }

  lemma StartInv(k: K, p: Pid)
    requires Inv(k) && Settled(k) && p !in k.procs && Done(p) !in k.counts
    ensures Inv(Start(k, p)) && Settled(Start(k, p)) && Start(k, p).current == k.current && Start(k, p).irqOn == k.irqOn
    ensures k.current.Some? ==> k.current.value in k.procs && Start(k, p).procs[k.current.value] == k.procs[k.current.value]
  {
    var after := Start(k, p);
    forall x {:trigger ProcOk(after, x)} | x in after.procs
      ensures ProcOk(after, x)
    {
      if x != p { assert ProcOk(k, x); }
    }
    forall q {:trigger QueueOk(after, q)} | q in after.queues
      ensures QueueOk(after, q)
    {
      if q == Waiters(Done(p)) { NotPlaced(k, q); } else { StartQueue(k, p, q); }
    }
    forall s {:trigger SemOk(after, s)} | s in after.counts
      ensures SemOk(after, s)
    {
      if s != Done(p) { assert SemOk(k, s); }
    }
  }

  lemma StartQueue(k: K, p: Pid, q: QueueId)
    requires Inv(k) && q in k.queues && p !in k.procs && Done(p) !in k.counts && q != Waiters(Done(p))
    ensures QueueOk(Start(k, p), q)
  {
    assert QueueOk(k, q);
    assert p !in k.queues[q];
  }

  function NewSem(k: K, s: Sid, n: nat): K {
    k.(counts := k.counts[s := n], queues := k.queues[Waiters(s) := []])
  }

  lemma NewSemInv(k: K, s: Sid, n: nat)
    requires Inv(k) && Settled(k) && s !in k.counts
    ensures Inv(NewSem(k, s, n)) && Settled(NewSem(k, s, n))
  {
    var after := NewSem(k, s, n);
    forall x {:trigger ProcOk(after, x)} | x in after.procs
      ensures ProcOk(after, x)
    {
      assert ProcOk(k, x);
    }
    forall q {:trigger QueueOk(after, q)} | q in after.queues
      ensures QueueOk(after, q)
    {
      if q == Waiters(s) { NotPlaced(k, q); } else { assert QueueOk(k, q); }
    }
    forall x {:trigger SemOk(after, x)} | x in after.counts
      ensures SemOk(after, x)
    {
      if x != s { assert SemOk(k, x); }
    }
  }

  function SetExit(k: K, code: int): K
    requires k.current.Some? && k.current.value in k.procs
  {
    SetProc(k, k.current.value, k.procs[k.current.value].(exitCode := Some(code)))
  }

  lemma SetExitStable(k: K, code: int)
    requires Stable(k)
    ensures Stable(SetExit(k, code)) && SetExit(k, code).current == k.current && SetExit(k, code).counts == k.counts
  {
    var p := k.current.value;
    assert ProcOk(k, p);
    assert ProcOk(SetExit(k, code), p);
    ProcChanged(k, SetExit(k, code), p);
  }

  /** The last statements of exit: off to the reaper, and the CPU goes to somebody else. */
  ghost function Die(k: K): K
    requires Stable(k) && k.current.value != k.idle
  {
    DieVacant(k);
    Pick(Leave(Open(k, Held), Reaper))
  }

  lemma DieVacant(k: K)
    requires Stable(k) && k.current.value != k.idle
    ensures Open(k, Held).current == k.current && Reaper in Open(k, Held).queues && k.current.value in Open(k, Held).procs
    ensures Vacant(Leave(Open(k, Held), Reaper))
  {
    OpenInv(k, Held);
    LeaveInv(Open(k, Held), Reaper);
  }

  lemma DieStable(k: K)
    requires Stable(k) && k.current.value != k.idle
    ensures Stable(Die(k))
  {
    DieVacant(k);
    PickStable(Leave(Open(k, Held), Reaper));
  }
}
