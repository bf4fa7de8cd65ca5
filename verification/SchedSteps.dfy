/** The steps of the process subsystem: the pieces of each kernel call, and the calls. */
module SchedSteps {
  import opened SchedModel

  function SetProc(k: K, p: Pid, pr: Proc): K {
    k.(procs := k.procs[p := pr])
  }

  predicate SameFrames(k: K, t: K) {
    t.current == k.current &&
    (k.current.Some? ==> k.current.value in k.procs && k.current.value in t.procs && t.procs[k.current.value].frames == k.procs[k.current.value].frames)
  }

  /** Process::disable. */
  function Disable(k: K): K
    requires k.current.Some? ==> k.current.value in k.procs
  {
    var off := k.(irqOn := false);
    match k.current
    case None => off
    case Some(p) => SetProc(off, p, k.procs[p].(disableCount := k.procs[p].disableCount + 1))
  }

  /** Process::enable. Panics are recorded by their line. */
  function Enable(k: K): (t: K)
    requires k.current.Some? ==> k.current.value in k.procs
    ensures SameFrames(k, t)
  {
    match k.current
    case None => k
    case Some(p) =>
      var c := k.procs[p].disableCount;
      if c == 0 then k.(panics := k.panics + {480})
      else if c == 1 then SetProc(k, p, k.procs[p].(disableCount := 0)).(irqOn := true)
      else SetProc(k, p, k.procs[p].(disableCount := c - 1))
  }

  function Disables(k: K, n: nat): (t: K)
    requires k.current.Some? ==> k.current.value in k.procs
    ensures t.current == k.current && (k.current.Some? ==> k.current.value in t.procs)
  {
    if n == 0 then k else Disable(Disables(k, n - 1))
  }

  function Enables(k: K, m: nat): (t: K)
    requires k.current.Some? ==> k.current.value in k.procs
    ensures t.current == k.current && (k.current.Some? ==> k.current.value in t.procs)
  {
    if m == 0 then k else Enable(Enables(k, m - 1))
  }

  lemma {:induction false} CountUp(k: K, n: nat)
    requires k.current.Some? && k.current.value in k.procs && k.irqOn == (k.procs[k.current.value].disableCount == 0)
    ensures var t := Disables(k, n);
      && t.procs[k.current.value].disableCount == k.procs[k.current.value].disableCount + n
      && t.irqOn == (t.procs[k.current.value].disableCount == 0) && t.panics == k.panics
  {
    if n > 0 { CountUp(k, n - 1); }
  }

  /** Calls of disable and enable balance: after n of the one and m of the other interrupts are on
      exactly if the enables have caught up with the count, and enable panics exactly if they
      overtake it. */
  lemma {:induction false} DisablesBalance(k: K, n: nat, m: nat)
    requires k.current.Some? && k.current.value in k.procs && k.irqOn == (k.procs[k.current.value].disableCount == 0)
    ensures var c, t := k.procs[k.current.value].disableCount + n, Enables(Disables(k, n), m);
      && t.procs[k.current.value].disableCount == (if m < c then c - m else 0) && t.irqOn == (m >= c)
      && t.panics == if m > c then k.panics + {480} else k.panics
  {
    CountUp(k, n);
    if m > 0 { DisablesBalance(k, n, m - 1); }
  }

  /** The interrupt gate and Process::startIrq. */
  function StartIrq(k: K): K
    requires k.current.Some? ==> k.current.value in k.procs
  {
    var off := k.(irqOn := false);
    match k.current
    case None => off.(panics := k.panics + {493})
    case Some(p) =>
      var pr := k.procs[p];
      SetProc(off, p, pr.(disableCount := 1, iDepth := pr.iDepth + 1))
      .(panics := if pr.disableCount != 0 then k.panics + {499} else k.panics)
  }

  /** Process::endIrq and the return from the interrupt. */
  function EndIrq(k: K): (t: K)
    requires k.current.Some? ==> k.current.value in k.procs
    ensures SameFrames(k, t)
  {
    match k.current
    case None => k.(irqOn := true)
    case Some(p) =>
      var pr := k.procs[p];
      SetProc(k, p, pr.(disableCount := 0, iDepth := if pr.iDepth > 0 then pr.iDepth - 1 else 0xffff_ffff))
      .(irqOn := true, panics := if pr.disableCount != 1 then k.panics + {511} else k.panics)
  }

  /** startIrq and endIrq are a pair exactly for a process with no bracket open: then nothing of it
      is left but interrupts switched on. Otherwise startIrq panics, and so it does without a
      process; endIrq panics exactly if the count is not the 1 that startIrq has set. */
  lemma IrqPair(k: K)
    requires k.current.Some? ==> k.current.value in k.procs
    ensures k.current == None ==> StartIrq(k) == k.(irqOn := false, panics := k.panics + {493}) && EndIrq(k) == k.(irqOn := true)
    ensures k.current.Some? ==>
      var me, s := k.procs[k.current.value], StartIrq(k);
      && !s.irqOn && s.panics == (if me.disableCount == 0 then k.panics else k.panics + {499})
      && (me.disableCount == 0 ==> EndIrq(s) == k.(irqOn := true))
    ensures k.current.Some? ==>
      var me, e := k.procs[k.current.value], EndIrq(k);
      && e.irqOn && e.panics == (if me.disableCount == 1 then k.panics else k.panics + {511})
      && k.current.value in e.procs && e.procs[k.current.value].disableCount == 0
      && e.procs[k.current.value].iDepth == (if me.iDepth == 0 then 0xffff_ffff else me.iDepth - 1)
  {
    if k.current.Some? && k.procs[k.current.value].disableCount == 0 {
      assert EndIrq(StartIrq(k)).procs == k.procs;
    }
  }

  function Push(k: K, f: Frame): K
    requires k.current.Some? && k.current.value in k.procs
  {
    var p := k.current.value;
    SetProc(k, p, k.procs[p].(frames := k.procs[p].frames + [f]))
  }

  function Top(k: K): Option<Frame>
    requires k.current.Some? && k.current.value in k.procs
  {
    var fs := k.procs[k.current.value].frames;
    if fs == [] then None else Some(fs[|fs| - 1])
  }

  function Pop(k: K): K
    requires k.current.Some? && k.current.value in k.procs && Top(k).Some?
  {
    var p := k.current.value;
    var fs := k.procs[p].frames;
    SetProc(k, p, k.procs[p].(frames := fs[..|fs| - 1]))
  }

  /** Entering a call that switches interrupts off. */
  function Open(k: K, f: Frame): K
    requires k.current.Some? && k.current.value in k.procs
  {
    Push(Disable(k), f)
  }

  /** Leaving the innermost call that holds interrupts off. */
  function Close(k: K): (t: K)
    requires k.current.Some? && k.current.value in k.procs && Top(k).Some?
    ensures t.current == k.current && k.current.value in t.procs
    ensures |t.procs[k.current.value].frames| == |k.procs[k.current.value].frames| - 1
  {
    if Top(k) == Some(InIrq) then EndIrq(Pop(k)) else Enable(Pop(k))
  }

  /** What a process does after it is dispatched until it is out of all calls that end by
      themselves. */
  function Unwind(k: K): (t: K)
    requires k.current.Some? && k.current.value in k.procs
    ensures t.current == k.current && k.current.value in t.procs
    decreases |k.procs[k.current.value].frames|
  {
    if Top(k).Some? && Auto(Top(k).value) then Unwind(Close(k)) else k
  }

  // ---------------------------------------------------------------- one process changes

  lemma BracketsPush(fs: seq<Frame>, f: Frame)
    ensures Brackets(fs + [f]) == Brackets(fs) + IsBracket(f)
    ensures Irqs(fs + [f]) == Irqs(fs) + (if f == InIrq then 1 else 0)
  {
    assert (fs + [f])[..|fs + [f]| - 1] == fs;
  }

  lemma NestedPush(fs: seq<Frame>, f: Frame)
    requires Nested(fs) && (f == InIrq ==> Brackets(fs) == 0)
    requires fs != [] ==> fs[|fs| - 1] != InYield && (fs[|fs| - 1] == InIrq ==> f == InYield)
    ensures Nested(fs + [f])
  {
    hide Brackets;
    forall i {:trigger (fs + [f])[i]} | 0 <= i < |fs + [f]| && (fs + [f])[i] == InIrq
      ensures Brackets((fs + [f])[..i]) == 0 && (i == |fs| || (i == |fs| - 1 && f == InYield))
    {
      assert (fs + [f])[..i] == fs[..i];
      assert i < |fs| ==> fs[i] == InIrq;
    }
  }

  /** Outside an interrupt handler the interrupt depth is 0. */
  lemma {:induction false} NoIrqs(fs: seq<Frame>)
    requires forall i {:trigger fs[i]} :: 0 <= i < |fs| ==> fs[i] != InIrq
    ensures Irqs(fs) == 0
  {
    if fs != [] {
      var gs := fs[..|fs| - 1];
      assert forall i {:trigger gs[i]} :: 0 <= i < |gs| ==> gs[i] == fs[i];
      NoIrqs(gs);
    }
  }

  lemma NestedPop(fs: seq<Frame>)
    requires Nested(fs) && fs != []
    ensures Nested(fs[..|fs| - 1]) && (fs[|fs| - 1] == InIrq ==> Brackets(fs[..|fs| - 1]) == 0)
  {
    var gs := fs[..|fs| - 1];
    forall i {:trigger gs[i]} | 0 <= i < |gs| && gs[i] == InIrq
      ensures Brackets(gs[..i]) == 0 && (i == |gs| - 1 || (i == |gs| - 2 && gs[|gs| - 1] == InYield))
    {
      assert fs[i] == InIrq && gs[..i] == fs[..i];
    }
  }

  /** Everything but the record of process p, the interrupt flag and the panics is the same. */
  ghost predicate OnlyProc(k: K, after: K, p: Pid) {
    && p in k.procs && p in after.procs && after == k.(procs := k.procs[p := after.procs[p]], irqOn := after.irqOn, panics := after.panics)
  }

  lemma ProcChanged(k: K, after: K, p: Pid)
    requires Inv(k) && OnlyProc(k, after, p) && ProcOk(after, p) && after.panics == {}
    ensures Inv(after) && (Settled(k) ==> Settled(after))
  {
    forall x {:trigger ProcOk(after, x)} | x in after.procs
      ensures ProcOk(after, x)
    {
      assert ProcOk(k, x);
    }
    forall q {:trigger QueueOk(after, q)} | q in after.queues
      ensures QueueOk(after, q)
    {
      assert QueueOk(k, q);
    }
    forall s {:trigger SemOk(after, s)} | s in after.counts
      ensures SemOk(after, s)
    {
      assert SemOk(k, s);
    }
  }

  lemma OpenInv(k: K, f: Frame)
    requires Inv(k) && k.current.Some? && IsBracket(f) == 1 && f != InIrq
    requires Top(k) != Some(InYield) && (Top(k) == Some(InIrq) ==> f == InYield)
    ensures Inside(Open(k, f), f) && OnlyProc(k, Open(k, f), k.current.value)
    ensures Settled(k) ==> Settled(Open(k, f))
    ensures Pop(Open(k, f)).procs[k.current.value].frames == k.procs[k.current.value].frames
  {
    hide Brackets, Irqs, Nested, SemOk, QueueOk, TimersOk, StateAt;
    var p := k.current.value;
    assert ProcOk(k, p);
    BracketsPush(k.procs[p].frames, f);
    NestedPush(k.procs[p].frames, f);
    ProcChanged(k, Open(k, f), p);
  }

  lemma TopFrame(fs: seq<Frame>)
    requires fs != [] && Nested(fs)
    ensures var gs, f := fs[..|fs| - 1], fs[|fs| - 1];
      && Brackets(fs) == Brackets(gs) + IsBracket(f) && Irqs(fs) == Irqs(gs) + (if f == InIrq then 1 else 0)
      && Nested(gs) && (f == InIrq ==> Brackets(gs) == 0)
  {
    NestedPop(fs);
  }

  /** Closing the innermost bracket panics nowhere, and interrupts come on exactly if it was the
      outermost one too. */
  lemma CloseInv(k: K)
    requires Inv(k) && k.current.Some? && Top(k).Some? && IsBracket(Top(k).value) == 1 && !k.irqOn
    ensures Inv(Close(k)) && OnlyProc(k, Close(k), k.current.value)
    ensures Close(k).irqOn == (Close(k).procs[k.current.value].disableCount == 0)
    ensures Settled(k) ==> Settled(Close(k))
  {
    hide Brackets, Irqs, Nested, SemOk, QueueOk, TimersOk, StateAt;
    var p := k.current.value;
    assert ProcOk(k, p);
    TopFrame(k.procs[p].frames);
    assert Close(k).panics == {};
    assert ProcOk(Close(k), p);
    ProcChanged(k, Close(k), p);
  }

  /** The running process leaves all self-closing calls and the machine is at a stable moment. */
  lemma {:induction false} UnwindInv(k: K)
    requires Inv(k) && Settled(k) && k.current.Some?
    requires k.irqOn == (k.procs[k.current.value].disableCount == 0)
    ensures Stable(Unwind(k)) && OnlyProc(k, Unwind(k), k.current.value)
    decreases |k.procs[k.current.value].frames|
  {
    hide Brackets, Irqs, Nested, SemOk, QueueOk, TimersOk, StateAt, Close;
    var p := k.current.value;
    assert ProcOk(k, p);
    if Top(k).Some? && Auto(Top(k).value) {
      TopFrame(k.procs[p].frames);
      CloseInv(k);
      UnwindInv(Close(k));
    }
  }

  // ---------------------------------------------------------------- queues

  function Enqueue(k: K, q: QueueId, p: Pid): K
    requires q in k.queues
  {
    k.(queues := k.queues[q := k.queues[q] + [p]], place := k.place[p := In(q)])
  }

  function Dequeue(k: K, q: QueueId): K
    requires q in k.queues && k.queues[q] != []
  {
    k.(queues := k.queues[q := k.queues[q][1..]], place := k.place[k.queues[q][0] := Nowhere])
  }

  function SetState(k: K, p: Pid, st: State): K
    requires p in k.procs
  {
    SetProc(k, p, k.procs[p].(state := st))
  }

  /** The two queue facts that a move of p changes. */
  lemma QueueAppended(k: K, after: K, q: QueueId, x: QueueId, p: Pid)
    requires x in k.queues && QueueOk(k, x) && q in k.queues && p in k.place && (k.place[p].In? ==> k.place[p].q != q && k.place[p].q != x)
    requires after.queues == k.queues[q := k.queues[q] + [p]] && after.place == k.place[p := In(q)]
    ensures QueueOk(after, x)
  {
    assert x == q ==> p !in k.queues[q];
    if x == q {
      assert after.queues[q] == k.queues[q] + [p];
    }
  }

  lemma QueueShortened(k: K, after: K, q: QueueId, x: QueueId)
    requires x in k.queues && QueueOk(k, x) && q in k.queues && QueueOk(k, q) && k.queues[q] != []
    requires after.queues == k.queues[q := k.queues[q][1..]] && after.place == k.place[k.queues[q][0] := Nowhere]
    ensures QueueOk(after, x)
  {
    var s, p := k.queues[q], k.queues[q][0];
    assert p in s && k.place[p] == In(q);
    assert s == [p] + s[1..];
    if x == q {
      forall i, j {:trigger s[1..][i], s[1..][j]} | 0 <= i < j < |s[1..]|
        ensures s[1..][i] != s[1..][j]
      {
      }
      forall y {:trigger y in s[1..]}
        ensures y in s[1..] <==> y in s && y != p
      {
        if y in s[1..] {
          var i :| 0 <= i < |s[1..]| && s[1..][i] == y;
          assert s[i + 1] == y;
        }
      }
    }
  }

  /** What every move of one process p keeps. */
  ghost predicate OnlyMoves(k: K, after: K, p: Pid) {
    && p in k.procs && p in k.place && p in after.procs && p in after.place
    && after.procs == k.procs[p := after.procs[p]] && after.place == k.place[p := after.place[p]]
    && after.counts == k.counts && after.timers == k.timers && after.jiffies == k.jiffies
    && after.idle == k.idle && after.panics == k.panics && after.queues.Keys == k.queues.Keys
  }

  lemma Relocated(k: K, after: K, p: Pid)
    requires Inv(k) && OnlyMoves(k, after, p) && ProcOk(after, p)
    requires forall q {:trigger QueueOk(after, q)} :: q in after.queues ==> QueueOk(after, q)
    requires forall s {:trigger SemOk(after, s)} :: s in after.counts ==> SemOk(after, s)
    requires after.current == k.current || after.current == None || after.current == Some(p)
    requires after.current.Some? ==> after.current.value in after.place && after.place[after.current.value] == Cpu
    requires k.current.Some? && k.current.value != p ==> after.current == k.current
    requires p == k.idle ==> after.place[p] == Cpu || after.place[p] == Idling
    ensures Inv(after)
  {
    forall x {:trigger ProcOk(after, x)} | x in after.procs
      ensures ProcOk(after, x)
    {
      assert ProcOk(k, x);
    }
  }

  /** The running process goes to the end of a queue. */
  function Leave(k: K, q: QueueId): K
    requires k.current.Some? && k.current.value in k.procs && q in k.queues
  {
    Enqueue(SetState(k, k.current.value, StateAt(In(q))), q, k.current.value).(current := None)
  }

  lemma LeaveInv(k: K, q: QueueId)
    requires Inv(k) && k.current.Some? && k.current.value != k.idle && q in k.queues
    requires FramesFit(k.procs[k.current.value].frames, In(q))
    requires q.Waiters? ==> k.counts[q.s] == 0
    ensures Inv(Leave(k, q)) && (Settled(k) ==> Settled(Leave(k, q)))
  {
    var p, after := k.current.value, Leave(k, q);
    assert ProcOk(k, p);
    forall x {:trigger QueueOk(after, x)} | x in after.queues
      ensures QueueOk(after, x)
    {
      assert QueueOk(k, x);
      QueueAppended(k, after, q, x, p);
    }
    forall s {:trigger SemOk(after, s)} | s in after.counts
      ensures SemOk(after, s)
    {
      assert SemOk(k, s);
    }
    Relocated(k, after, p);
  }

  /** The idle process leaves the CPU and is not queued. */
  function Rest(k: K): K
    requires k.current.Some? && k.current.value in k.procs
  {
    var p := k.current.value;
    SetState(k, p, READY).(place := k.place[p := Idling], current := None)
  }

  lemma RestInv(k: K)
    requires Inv(k) && k.current == Some(k.idle)
    requires FramesFit(k.procs[k.idle].frames, Idling)
    ensures Inv(Rest(k)) && (Settled(k) ==> Settled(Rest(k)))
  {
    var p, after := k.idle, Rest(k);
    assert ProcOk(k, p);
    SameQueues(k, after, p);
    Relocated(k, after, p);
  }

  /** Moves that touch no queue. */
  lemma SameQueues(k: K, after: K, p: Pid)
    requires Inv(k) && p in k.place && !k.place[p].In? && after.queues == k.queues && after.counts == k.counts
    requires p in after.place && !after.place[p].In? && after.place == k.place[p := after.place[p]]
    ensures forall q {:trigger QueueOk(after, q)} :: q in after.queues ==> QueueOk(after, q)
    ensures forall s {:trigger SemOk(after, s)} :: s in after.counts ==> SemOk(after, s)
  {
    forall q {:trigger QueueOk(after, q)} | q in after.queues
      ensures QueueOk(after, q)
    {
      assert QueueOk(k, q);
    }
    forall s {:trigger SemOk(after, s)} | s in after.counts
      ensures SemOk(after, s)
    {
      assert SemOk(k, s);
    }
  }

  lemma DequeueInv(k: K, q: QueueId)
    requires Inv(k) && q in k.queues && k.queues[q] != [] && q != Reaper
    ensures k.queues[q][0] in k.procs && k.place[k.queues[q][0]] == In(q) && k.queues[q][0] != k.idle
    ensures Inv(Dequeue(k, q))
    ensures k.current.Some? ==> k.queues[q][0] != k.current.value
  {
    var p, after := k.queues[q][0], Dequeue(k, q);
    assert QueueOk(k, q) && p in k.queues[q];
    assert ProcOk(k, p);
    forall x {:trigger QueueOk(after, x)} | x in after.queues
      ensures QueueOk(after, x)
    {
      assert QueueOk(k, x);
      QueueShortened(k, after, q, x);
    }
    forall s {:trigger SemOk(after, s)} | s in after.counts
      ensures SemOk(after, s)
    {
      assert SemOk(k, s);
    }
    Relocated(k, after, p);
  }

  /** The body of makeReady for a process that has just come off a queue, or for the idle process,
      which is never queued. */
  function Wake(k: K, p: Pid): K
    requires p in k.procs && Ready in k.queues
  {
    if p == k.idle then SetState(k, p, READY).(place := k.place[p := Idling])
    else Enqueue(SetState(k, p, READY), Ready, p)
  }

  /** Making ready keeps the invariant. The process is then the last of the ready queue, unless it
      is the idle process: no queue changes for that. */
  lemma WakeInv(k: K, p: Pid)
    requires Inv(k) && p in k.place && (k.place[p] == Nowhere || k.place[p] == Idling)
    ensures Inv(Wake(k, p)) && p in Wake(k, p).procs && Wake(k, p).procs[p].state == READY
    ensures p == k.idle ==> Wake(k, p) == k && forall q {:trigger k.queues[q]} :: q in k.queues ==> p !in k.queues[q]
    ensures p != k.idle ==> Ready in k.queues && Wake(k, p).queues == k.queues[Ready := k.queues[Ready] + [p]]
  {
    assert ProcOk(k, p);
    if p == k.idle { WakeIdle(k); } else { WakeQueued(k, p); }
  }

  lemma WakeIdle(k: K)
    requires Inv(k) && k.place[k.idle] == Idling
    ensures Wake(k, k.idle) == k && k.procs[k.idle].state == READY
    ensures forall q {:trigger k.queues[q]} :: q in k.queues ==> k.idle !in k.queues[q]
  {
    assert ProcOk(k, k.idle);
    assert Wake(k, k.idle).procs == k.procs && Wake(k, k.idle).place == k.place;
    forall q {:trigger k.queues[q]} | q in k.queues ensures k.idle !in k.queues[q] { assert QueueOk(k, q); }
  }

  lemma WakeQueued(k: K, p: Pid)
    requires Inv(k) && p in k.place && k.place[p] == Nowhere && p != k.idle
    ensures Inv(Wake(k, p)) && Wake(k, p).procs[p].state == READY && Wake(k, p).queues == k.queues[Ready := k.queues[Ready] + [p]]
  {
    var after := Wake(k, p);
    assert ProcOk(k, p);
    forall x {:trigger QueueOk(after, x)} | x in after.queues
      ensures QueueOk(after, x)
    {
      assert QueueOk(k, x);
      QueueAppended(k, after, Ready, x, p);
    }
    forall s {:trigger SemOk(after, s)} | s in after.counts
      ensures SemOk(after, s)
    {
      assert SemOk(k, s);
    }
    Relocated(k, after, p);
  }

  /** Process::dispatch: p gets the CPU; the saved flags switch interrupts on only for a process
      with no bracket open. */
  function Run(k: K, p: Pid): K
    requires p in k.procs
  {
    SetState(k, p, RUNNING).(place := k.place[p := Cpu], current := Some(p), irqOn := k.procs[p].disableCount == 0)
  }

  lemma RunInv(k: K, p: Pid)
    requires Inv(k) && k.current == None && p in k.place && (k.place[p] == Nowhere || k.place[p] == Idling)
    ensures Inv(Run(k, p))
  {
    var after := Run(k, p);
    assert ProcOk(k, p);
    SameQueues(k, after, p);
    Relocated(k, after, p);
  }
}
