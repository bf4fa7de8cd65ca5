/** The token of an event: from the signal on there is exactly one, either in the semaphore or with
    a process that has passed the down of its wait and not yet done the up. So one signal lets
    everybody past, one after the other. */
module SchedEvents {
  import opened SchedModel
  import opened SchedSteps
  import opened SchedCalls
  import opened SchedRuns
  import opened SchedTheorems
  import opened SchedSync
  import opened SchedNotes
  import opened SchedJoin

  // ---------------------------------------------------------------- sums over processes

  /** f(0) + ... + f(n - 1). */
  ghost function Sum(f: nat -> int, n: nat): int {
    if n == 0 then 0 else Sum(f, n - 1) + f(n - 1)
  }

  lemma {:induction false} SumSame(f: nat -> int, g: nat -> int, n: nat)
    requires forall x: nat {:trigger g(x)} :: x < n ==> f(x) == g(x)
    ensures Sum(f, n) == Sum(g, n)
  {
    if n > 0 { SumSame(f, g, n - 1); }
  }

  lemma {:induction false} SumOne(f: nat -> int, g: nat -> int, n: nat, p: nat)
    requires p < n && forall x: nat {:trigger g(x)} :: x < n && x != p ==> f(x) == g(x)
    ensures Sum(g, n) == Sum(f, n) + g(p) - f(p)
  {
    if p == n - 1 { SumSame(f, g, n - 1); } else { SumOne(f, g, n - 1, p); }
  }

  lemma {:induction false} SumDifference(f: nat -> int, g: nat -> int, h: nat -> int, n: nat)
    requires forall x: nat {:trigger h(x)} :: x < n ==> h(x) == f(x) - g(x)
    ensures Sum(h, n) == Sum(f, n) - Sum(g, n)
  {
    if n > 0 { SumDifference(f, g, h, n - 1); }
  }

  lemma {:induction false} SumAtLeast(f: nat -> int, n: nat, p: nat)
    requires p < n && forall x: nat {:trigger f(x)} :: x < n ==> f(x) >= 0
    ensures Sum(f, n) >= f(p) && Sum(f, n - 1) >= 0
  {
    if n > 1 { SumAtLeast(f, n - 1, if p < n - 1 then p else 0); }
  }

  lemma {:induction false} SumAtLeastTwo(f: nat -> int, n: nat, p: nat, r: nat)
    requires p < r < n && forall x: nat {:trigger f(x)} :: x < n ==> f(x) >= 0
    ensures Sum(f, n) >= f(p) + f(r)
  {
    if r == n - 1 { SumAtLeast(f, n - 1, p); } else { SumAtLeastTwo(f, n - 1, p, r); }
  }

  lemma {:induction false} SumPositive(f: nat -> int, n: nat) returns (p: nat)
    requires Sum(f, n) > 0
    ensures p < n && f(p) > 0
  {
    if f(n - 1) > 0 { p := n - 1; } else { p := SumPositive(f, n - 1); }
  }

  function Member(w: seq<Pid>, p: Pid): int {
    if p in w then 1 else 0
  }

  /** Counting the members of a queue one by one. */
  lemma {:induction false} SumMembers(w: seq<Pid>, n: nat)
    requires Distinct(w) && forall p {:trigger p in w} :: p in w ==> p < n
    ensures Sum((p: nat) => Member(w, p), n) == |w|
    decreases |w|
  {
    if w == [] {
      SumZero(n);
      SumSame((p: nat) => 0, (p: nat) => Member(w, p), n);
    } else {
      var last, v := w[|w| - 1], w[..|w| - 1];
      assert w == v + [last];
      assert last in w && forall p {:trigger p in v} :: p in v ==> p in w;
      SumMembers(v, n);
      SumOne((p: nat) => Member(v, p), (p: nat) => Member(w, p), n, last);
    }
  }

  lemma {:induction false} SumZero(n: nat)
    ensures Sum((p: nat) => 0, n) == 0
  {
    if n > 0 { SumZero(n - 1); SumSame((p: nat) => 0, (p: nat) => 0, n - 1); }
  }

  // ---------------------------------------------------------------- tokens

  /** The waits for q that p is in. */
  function WaitsOf(k: K, p: Pid, q: Pid): nat {
    multiset(NotesOf(k, p))[Waiting(q)]
  }

  function QueueOf(sh: Shape, s: Sid): seq<Pid> {
    if Waiters(s) in sh.queues then sh.queues[Waiters(s)] else []
  }

  /** The waits for q in which p is past the down: all, but for the one in whose down it is queued. */
  function InHand(k: K, p: Pid, q: Pid): int {
    WaitsOf(k, p, q) - Member(QueueOf(ShapeOf(k), Done(q)), p)
  }

  /** q has signalled the end of its run. */
  predicate HasSignalled(k: K, q: Pid) {
    Signalled in NotesOf(k, q)
  }

  /** All processes have numbers below n. */
  ghost predicate Below(k: K, n: nat) {
    forall p {:trigger p in k.procs} :: p in k.procs ==> p < n
  }

  ghost function AllWaits(k: K, q: Pid, n: nat): int {
    Sum((p: nat) => WaitsOf(k, p, q), n)
  }

  predicate QueuedWaits(k: K, p: Pid, q: Pid) {
    p in QueueOf(ShapeOf(k), Done(q)) ==> WaitsOf(k, p, q) >= 1
  }

  /** Every up on q's event is the signal or ends a wait, every down begins one. */
  ghost predicate EventInv(k: K, q: Pid, n: nat) {
    q in k.procs ==>
      && Balance(ShapeOf(k), Done(q)) + AllWaits(k, q, n) == multiset(NotesOf(k, q))[Signalled]
      && (forall p {:trigger QueuedWaits(k, p, q)} :: QueuedWaits(k, p, q))
      && multiset(NotesOf(k, q))[Exiting] + multiset(NotesOf(k, q))[Signalled] == if k.procs[q].exitCode.Some? then 1 else 0
  }

  // ---------------------------------------------------------------- the queue of an event

  /** What a step does to the waiters of semaphore s. */
  ghost function QueueAfter(k: K, op: Op, s: Sid): seq<Pid>
    requires Stable(k) && s in k.counts
  {
    var w := QueueOf(ShapeOf(k), s);
    if Ups(k, op, s) == 1 then (if w == [] then [] else w[1..])
    else if Downs(op, s) == 1 && k.counts[s] == 0 then w + [k.current.value]
    else w
  }

  lemma PoppedQueue(sh: Shape, s: Sid)
    requires Ready in sh.queues
    ensures QueueOf(Popped(sh), s) == QueueOf(sh, s)
  {
  }

  lemma AppendQueue(sh: Shape, q: QueueId, p: Pid, s: Sid)
    requires q in sh.queues
    ensures QueueOf(Append(sh, q, p), s) == QueueOf(sh, s) + (if q == Waiters(s) then [p] else [])
  {
  }

  lemma TickedQueue(sh: Shape, s: Sid)
    requires Ready in sh.queues
    ensures Ready in Ticked(sh).queues && QueueOf(Ticked(sh), s) == QueueOf(sh, s)
  {
  }

  lemma YieldQueue(k: K, s: Sid)
    requires Stable(k)
    ensures QueueOf(ShapeOf(Yield(k)), s) == QueueOf(ShapeOf(k), s)
  {
    hide Stable, Inv, Popped, Append, Yield;
    YieldShapes(k);
    PoppedQueue(Queued(k, Ready), s);
    if k.current != Some(k.idle) { AppendQueue(ShapeOf(k), Ready, k.current.value, s); }
  }

  lemma YieldShapes(k: K)
    requires Stable(k)
    ensures k.current.Some? && Ready in k.queues && Ready in Queued(k, Ready).queues && ShapeOf(Yield(k)) == Popped(Queued(k, Ready))
  {
    YieldShape(k, Ready);
  }

  lemma DownQueue(k: K, x: Sid, s: Sid)
    requires Stable(k) && x in k.counts && k.current.value != k.idle
    ensures QueueOf(ShapeOf(Down(k, x)), s) == QueueOf(ShapeOf(k), s) + (if x == s && k.counts[x] == 0 then [k.current.value] else [])
  {
    DownShape(k, x);
    if k.counts[x] == 0 {
      AppendQueue(ShapeOf(k), Waiters(x), k.current.value, s);
      PoppedQueue(Append(ShapeOf(k), Waiters(x), k.current.value), s);
    }
  }

  lemma UpQueue(k: K, x: Sid, s: Sid)
    requires Stable(k) && x in k.counts
    ensures var w := QueueOf(ShapeOf(k), s);
      QueueOf(ShapeOf(Up(k, x)), s) == if x == s && w != [] then w[1..] else w
  {
    UpShape(k, x);
  }

  lemma SleepQueue(k: K, t: nat, s: Sid)
    requires Stable(k) && k.current.value != k.idle
    ensures QueueOf(ShapeOf(SleepUntil(k, t)), s) == QueueOf(ShapeOf(k), s)
  {
    SleepShape(k, t);
    if t > k.jiffies {
      var a := ShapeOf(AddTimer(k, t));
      AppendQueue(a, Sleepers(t), k.current.value, s);
      PoppedQueue(Append(a, Sleepers(t), k.current.value), s);
    }
  }

  lemma IrqQueue(k: K, tick: bool, s: Sid)
    requires Stable(k) && k.irqOn
    ensures QueueOf(ShapeOf(Irq(k, tick)), s) == QueueOf(ShapeOf(k), s)
  {
    hide Stable, Inv, Popped, Append, Ticked, Irq, QueueOf;
    StableCurrent(k);
    IrqShape(k, tick);
    ReadyThere(k);
    TickedQueue(ShapeOf(k), s);
    var a := if tick then Ticked(ShapeOf(k)) else ShapeOf(k);
    AppendQueue(a, Ready, k.current.value, s);
    AppendReady(a, k.current.value);
    PoppedQueue(if k.current.value == k.idle then a else Append(a, Ready, k.current.value), s);
  }

  lemma ReadyThere(k: K)
    requires Ready in k.queues
    ensures Ready in ShapeOf(k).queues
  {
  }

  lemma AppendReady(sh: Shape, p: Pid)
    requires Ready in sh.queues
    ensures Ready in Append(sh, Ready, p).queues
  {
  }

  lemma DieQueue(k: K, s: Sid)
    requires Stable(k) && k.current.value != k.idle
    ensures QueueOf(ShapeOf(Die(k)), s) == QueueOf(ShapeOf(k), s)
  {
    DieShape(k);
    PoppedQueue(ShapeOf(k), s);
  }

  lemma WaitQueue(k: K, q: Pid, s: Sid)
    requires Stable(k) && Legal(k, WaitOp(q))
    ensures QueueOf(ShapeOf(Step(k, WaitOp(q))), s) == QueueOf(ShapeOf(k), s) + (if Done(q) == s && k.counts[Done(q)] == 0 then [k.current.value] else [])
  {
    NoteStable(k, Waiting(q));
    DownQueue(Push(k, Waiting(q)), Done(q), s);
  }

  lemma WaitEndQueue(k: K, q: Pid, s: Sid)
    requires Stable(k) && Legal(k, WaitEndOp(q))
    ensures var w := QueueOf(ShapeOf(k), s);
      QueueOf(ShapeOf(Step(k, WaitEndOp(q))), s) == if Done(q) == s && w != [] then w[1..] else w
  {
    hide Up, Unwind, Pop;
    UnnoteStable(k);
    UnnoteShape(k);
    UpQueue(Unwind(Pop(k)), Done(q), s);
  }

  lemma SignalQueue(k: K, s: Sid)
    requires Stable(k) && Legal(k, SignalOp)
    ensures var w := QueueOf(ShapeOf(k), s);
      QueueOf(ShapeOf(Step(k, SignalOp)), s) == if Done(k.current.value) == s && w != [] then w[1..] else w
  {
    hide Up, Unwind, Pop;
    UnnoteStable(k);
    SignalShape(k);
    var u := Push(Unwind(Pop(k)), Signalled);
    assert u.counts == ShapeOf(k).counts;
    UpQueue(u, Done(k.current.value), s);
  }

  /** The waiters are served in their order: an up takes the head away, a down that finds no token
      appends its caller, nothing else changes the queue. */
  lemma StepQueue(k: K, op: Op, s: Sid)
    requires Stable(k) && Legal(k, op) && s in k.counts
    ensures QueueOf(ShapeOf(Step(k, op)), s) == QueueAfter(k, op, s)
  {
    hide Stable, Inv, Down, Up, SleepUntil, Irq, Die, Yield, Signal, Unwind, Popped, Append, ShapeOf, Close, Push, Pop;
    StableCurrent(k);
    match op
    case YieldOp => YieldQueue(k, s);
    case DownOp(x) => DownQueue(k, x, s);
    case UpOp(x) => UpQueue(k, x, s);
    case SleepOp(t) => SleepQueue(k, t, s);
    case IrqOp(tick) => IrqQueue(k, tick, s);
    case StartOp(p) => StartKeepsQueue(k, p, s);
    case NewSemOp(x, n) => NewSemKeepsQueue(k, x, n, s);
    case HoldOp => HoldKeepsQueue(k, s);
    case ReleaseOp => CloseShape(k);
    case WaitOp(q) => WaitQueue(k, q, s);
    case WaitEndOp(q) => WaitEndQueue(k, q, s);
    case ExitOp(code) => ExitKeepsQueue(k, code, s);
    case SignalOp => SignalQueue(k, s);
    case DieOp => DieQueue(k, s);
  }

  lemma StartKeepsQueue(k: K, p: Pid, s: Sid)
    requires Ready in k.queues && s in k.counts && Done(p) !in k.counts
    ensures QueueOf(ShapeOf(Start(k, p)), s) == QueueOf(ShapeOf(k), s)
  {
  }

  lemma NewSemKeepsQueue(k: K, x: Sid, n: nat, s: Sid)
    requires s in k.counts && x !in k.counts
    ensures QueueOf(ShapeOf(NewSem(k, x, n)), s) == QueueOf(ShapeOf(k), s)
  {
  }

  lemma HoldKeepsQueue(k: K, s: Sid)
    requires k.current.Some? && k.current.value in k.procs
    ensures QueueOf(ShapeOf(Hold(k)), s) == QueueOf(ShapeOf(k), s)
  {
  }

  lemma ExitKeepsQueue(k: K, code: int, s: Sid)
    requires Stable(k)
    ensures k.current.value in k.procs && QueueOf(ShapeOf(Push(SetExit(k, code), Exiting)), s) == QueueOf(ShapeOf(k), s)
  {
  }

  // ---------------------------------------------------------------- every step keeps the account

  ghost function AllInHand(k: K, q: Pid, n: nat): int {
    Sum((p: nat) => InHand(k, p, q), n)
  }

  lemma WaitsSame(k: K, t: K, q: Pid, n: nat)
    requires forall p {:trigger NotesOf(t, p)} :: NotesOf(t, p) == NotesOf(k, p)
    ensures AllWaits(t, q, n) == AllWaits(k, q, n)
  {
    SumSame((p: nat) => WaitsOf(k, p, q), (p: nat) => WaitsOf(t, p, q), n);
  }

  /** One process's waits change. */
  lemma WaitsOne(k: K, t: K, p: Pid, q: Pid, n: nat)
    requires NotesBut(k, t, p) && p < n
    ensures AllWaits(t, q, n) == AllWaits(k, q, n) + WaitsOf(t, p, q) - WaitsOf(k, p, q)
  {
    var f, g := (x: nat) => WaitsOf(k, x, q) as int, (x: nat) => WaitsOf(t, x, q) as int;
    forall x: nat {:trigger g(x)} | x < n && x != p ensures f(x) == g(x) { assert SameNote(k, t, x); }
    SumOne(f, g, n, p);
    SumSame(f, (x: nat) => WaitsOf(k, x, q), n);
    SumSame(g, (x: nat) => WaitsOf(t, x, q), n);
  }

  lemma EventQuiet(k: K, op: Op, q: Pid, n: nat)
    requires Stable(k) && Legal(k, op) && Quiet(op) && EventInv(k, q, n)
    ensures EventInv(Step(k, op), q, n)
  {
    hide Stable, Step, Balance, ShapeOf, Inv;
    var t := Step(k, op);
    QuietNotes(k, op);
    assert SameNote(k, t, q);
    if q in k.procs {
      EventThere(k, q);
      forall p {:trigger NotesOf(t, p)} ensures NotesOf(t, p) == NotesOf(k, p) { assert SameNote(k, t, p); }
      WaitsSame(k, t, q, n);
      StepBalance(k, op, Done(q));
      StepQueue(k, op, Done(q));
      forall p {:trigger QueuedWaits(t, p, q)} ensures QueuedWaits(t, p, q) { assert QueuedWaits(k, p, q) && NotesOf(t, p) == NotesOf(k, p); }
    }
  }

  lemma EventThere(k: K, q: Pid)
    requires Stable(k) && q in k.procs
    ensures Done(q) in k.counts && k.current.Some? && k.current.value in k.procs
  {
    assert ProcOk(k, q);
  }

  /** Counting in notes that grow by one or lose their last. */
  lemma CountPush(ns: seq<Frame>, f: Frame, g: Frame)
    ensures multiset(ns + [f])[g] == multiset(ns)[g] + (if f == g then 1 else 0)
  {
  }

  /** What the account needs to know of a step of process me: q's notes of its exit, me's waits
      for q, and the queue. */
  lemma Account(k: K, t: K, me: Pid, q: Pid, n: nat, waits: int, signals: int)
    requires EventInv(k, q, n) && q in k.procs && q in t.procs && NotesBut(k, t, me) && me < n
    requires WaitsOf(t, me, q) == WaitsOf(k, me, q) + waits
    requires multiset(NotesOf(t, q))[Signalled] == multiset(NotesOf(k, q))[Signalled] + signals
    requires Balance(ShapeOf(t), Done(q)) == Balance(ShapeOf(k), Done(q)) + signals - waits
    requires forall p {:trigger QueuedWaits(t, p, q)} :: QueuedWaits(t, p, q)
    requires multiset(NotesOf(t, q))[Exiting] + multiset(NotesOf(t, q))[Signalled] == if t.procs[q].exitCode.Some? then 1 else 0
    ensures EventInv(t, q, n)
  {
    hide Balance, ShapeOf, WaitsOf, AllWaits, QueuedWaits;
    WaitsOne(k, t, me, q, n);
  }

  /** A note that has nothing to do with q's exit comes or goes. */
  lemma OtherNotes(k: K, t: K, me: Pid, q: Pid, more: K, less: K, f: Frame)
    requires NotesBut(k, t, me) && me in k.procs && me in t.procs && t.procs[me].exitCode == k.procs[me].exitCode
    requires (more == t && less == k) || (more == k && less == t)
    requires NotesOf(more, me) == NotesOf(less, me) + [f] && f.Waiting?
    ensures q in k.procs <==> q in t.procs
    ensures WaitsOf(more, me, q) == WaitsOf(less, me, q) + (if f == Waiting(q) then 1 else 0)
    ensures multiset(NotesOf(t, q))[Signalled] == multiset(NotesOf(k, q))[Signalled]
    ensures multiset(NotesOf(t, q))[Exiting] == multiset(NotesOf(k, q))[Exiting]
    ensures q in k.procs ==> t.procs[q].exitCode == k.procs[q].exitCode
  {
    var ns := NotesOf(less, me);
    CountPush(ns, f, Waiting(q));
    CountPush(ns, f, Signalled);
    CountPush(ns, f, Exiting);
    assert q != me ==> SameNote(k, t, q);
  }

  lemma EventWait(k: K, x: Pid, q: Pid, n: nat)
    requires Stable(k) && Legal(k, WaitOp(x)) && EventInv(k, q, n) && Below(k, n)
    ensures EventInv(Step(k, WaitOp(x)), q, n)
  {
    hide Stable, Step, Balance, ShapeOf, Inv, QueueOf, QueuedWaits, Legal, WaitsOf;
    CurrentThere(k);
    var t, me := Step(k, WaitOp(x)), k.current.value;
    WaitNotes(k, x);
    OtherNotes(k, t, me, q, t, k, Waiting(x));
    if q in t.procs {
      EventThere(k, q);
      StepBalance(k, WaitOp(x), Done(q));
      WaitQueued(k, t, x, q);
      Account(k, t, me, q, n, if x == q then 1 else 0, 0);
    }
  }

  lemma WaitQueued(k: K, t: K, x: Pid, q: Pid)
    requires Stable(k) && Legal(k, WaitOp(x)) && t == Step(k, WaitOp(x)) && q in k.procs
    requires forall p {:trigger QueuedWaits(k, p, q)} :: QueuedWaits(k, p, q)
    ensures forall p {:trigger QueuedWaits(t, p, q)} :: QueuedWaits(t, p, q)
  {
    hide Stable, Step, ShapeOf, Inv, QueueOf, Legal, NotesOf;
    CurrentThere(k);
    EventThere(k, q);
    WaitNotes(k, x);
    StepQueue(k, WaitOp(x), Done(q));
    CountPush(NotesOf(k, k.current.value), Waiting(x), Waiting(q));
    assert QueuedWaits(k, k.current.value, q);
    QueueGrows(k, t, k.current.value, x, q);
  }

  lemma QueueGrows(k: K, t: K, me: Pid, x: Pid, q: Pid)
    requires forall p {:trigger QueuedWaits(k, p, q)} :: QueuedWaits(k, p, q)
    requires var w := QueueOf(ShapeOf(k), Done(q)); QueueOf(ShapeOf(t), Done(q)) == w || (x == q && QueueOf(ShapeOf(t), Done(q)) == w + [me])
    requires NotesBut(k, t, me) && WaitsOf(t, me, q) == WaitsOf(k, me, q) + (if x == q then 1 else 0)
    ensures forall p {:trigger QueuedWaits(t, p, q)} :: QueuedWaits(t, p, q)
  {
    hide ShapeOf, QueueOf;
    forall p {:trigger QueuedWaits(t, p, q)}
      ensures QueuedWaits(t, p, q)
    {
      assert QueuedWaits(k, p, q);
      assert p != me ==> SameNote(k, t, p);
    }
  }

  lemma CurrentThere(k: K)
    requires Stable(k)
    ensures k.current.Some? && k.current.value in k.procs
    ensures forall s {:trigger QueueOf(ShapeOf(k), s)} :: k.current.value !in QueueOf(ShapeOf(k), s)
  {
    forall s {:trigger QueueOf(ShapeOf(k), s)} ensures k.current.value !in QueueOf(ShapeOf(k), s) {
      if Waiters(s) in k.queues { assert QueueOk(k, Waiters(s)); }
    }
  }

  lemma EventWaitEnd(k: K, x: Pid, q: Pid, n: nat)
    requires Stable(k) && Legal(k, WaitEndOp(x)) && EventInv(k, q, n) && Below(k, n)
    ensures EventInv(Step(k, WaitEndOp(x)), q, n)
  {
    hide Stable, Step, Balance, ShapeOf, Inv, QueueOf, QueuedWaits, Legal, WaitsOf;
    CurrentThere(k);
    var t, me := Step(k, WaitEndOp(x)), k.current.value;
    WaitEndNotes(k, x);
    OtherNotes(k, t, me, q, k, t, Waiting(x));
    if q in t.procs {
      EventThere(k, q);
      StepBalance(k, WaitEndOp(x), Done(q));
      ShrunkQueue(k, WaitEndOp(x), q);
      Account(k, t, me, q, n, if x == q then -1 else 0, 0);
    }
  }

  /** A step that only takes from the queue, by a process that is not in it. */
  lemma QueueShrinks(k: K, t: K, op: Op, q: Pid)
    requires Stable(k) && Done(q) in k.counts && QueueOf(ShapeOf(t), Done(q)) == QueueAfter(k, op, Done(q)) && Downs(op, Done(q)) == 0
    requires NotesBut(k, t, k.current.value) && forall p {:trigger QueuedWaits(k, p, q)} :: QueuedWaits(k, p, q)
    ensures forall p {:trigger QueuedWaits(t, p, q)} :: QueuedWaits(t, p, q)
  {
    hide Stable, Inv, ShapeOf, QueueOf;
    CurrentThere(k);
    var w := QueueOf(ShapeOf(k), Done(q));
    forall p {:trigger QueuedWaits(t, p, q)}
      ensures QueuedWaits(t, p, q)
    {
      assert QueuedWaits(k, p, q);
      if p in QueueOf(ShapeOf(t), Done(q)) {
        assert w == [w[0]] + w[1..];
        assert p in w;
        assert SameNote(k, t, p);
      }
    }
  }

  lemma ShrunkQueue(k: K, op: Op, q: Pid)
    requires Stable(k) && Legal(k, op) && q in k.procs && k.current.Some? && Downs(op, Done(q)) == 0
    requires NotesBut(k, Step(k, op), k.current.value) && forall p {:trigger QueuedWaits(k, p, q)} :: QueuedWaits(k, p, q)
    ensures forall p {:trigger QueuedWaits(Step(k, op), p, q)} :: QueuedWaits(Step(k, op), p, q)
  {
    hide Stable, Step, ShapeOf, Inv, QueueOf, QueuedWaits, Legal, NotesBut;
    EventThere(k, q);
    StepQueue(k, op, Done(q));
    QueueShrinks(k, Step(k, op), op, q);
  }

  /** The notes of q's exit after exit and after its signal. */
  lemma ExitNotesOf(k: K, t: K, me: Pid, q: Pid, ns: seq<Frame>)
    requires NotesBut(k, t, me) && me in k.procs && me in t.procs && k.procs[me].exitCode == None && t.procs[me].exitCode.Some?
    requires NotesOf(k, me) == ns && NotesOf(t, me) == ns + [Exiting]
    ensures (q in k.procs <==> q in t.procs) && WaitsOf(t, me, q) == WaitsOf(k, me, q)
    ensures multiset(NotesOf(t, q))[Signalled] == multiset(NotesOf(k, q))[Signalled]
    ensures multiset(NotesOf(t, q))[Exiting] == multiset(NotesOf(k, q))[Exiting] + (if q == me then 1 else 0)
    ensures q in k.procs && q != me ==> t.procs[q].exitCode == k.procs[q].exitCode
  {
    assert q != me ==> SameNote(k, t, q);
    ExitCounts(ns, q);
  }

  lemma SignalNotesOf(k: K, t: K, me: Pid, q: Pid, ns: seq<Frame>)
    requires NotesBut(k, t, me) && me in k.procs && me in t.procs && t.procs[me].exitCode == k.procs[me].exitCode
    requires NotesOf(k, me) == ns + [Exiting] && NotesOf(t, me) == ns + [Signalled]
    ensures (q in k.procs <==> q in t.procs) && WaitsOf(t, me, q) == WaitsOf(k, me, q)
    ensures multiset(NotesOf(t, q))[Signalled] == multiset(NotesOf(k, q))[Signalled] + (if q == me then 1 else 0)
    ensures multiset(NotesOf(t, q))[Exiting] == multiset(NotesOf(k, q))[Exiting] - (if q == me then 1 else 0)
    ensures q in k.procs ==> t.procs[q].exitCode == k.procs[q].exitCode
  {
    assert q != me ==> SameNote(k, t, q);
    SignalCounts(ns, q);
  }

  lemma EventExit(k: K, code: int, q: Pid, n: nat)
    requires Stable(k) && Legal(k, ExitOp(code)) && EventInv(k, q, n) && Below(k, n)
    ensures EventInv(Step(k, ExitOp(code)), q, n)
  {
    hide Stable, Step, Balance, ShapeOf, Inv, QueueOf, QueuedWaits, Top, NotesOf, NotesBut, WaitsOf;
    CurrentThere(k);
    var t, me := Step(k, ExitOp(code)), k.current.value;
    ExitNotes(k, code);
    ExitNotesOf(k, t, me, q, NotesOf(k, me));
    if q in t.procs {
      EventThere(k, q);
      StepBalance(k, ExitOp(code), Done(q));
      ShrunkQueue(k, ExitOp(code), q);
      Account(k, t, me, q, n, 0, 0);
    }
  }

  lemma EventSignal(k: K, q: Pid, n: nat)
    requires Stable(k) && Legal(k, SignalOp) && EventInv(k, q, n) && Below(k, n)
    ensures EventInv(Step(k, SignalOp), q, n)
  {
    hide Stable, Step, Balance, ShapeOf, Inv, QueueOf, QueuedWaits, Legal, NotesOf, NotesBut, WaitsOf;
    CurrentThere(k);
    var t, me := Step(k, SignalOp), k.current.value;
    SignalNotes(k);
    SignalNotesOf(k, t, me, q, NotesOf(k, me)[..|NotesOf(k, me)| - 1]);
    if q in t.procs {
      EventThere(k, q);
      StepBalance(k, SignalOp, Done(q));
      ShrunkQueue(k, SignalOp, q);
      Account(k, t, me, q, n, 0, if q == me then 1 else 0);
    }
  }

  lemma ExitCounts(ns: seq<Frame>, q: Pid)
    ensures multiset(ns + [Exiting])[Waiting(q)] == multiset(ns)[Waiting(q)] && multiset(ns + [Exiting])[Signalled] == multiset(ns)[Signalled]
    ensures multiset(ns + [Exiting])[Exiting] == multiset(ns)[Exiting] + 1
  {
    CountPush(ns, Exiting, Waiting(q));
    CountPush(ns, Exiting, Signalled);
    CountPush(ns, Exiting, Exiting);
  }

  lemma SignalCounts(ns: seq<Frame>, q: Pid)
    ensures multiset(ns + [Exiting])[Waiting(q)] == multiset(ns + [Signalled])[Waiting(q)] == multiset(ns)[Waiting(q)]
    ensures multiset(ns + [Exiting])[Exiting] == multiset(ns)[Exiting] + 1 && multiset(ns + [Signalled])[Exiting] == multiset(ns)[Exiting]
    ensures multiset(ns + [Exiting])[Signalled] == multiset(ns)[Signalled] && multiset(ns + [Signalled])[Signalled] == multiset(ns)[Signalled] + 1
  {
    CountPush(ns, Exiting, Waiting(q));
    CountPush(ns, Signalled, Waiting(q));
    CountPush(ns, Exiting, Exiting);
    CountPush(ns, Signalled, Exiting);
    CountPush(ns, Exiting, Signalled);
    CountPush(ns, Signalled, Signalled);
  }

  lemma EventStart(k: K, p: Pid, q: Pid, n: nat)
    requires Stable(k) && Legal(k, StartOp(p)) && EventInv(k, q, n) && JoinOk(k, q) && p < n
    ensures EventInv(Step(k, StartOp(p)), q, n)
  {
    hide Stable, Inv, EventInv, JoinOk, NotesBut, NotesOf;
    StartNotes(k, p);
    if q == p {
      OwnStart(k, p, n);
    } else {
      StartOther(k, p, q, n);
    }
  }

  /** The event of the process that is started. */
  lemma OwnStart(k: K, p: Pid, n: nat)
    requires Stable(k) && Legal(k, StartOp(p)) && JoinOk(k, p) && p < n
    ensures EventInv(Step(k, StartOp(p)), p, n)
  {
    hide Stable, Inv, JoinOk;
    StartNotes(k, p);
    StartWaits(k, p, p, n);
    var t := Step(k, StartOp(p));
    forall x {:trigger QueuedWaits(t, x, p)} ensures QueuedWaits(t, x, p) {}
  }

  lemma StartOther(k: K, p: Pid, q: Pid, n: nat)
    requires Stable(k) && Legal(k, StartOp(p)) && EventInv(k, q, n) && JoinOk(k, q) && p < n && q != p
    ensures EventInv(Step(k, StartOp(p)), q, n)
  {
    hide Stable, Inv, JoinOk, Start, ShapeOf, Balance, QueueOf;
    var t := Step(k, StartOp(p));
    StartNotes(k, p);
    assert SameNote(k, t, q);
    if q in k.procs {
      StartWaits(k, p, q, n);
      EventThere(k, q);
      StepBalance(k, StartOp(p), Done(q));
      StepQueue(k, StartOp(p), Done(q));
      forall x {:trigger QueuedWaits(t, x, q)}
        ensures QueuedWaits(t, x, q)
      {
        assert QueuedWaits(k, x, q);
        assert x != p ==> SameNote(k, t, x);
        StartedNoneQueued(k, p, q);
      }
    }
  }

  lemma StartedNoneQueued(k: K, p: Pid, q: Pid)
    requires Stable(k) && p !in k.procs
    ensures p !in QueueOf(ShapeOf(k), Done(q))
  {
    if Waiters(Done(q)) in k.queues { assert QueueOk(k, Waiters(Done(q))); }
  }

  lemma StartWaits(k: K, p: Pid, q: Pid, n: nat)
    requires Stable(k) && Legal(k, StartOp(p)) && JoinOk(k, q) && p < n
    ensures AllWaits(Start(k, p), q, n) == AllWaits(k, q, n) && (q == p ==> AllWaits(k, q, n) == 0)
  {
    hide Stable, Inv;
    StableCurrent(k);
    StartNotes(k, p);
    WaitsOne(k, Start(k, p), p, q, n);
    if q == p {
      SumZero(n);
      var g := (x: nat) => WaitsOf(k, x, q) as int;
      forall x: nat {:trigger g(x)} ensures g(x) == 0 { assert !Waits(k, x, q); }
      SumSame((x: nat) => 0, g, n);
      SumSame(g, (x: nat) => WaitsOf(k, x, q), n);
    }
  }

  /** Every step keeps the account of every event. */
  lemma StepEvent(k: K, op: Op, q: Pid, n: nat)
    requires Stable(k) && Legal(k, op) && EventInv(k, q, n) && JoinOk(k, q) && Below(k, n) && (op.StartOp? ==> op.p < n)
    ensures EventInv(Step(k, op), q, n)
  {
    hide Stable, EventInv, Step, Legal, JoinOk;
    match op
    case StartOp(p) => EventStart(k, p, q, n);
    case WaitOp(x) => EventWait(k, x, q, n);
    case WaitEndOp(x) => EventWaitEnd(k, x, q, n);
    case ExitOp(code) => EventExit(k, code, q, n);
    case SignalOp => EventSignal(k, q, n);
    case _ => EventQuiet(k, op, q, n);
  }

  // ---------------------------------------------------------------- what the account says

  lemma {:induction false} InHandSum(k: K, q: Pid, n: nat)
    requires Stable(k) && q in k.procs && Below(k, n) && EventInv(k, q, n)
    ensures AllInHand(k, q, n) == AllWaits(k, q, n) - |QueueOf(ShapeOf(k), Done(q))|
    ensures forall p {:trigger InHand(k, p, q)} :: InHand(k, p, q) >= 0
  {
    var w := QueueOf(ShapeOf(k), Done(q));
    assert Distinct(w) && forall p {:trigger p in w} :: p in w ==> p < n by { QueueBelow(k, Done(q), n); }
    SumMembers(w, n);
    var f, g, h := (p: nat) => WaitsOf(k, p, q) as int, (p: nat) => Member(w, p), (p: nat) => InHand(k, p, q);
    SumDifference(f, g, h, n);
    SumSame(f, (p: nat) => WaitsOf(k, p, q), n);
    SumSame(g, (p: nat) => Member(w, p), n);
    SumSame(h, (p: nat) => InHand(k, p, q), n);
    forall p {:trigger InHand(k, p, q)} ensures InHand(k, p, q) >= 0 { assert QueuedWaits(k, p, q); }
  }

  lemma QueueBelow(k: K, s: Sid, n: nat)
    requires Stable(k) && Below(k, n)
    ensures var w := QueueOf(ShapeOf(k), s); Distinct(w) && forall p {:trigger p in w} :: p in w ==> p < n
  {
    if Waiters(s) in k.queues { assert QueueOk(k, Waiters(s)); }
  }

  /** From the signal of q on, its semaphore's count and the processes in hand add up to one; before
      it, to none. */
  lemma OneToken(k: K, q: Pid, n: nat)
    requires Stable(k) && q in k.procs && Below(k, n) && EventInv(k, q, n)
    ensures Done(q) in k.counts && k.counts[Done(q)] + AllInHand(k, q, n) == if HasSignalled(k, q) then 1 else 0
    ensures forall p {:trigger InHand(k, p, q)} :: InHand(k, p, q) >= 0
  {
    EventThere(k, q);
    assert SemOk(k, Done(q));
    InHandSum(k, q, n);
  }

  /** Two processes that are both past the down are the same one, and only after the signal. */
  lemma OneInHand(k: K, q: Pid, n: nat, p: Pid, r: Pid)
    requires Stable(k) && q in k.procs && Below(k, n) && EventInv(k, q, n)
    requires p in k.procs && r in k.procs && InHand(k, p, q) > 0 && InHand(k, r, q) > 0
    ensures p == r && HasSignalled(k, q) && Done(q) in k.counts && k.counts[Done(q)] == 0 && InHand(k, p, q) == 1
  {
    OneToken(k, q, n);
    var f := (x: nat) => InHand(k, x, q);
    SumSame(f, (x: nat) => InHand(k, x, q), n);
    SumAtLeast(f, n, p);
    if p < r { SumAtLeastTwo(f, n, p, r); } else if r < p { SumAtLeastTwo(f, n, r, p); }
  }

  /** After the signal, as long as anybody waits for q, some process is past the down and will do
      the up that lets the first of them past. */
  lemma WaitersHaveHolder(k: K, q: Pid, n: nat) returns (p: Pid)
    requires Stable(k) && q in k.procs && Below(k, n) && EventInv(k, q, n) && HasSignalled(k, q)
    requires QueueOf(ShapeOf(k), Done(q)) != []
    ensures p in k.procs && InHand(k, p, q) == 1 && Waits(k, p, q)
  {
    OneToken(k, q, n);
    assert SemOk(k, Done(q));
    var f := (x: nat) => InHand(k, x, q);
    SumSame(f, (x: nat) => InHand(k, x, q), n);
    p := SumPositive(f, n);
    OneInHand(k, q, n, p, p);
  }

  /** After the signal, when no process is in hand, nobody waits, and whoever comes later passes at
      once. */
  lemma LaterWaitPasses(k: K, q: Pid, n: nat)
    requires Stable(k) && q in k.procs && Below(k, n) && EventInv(k, q, n) && HasSignalled(k, q)
    requires forall p {:trigger InHand(k, p, q)} :: InHand(k, p, q) == 0
    ensures QueueOf(ShapeOf(k), Done(q)) == [] && Done(q) in k.counts && k.counts[Done(q)] == 1
    ensures Legal(k, WaitOp(q)) ==> Step(k, WaitOp(q)).current == k.current && !Dispatches(k, WaitOp(q))
  {
    OneToken(k, q, n);
    assert SemOk(k, Done(q));
    SumZero(n);
    SumSame((x: nat) => 0, (x: nat) => InHand(k, x, q), n);
    if Legal(k, WaitOp(q)) {
      NoteStable(k, Waiting(q));
      DownShape(Push(k, Waiting(q)), Done(q));
    }
  }

  /** The signal is not forgotten. */
  lemma SignalStays(k: K, op: Op, q: Pid)
    requires Stable(k) && Legal(k, op) && HasSignalled(k, q)
    ensures HasSignalled(Step(k, op), q)
  {
    hide Step, Stable, NotesOf;
    var t := Step(k, op);
    CurrentThere(k);
    if Quiet(op) { QuietNotes(k, op); assert SameNote(k, t, q); }
    if op.StartOp? { StartNotes(k, op.p); StartedLater(k, op.p, q); assert SameNote(k, t, q); }
    if op.WaitOp? { WaitNotes(k, op.q); assert q != k.current.value ==> SameNote(k, t, q); }
    if op.WaitEndOp? { WaitEndNotes(k, op.q); assert q != k.current.value ==> SameNote(k, t, q); }
    if op.ExitOp? { ExitNotes(k, op.code); assert q != k.current.value ==> SameNote(k, t, q); }
    if op.SignalOp? { SignalNotes(k); assert q != k.current.value ==> SameNote(k, t, q); }
  }

  lemma StartedLater(k: K, p: Pid, q: Pid)
    requires p !in k.procs && HasSignalled(k, q)
    ensures q != p
  {
  }

  // ---------------------------------------------------------------- runs

  /** The account holds in every state of every run; n bounds the process numbers that occur. */
  lemma {:induction false} RunEvent(ks: seq<K>, ops: seq<Op>, i: nat, q: Pid, n: nat)
    requires RunFrom(ks, ops) && i < |ks| && JoinOk(ks[0], q) && EventInv(ks[0], q, n) && Below(ks[0], n)
    requires forall j {:trigger ops[j]} :: 0 <= j < |ops| && ops[j].StartOp? ==> ops[j].p < n
    ensures EventInv(ks[i], q, n) && Below(ks[i], n)
  {
    hide JoinOk, Stable, Legal, Step, EventInv;
    if i > 0 {
      RunEvent(ks, ops, i - 1, q, n);
      RunStable(ks, ops, i - 1);
      JoinAfterExit(ks, ops, i - 1, q);
      StepEvent(ks[i - 1], ops[i - 1], q, n);
      StepBelow(ks[i - 1], ops[i - 1], n);
    }
  }

  lemma StepBelow(k: K, op: Op, n: nat)
    requires Stable(k) && Legal(k, op) && Below(k, n) && (op.StartOp? ==> op.p < n)
    ensures Below(Step(k, op), n)
  {
    hide Step, Stable, NotesOf;
    var t := Step(k, op);
    CurrentThere(k);
    forall p {:trigger p in t.procs} | p in t.procs
      ensures p < n
    {
      if Quiet(op) { QuietNotes(k, op); assert SameNote(k, t, p); }
      if op.StartOp? { StartNotes(k, op.p); assert p != op.p ==> SameNote(k, t, p); }
      if op.WaitOp? { WaitNotes(k, op.q); assert p != k.current.value ==> SameNote(k, t, p); }
      if op.WaitEndOp? { WaitEndNotes(k, op.q); assert p != k.current.value ==> SameNote(k, t, p); }
      if op.ExitOp? { ExitNotes(k, op.code); assert p != k.current.value ==> SameNote(k, t, p); }
      if op.SignalOp? { SignalNotes(k); assert p != k.current.value ==> SameNote(k, t, p); }
    }
  }

  lemma BootEvent(idle: Pid, init: Pid, q: Pid, n: nat)
    requires idle != init && idle < n && init < n
    ensures Vacant(Boot(idle, init)) && EventInv(Pick(Boot(idle, init)), q, n) && Below(Pick(Boot(idle, init)), n)
  {
    BootVacant(idle, init);
    var k := Boot(idle, init);
    var t := Pick(k);
    PickNotes(k);
    PickShape(k);
    forall p {:trigger NotesOf(t, p)} ensures NotesOf(t, p) == [] && (p in t.procs <==> p == idle || p == init) { assert SameNote(k, t, p); }
    assert SameNote(k, t, q);
    SumZero(n);
    SumSame((x: nat) => 0, (x: nat) => WaitsOf(t, x, q), n);
    BootBalance(k, q);
    PoppedBalance(ShapeOf(k), Done(if q == idle then idle else init));
    PoppedQueue(ShapeOf(k), Done(q));
  }

  lemma BootBalance(k: K, q: Pid)
    requires exists idle, init {:trigger Boot(idle, init)} :: k == Boot(idle, init) && idle != init
    ensures Balance(ShapeOf(k), Done(q)) == 0 && QueueOf(ShapeOf(k), Done(q)) == []
  {
  }

  /** A number above all process numbers of a run from boot. */
  lemma {:induction false} SomeBound(ops: seq<Op>, low: nat) returns (n: nat)
    ensures n > low && forall j {:trigger ops[j]} :: 0 <= j < |ops| && ops[j].StartOp? ==> ops[j].p < n
  {
    if ops == [] {
      n := low + 1;
    } else {
      var op := ops[|ops| - 1];
      n := SomeBound(ops[..|ops| - 1], if op.StartOp? && op.p > low then op.p else low);
    }
  }

  /** One Event.signal releases every current and every later waiter: in any state of any run from
      boot in which q has signalled, at most one process is past the down of a wait for q; as long
      as somebody is queued there is such a process, whose up takes the first of the queue off it;
      and once there is none, nobody is queued and a later wait for q does not block. */
  lemma EventReleasesAll(ks: seq<K>, ops: seq<Op>, i: nat, idle: Pid, init: Pid, q: Pid)
    requires BootRun(ks, ops, idle, init) && i < |ks| && q in ks[i].procs && HasSignalled(ks[i], q)
    ensures Stable(ks[i])
    ensures forall p, r {:trigger InHand(ks[i], p, q), InHand(ks[i], r, q)} :: p in ks[i].procs && r in ks[i].procs && InHand(ks[i], p, q) > 0 && InHand(ks[i], r, q) > 0 ==> p == r
    ensures QueueOf(ShapeOf(ks[i]), Done(q)) != [] ==> exists p {:trigger InHand(ks[i], p, q)} :: p in ks[i].procs && InHand(ks[i], p, q) == 1
    ensures (forall p {:trigger InHand(ks[i], p, q)} :: InHand(ks[i], p, q) == 0) ==>
      && QueueOf(ShapeOf(ks[i]), Done(q)) == []
      && (Legal(ks[i], WaitOp(q)) ==> Step(ks[i], WaitOp(q)).current == ks[i].current)
  {
    hide Stable, Legal, Step, EventInv, InHand, QueueOf, ShapeOf;
    var n := EventAt(ks, ops, i, idle, init, q);
    var k := ks[i];
    forall p, r {:trigger InHand(k, p, q), InHand(k, r, q)} | p in k.procs && r in k.procs && InHand(k, p, q) > 0 && InHand(k, r, q) > 0
      ensures p == r
    {
      OneInHand(k, q, n, p, r);
    }
    if QueueOf(ShapeOf(k), Done(q)) != [] { var p := WaitersHaveHolder(k, q, n); }
    if (forall p {:trigger InHand(k, p, q)} :: InHand(k, p, q) == 0) { LaterWaitPasses(k, q, n); }
  }

  lemma EventAt(ks: seq<K>, ops: seq<Op>, i: nat, idle: Pid, init: Pid, q: Pid) returns (n: nat)
    requires BootRun(ks, ops, idle, init) && i < |ks|
    ensures Stable(ks[i]) && EventInv(ks[i], q, n) && Below(ks[i], n)
  {
    hide Stable, Legal, Step, EventInv;
    n := SomeBound(ops, if idle > init then idle else init);
    BootEvent(idle, init, q, n);
    BootJoin(idle, init, q);
    RunEvent(ks, ops, i, q, n);
    RunStable(ks, ops, i);
  }

  /** Before the signal of q nobody is past the down. */
  lemma NobodyBeforeSignal(ks: seq<K>, ops: seq<Op>, i: nat, idle: Pid, init: Pid, q: Pid, p: Pid)
    requires BootRun(ks, ops, idle, init) && i < |ks| && q in ks[i].procs && !HasSignalled(ks[i], q) && p in ks[i].procs
    ensures InHand(ks[i], p, q) == 0
  {
    hide Stable, Legal, Step, EventInv, InHand;
    var n := EventAt(ks, ops, i, idle, init, q);
    OneToken(ks[i], q, n);
    if InHand(ks[i], p, q) > 0 { OneInHand(ks[i], q, n, p, p); }
  }

  /** The waiter at position m of an event's queue is let past by the (m + 1)-th later up, be it the
      signal or the up of one who was let past before. */
  lemma {:induction false} ReleasedInTurn(ks: seq<K>, ops: seq<Op>, i: nat, j: nat, m: nat, idle: Pid, init: Pid, q: Pid, p: Pid)
    requires BootRun(ks, ops, idle, init) && i <= j <= |ops| && q in ks[i].procs
    requires UpsIn(ks, ops, Done(q), j) - UpsIn(ks, ops, Done(q), i) > m
    requires m < |QueueOf(ShapeOf(ks[i]), Done(q))| && QueueOf(ShapeOf(ks[i]), Done(q))[m] == p
    ensures exists l {:trigger ks[l]} :: i < l <= j && InHand(ks[l], p, q) == 1
    decreases j - i
  {
    hide Stable, Legal, Step, EventInv, QueueOf, ShapeOf, InHand, Ups, Downs;
    RunStable(ks, ops, i);
    var k, t, op := ks[i], ks[i + 1], ops[i];
    EventThere(k, q);
    StepQueue(k, op, Done(q));
    UpOrNot(k, op, Done(q));
    var n := EventAt(ks, ops, i, idle, init, q);
    var n' := EventAt(ks, ops, i + 1, idle, init, q);
    StaysThere(k, op, q);
    if Ups(k, op, Done(q)) == 1 && m == 0 {
      QueuedAt(k, q, n, p);
      LetPast(k, t, op, p, q, n');
    } else {
      var w := QueueOf(ShapeOf(k), Done(q));
      if Ups(k, op, Done(q)) == 1 { assert w[1..][m - 1] == p; }
      ReleasedInTurn(ks, ops, i + 1, j, if Ups(k, op, Done(q)) == 1 then m - 1 else m, idle, init, q, p);
    }
  }

  lemma UpOrNot(k: K, op: Op, s: Sid)
    requires Stable(k)
    ensures Ups(k, op, s) == 0 || Ups(k, op, s) == 1
  {
  }

  lemma StaysThere(k: K, op: Op, q: Pid)
    requires Stable(k) && Legal(k, op) && q in k.procs
    ensures q in Step(k, op).procs
  {
    hide Step, Stable, NotesOf;
    var t := Step(k, op);
    CurrentThere(k);
    if Quiet(op) { QuietNotes(k, op); assert SameNote(k, t, q); }
    if op.StartOp? { StartNotes(k, op.p); assert q != op.p ==> SameNote(k, t, q); }
    if op.WaitOp? { WaitNotes(k, op.q); assert q != k.current.value ==> SameNote(k, t, q); }
    if op.WaitEndOp? { WaitEndNotes(k, op.q); assert q != k.current.value ==> SameNote(k, t, q); }
    if op.ExitOp? { ExitNotes(k, op.code); assert q != k.current.value ==> SameNote(k, t, q); }
    if op.SignalOp? { SignalNotes(k); assert q != k.current.value ==> SameNote(k, t, q); }
  }

  lemma QueuedAt(k: K, q: Pid, n: nat, p: Pid)
    requires EventInv(k, q, n) && q in k.procs
    ensures QueuedWaits(k, p, q)
  {
  }

  /** The head of the queue comes off it with its wait still open. */
  lemma LetPast(k: K, t: K, op: Op, p: Pid, q: Pid, n: nat)
    requires Stable(k) && Legal(k, op) && t == Step(k, op) && q in k.procs && q in t.procs && Done(q) in k.counts
    requires Ups(k, op, Done(q)) == 1 && QueueOf(ShapeOf(k), Done(q)) != [] && QueueOf(ShapeOf(k), Done(q))[0] == p
    requires QueueOf(ShapeOf(t), Done(q)) == QueueAfter(k, op, Done(q))
    requires Stable(t) && EventInv(t, q, n) && Below(t, n) && QueuedWaits(k, p, q)
    ensures InHand(t, p, q) == 1
  {
    hide Stable, EventInv, Step, Inv, ShapeOf, QueueOf, NotesOf;
    var w := QueueOf(ShapeOf(k), Done(q));
    CurrentThere(k);
    assert p in w;
    HeadOnce(k, Done(q));
    UpsKeepNotes(k, op, q, p);
    assert SameNote(k, t, p);
    InHandProc(t, q, p);
    OneInHand(t, q, n, p, p);
  }

  lemma HeadOnce(k: K, s: Sid)
    requires Stable(k) && QueueOf(ShapeOf(k), s) != []
    ensures QueueOf(ShapeOf(k), s)[0] !in QueueOf(ShapeOf(k), s)[1..]
  {
    assert QueueOk(k, Waiters(s));
  }

  lemma InHandProc(t: K, q: Pid, p: Pid)
    requires WaitsOf(t, p, q) > 0
    ensures p in t.procs
  {
  }

  /** An up on an event is made by a process that is not in its queue, and changes only its own
      notes. */
  lemma UpsKeepNotes(k: K, op: Op, q: Pid, p: Pid)
    requires Stable(k) && Legal(k, op) && Ups(k, op, Done(q)) == 1 && k.current.Some? && p != k.current.value
    ensures SameNote(k, Step(k, op), p)
  {
    hide Stable, Step, NotesOf;
    if op.WaitEndOp? { WaitEndNotes(k, op.q); }
    if op.SignalOp? { SignalNotes(k); }
  }
}
