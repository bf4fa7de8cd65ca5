/** What the processes have begun with Event::wait and exit, and which steps change it. */
module SchedNotes {
  import opened SchedModel
  import opened SchedSteps
  import opened SchedCalls
  import opened SchedRuns
  import opened SchedTheorems

  // ---------------------------------------------------------------- notes

  /** The frames that hold no bracket: what a process has begun with Event::wait and exit. */
  function Notes(fs: seq<Frame>): seq<Frame> {
    if fs == [] then []
    else Notes(fs[..|fs| - 1]) + (if IsBracket(fs[|fs| - 1]) == 0 then [fs[|fs| - 1]] else [])
  }

  function NotesOf(k: K, p: Pid): seq<Frame> {
    if p in k.procs then Notes(k.procs[p].frames) else []
  }

  lemma NotesPush(fs: seq<Frame>, f: Frame)
    ensures Notes(fs + [f]) == Notes(fs) + (if IsBracket(f) == 0 then [f] else [])
  {
    assert (fs + [f])[..|fs + [f]| - 1] == fs;
  }

  predicate SameNote(k: K, t: K, p: Pid) {
    && (p in k.procs <==> p in t.procs) && NotesOf(t, p) == NotesOf(k, p)
    && (p in k.procs ==> t.procs[p].exitCode == k.procs[p].exitCode)
  }

  /** Nobody begins or ends a wait or an exit between k and t. */
  ghost predicate SameNotes(k: K, t: K) {
    forall p {:trigger SameNote(k, t, p)} :: SameNote(k, t, p)
  }

  lemma NotesTransitive(k: K, m: K, t: K)
    requires SameNotes(k, m) && SameNotes(m, t)
    ensures SameNotes(k, t)
  {
    forall p {:trigger SameNote(k, t, p)} ensures SameNote(k, t, p) { assert SameNote(k, m, p) && SameNote(m, t, p); }
  }

  /** Only p's record changes, and not in its notes. */
  lemma OneProc(k: K, t: K, p: Pid)
    requires p in k.procs && p in t.procs && t.procs == k.procs[p := t.procs[p]]
    requires Notes(t.procs[p].frames) == Notes(k.procs[p].frames) && t.procs[p].exitCode == k.procs[p].exitCode
    ensures SameNotes(k, t)
  {
  }

  lemma SameProcs(k: K, t: K)
    requires t.procs == k.procs
    ensures SameNotes(k, t)
  {
  }

  lemma {:induction false} UnwindPrefix(k: K)
    requires k.current.Some? && k.current.value in k.procs
    ensures Notes(Unwind(k).procs[k.current.value].frames) == Notes(k.procs[k.current.value].frames)
    ensures Unwind(k).procs[k.current.value].exitCode == k.procs[k.current.value].exitCode
    decreases |k.procs[k.current.value].frames|
  {
    if Top(k).Some? && Auto(Top(k).value) {
      ClosePrefix(k);
      UnwindPrefix(Close(k));
    }
  }

  lemma ClosePrefix(k: K)
    requires k.current.Some? && k.current.value in k.procs && Top(k).Some?
    ensures Close(k).procs[k.current.value].frames == k.procs[k.current.value].frames[..|k.procs[k.current.value].frames| - 1]
    ensures Close(k).procs[k.current.value].exitCode == k.procs[k.current.value].exitCode
  {
  }

  lemma UnwindNotes(k: K)
    requires Inv(k) && Settled(k) && k.current.Some? && k.irqOn == (k.procs[k.current.value].disableCount == 0)
    ensures SameNotes(k, Unwind(k))
  {
    UnwindInv(k);
    UnwindPrefix(k);
    OneProc(k, Unwind(k), k.current.value);
  }

  lemma PickNotes(v: K)
    requires Vacant(v)
    ensures SameNotes(v, Pick(v))
  {
    PickChosen(v);
    RunFlag(v);
    var r := Reap(Chosen(v));
    OneProc(v, r, Next(v));
    UnwindNotes(r);
    NotesTransitive(v, r, Unwind(r));
  }

  lemma OpenNotes(k: K, f: Frame)
    requires Inv(k) && k.current.Some? && IsBracket(f) == 1
    ensures SameNotes(k, Open(k, f))
  {
    NotesPush(k.procs[k.current.value].frames, f);
    OneProc(k, Open(k, f), k.current.value);
  }

  lemma YieldNotes(k: K, place: QueueId)
    requires MaySuspend(k, place)
    ensures SameNotes(k, YieldTo(k, place))
  {
    SuspendVacant(k, place);
    OpenNotes(k, InYield);
    var s := Suspend(k, place);
    OneProc(Open(k, InYield), s, k.current.value);
    NotesTransitive(k, Open(k, InYield), s);
    PickNotes(s);
    NotesTransitive(k, s, Pick(s));
  }

  lemma SpendNotes(open: K, less: K)
    requires Inv(less) && Settled(less) && less.current.Some? && less.irqOn == (less.procs[less.current.value].disableCount == 0)
    requires less.procs == open.procs
    ensures SameNotes(open, Unwind(less))
  {
    SameProcs(open, less);
    UnwindNotes(less);
    NotesTransitive(open, less, Unwind(less));
  }

  lemma DownNotes(k: K, s: Sid)
    requires Stable(k) && s in k.counts && k.current.value != k.idle
    ensures SameNotes(k, Down(k, s))
  {
    if k.counts[s] == 0 { DownBlockedNotes(k, s); } else { DownTakenNotes(k, s); }
  }

  lemma DownBlockedNotes(k: K, s: Sid)
    requires Stable(k) && s in k.counts && k.current.value != k.idle && k.counts[s] == 0
    ensures SameNotes(k, Down(k, s))
  {
    hide SameNotes, MaySuspend, YieldTo, Open;
    DownParts(k, s);
    OpenNotes(k, InDown);
    YieldNotes(Open(k, InDown), Waiters(s));
    NotesTransitive(k, Open(k, InDown), Down(k, s));
  }

  lemma DownTakenNotes(k: K, s: Sid)
    requires Stable(k) && s in k.counts && k.current.value != k.idle && k.counts[s] > 0
    ensures SameNotes(k, Down(k, s))
  {
    hide SameNotes, Unwind, Open;
    DownParts(k, s);
    OpenNotes(k, InDown);
    var open := Open(k, InDown);
    SpendNotes(open, open.(counts := k.counts[s := k.counts[s] - 1]));
    NotesTransitive(k, open, Down(k, s));
  }

  lemma CloseNotes(k: K)
    requires Inv(k) && k.current.Some? && Top(k).Some? && IsBracket(Top(k).value) == 1 && !k.irqOn
    ensures SameNotes(k, Close(k))
  {
    CloseInv(k);
    ClosePrefix(k);
    OneProc(k, Close(k), k.current.value);
  }

  lemma UpNotes(k: K, s: Sid)
    requires Stable(k) && s in k.counts
    ensures SameNotes(k, Up(k, s))
  {
    OpenInv(k, Held);
    var open := Open(k, Held);
    OpenNotes(k, Held);
    UpBodyInv(open, s);
    var body := UpBody(open, s);
    UpBodyNotes(open, s);
    CloseNotes(body);
    NotesTransitive(k, open, body);
    NotesTransitive(k, body, Close(body));
  }

  lemma UpBodyNotes(k: K, s: Sid)
    requires Inv(k) && Settled(k) && s in k.counts && k.current.Some?
    requires Waiters(s) in k.queues && (k.queues[Waiters(s)] != [] ==> k.queues[Waiters(s)][0] in k.procs)
    ensures SameNotes(k, UpBody(k, s))
  {
    var w := k.queues[Waiters(s)];
    OneProc(k, UpBody(k, s), if w == [] then k.current.value else w[0]);
  }

  lemma SleepNotes(k: K, t: nat)
    requires Stable(k) && k.current.value != k.idle
    ensures SameNotes(k, SleepUntil(k, t))
  {
    SleepParts(k, t);
    OpenInv(k, InSleep);
    OpenNotes(k, InSleep);
    var open := Open(k, InSleep);
    if t > k.jiffies {
      YieldNotes(AddTimer(open, t), Sleepers(t));
      OneProc(open, AddTimer(open, t), k.current.value);
      NotesTransitive(open, AddTimer(open, t), SleepUntil(k, t));
    } else {
      UnwindNotes(open);
    }
    NotesTransitive(k, open, SleepUntil(k, t));
  }

  lemma {:induction false} WakeAllNotes(k: K, t: nat)
    requires Inv(k) && Settled(k) && Sleepers(t) in k.queues
    ensures SameNotes(k, WakeAll(k, t))
    decreases |k.queues[Sleepers(t)]|
  {
    var w := k.queues[Sleepers(t)];
    if w != [] {
      WakeHead(k, t);
      var next := Wake(Dequeue(k, Sleepers(t)), w[0]);
      OneProc(k, next, w[0]);
      WakeAllNotes(next, t);
      NotesTransitive(k, next, WakeAll(next, t));
    }
  }

  lemma TickNotes(k: K)
    requires Inv(k) && Settled(k) && k.current.Some?
    ensures SameNotes(k, TickBody(k))
  {
    if Due(k) {
      assert k.timers[0] in k.timers && Sleepers(k.timers[0]) in k.queues;
      WakeAllNotes(k, k.timers[0]);
      var awake := WakeAll(k, k.timers[0]);
      SameProcs(awake, TickBody(k));
      NotesTransitive(k, awake, TickBody(k));
    } else {
      SameProcs(k, TickBody(k));
    }
  }

  lemma IrqNotes(k: K, tick: bool)
    requires Stable(k) && k.irqOn
    ensures SameNotes(k, Irq(k, tick))
  {
    EnterIrqInv(k);
    var inside := EnterIrq(k);
    NotesPush(k.procs[k.current.value].frames, InIrq);
    OneProc(k, inside, k.current.value);
    TickBodyInv(inside);
    TickNotes(inside);
    SameProcs(inside, inside);
    var mid := if tick then TickBody(inside) else inside;
    YieldNotes(mid, Ready);
    NotesTransitive(inside, mid, YieldTo(mid, Ready));
    NotesTransitive(k, inside, Irq(k, tick));
  }

  lemma DieNotes(k: K)
    requires Stable(k) && k.current.value != k.idle
    ensures SameNotes(k, Die(k))
  {
    DieVacant(k);
    OpenNotes(k, Held);
    var open := Open(k, Held);
    var gone := Leave(open, Reaper);
    OneProc(open, gone, k.current.value);
    NotesTransitive(k, open, gone);
    PickNotes(gone);
    NotesTransitive(k, gone, Pick(gone));
  }

  // ---------------------------------------------------------------- steps

  /** The calls that neither begin nor end a wait or an exit. */
  predicate Quiet(op: Op) {
    op.YieldOp? || op.DownOp? || op.UpOp? || op.SleepOp? || op.IrqOp? || op.DieOp? || op.HoldOp? || op.ReleaseOp? || op.NewSemOp?
  }

  lemma QuietNotes(k: K, op: Op)
    requires Stable(k) && Legal(k, op) && Quiet(op)
    ensures SameNotes(k, Step(k, op))
  {
    hide SameNotes, Down, Up, SleepUntil, Irq, Die, Yield, Unwind, Close;
    match op {
      case YieldOp => YieldIsNotes(k);
      case DownOp(s) => DownNotes(k, s);
      case UpOp(s) => UpNotes(k, s);
      case SleepOp(t) => SleepNotes(k, t);
      case IrqOp(tick) => IrqNotes(k, tick);
      case DieOp => DieNotes(k);
      case HoldOp => OpenNotes(k, Held);
      case ReleaseOp => ReleaseNotes(k);
      case NewSemOp(s, n) => SameProcs(k, NewSem(k, s, n));
    }
  }

  lemma YieldIsNotes(k: K)
    requires Stable(k)
    ensures SameNotes(k, Yield(k))
  {
    YieldNotes(k, Ready);
  }

  lemma ReleaseNotes(k: K)
    requires Stable(k) && Top(k) == Some(Held)
    ensures Inv(Close(k)) && SameNotes(k, Unwind(Close(k)))
  {
    CloseShape(k);
    ReleaseStable(k);
    assert ProcOk(k, k.current.value);
    TopFrame(k.procs[k.current.value].frames);
    CloseInv(k);
    CloseNotes(k);
    UnwindNotes(Close(k));
    NotesTransitive(k, Close(k), Unwind(Close(k)));
  }

  /** Only p's notes change. */
  ghost predicate NotesBut(k: K, t: K, p: Pid) {
    forall x {:trigger SameNote(k, t, x)} :: x != p ==> SameNote(k, t, x)
  }

  lemma ButThenSame(k: K, m: K, t: K, p: Pid)
    requires NotesBut(k, m, p) && SameNotes(m, t)
    ensures NotesBut(k, t, p)
  {
    forall x {:trigger SameNote(k, t, x)} | x != p ensures SameNote(k, t, x) { assert SameNote(k, m, x) && SameNote(m, t, x); }
  }

  lemma PushNotes(k: K, f: Frame)
    requires k.current.Some? && k.current.value in k.procs && IsBracket(f) == 0
    ensures NotesBut(k, Push(k, f), k.current.value) && NotesOf(Push(k, f), k.current.value) == NotesOf(k, k.current.value) + [f]
    ensures Push(k, f).procs[k.current.value].exitCode == k.procs[k.current.value].exitCode
  {
    NotesPush(k.procs[k.current.value].frames, f);
  }

  lemma PopNotes(k: K)
    requires k.current.Some? && k.current.value in k.procs && Top(k).Some? && IsBracket(Top(k).value) == 0
    ensures NotesBut(k, Pop(k), k.current.value) && NotesOf(k, k.current.value) == NotesOf(Pop(k), k.current.value) + [Top(k).value]
    ensures Pop(k).procs[k.current.value].exitCode == k.procs[k.current.value].exitCode
  {
  }

  /** The running process's innermost note is taken off its stack. */
  lemma UnnoteNotes(k: K)
    requires Stable(k) && Top(k).Some? && IsBracket(Top(k).value) == 0
    ensures var t, p := Unwind(Pop(k)), k.current.value;
      NotesBut(k, t, p) && NotesOf(k, p) == NotesOf(t, p) + [Top(k).value] && p in t.procs && t.procs[p].exitCode == k.procs[p].exitCode
  {
    UnnoteStable(k);
    PopNotes(k);
    UnwindNotes(Pop(k));
    ButThenSame(k, Pop(k), Unwind(Pop(k)), k.current.value);
    assert SameNote(Pop(k), Unwind(Pop(k)), k.current.value);
  }

  /** Event::wait begins. */
  lemma WaitNotes(k: K, q: Pid)
    requires Stable(k) && Legal(k, WaitOp(q))
    ensures var t, p := Step(k, WaitOp(q)), k.current.value;
      NotesBut(k, t, p) && NotesOf(t, p) == NotesOf(k, p) + [Waiting(q)] && p in t.procs && t.procs[p].exitCode == k.procs[p].exitCode
  {
    hide NotesBut, SameNotes, Down;
    NoteStable(k, Waiting(q));
    var u := Push(k, Waiting(q));
    PushNotes(k, Waiting(q));
    DownNotes(u, Done(q));
    ButThenSame(k, u, Down(u, Done(q)), k.current.value);
    SameAt(u, Down(u, Done(q)), k.current.value);
  }

  lemma SameAt(k: K, t: K, p: Pid)
    requires SameNotes(k, t)
    ensures SameNote(k, t, p)
  {
  }

  /** Event::wait ends. */
  lemma WaitEndNotes(k: K, q: Pid)
    requires Stable(k) && Legal(k, WaitEndOp(q))
    ensures var t, p := Step(k, WaitEndOp(q)), k.current.value;
      NotesBut(k, t, p) && NotesOf(k, p) == NotesOf(t, p) + [Waiting(q)] && p in t.procs && t.procs[p].exitCode == k.procs[p].exitCode
  {
    hide NotesBut, SameNotes, Up, Unwind, Pop;
    UnnoteStable(k);
    UnnoteNotes(k);
    var u := Unwind(Pop(k));
    UpNotes(u, Done(q));
    ButThenSame(k, u, Up(u, Done(q)), k.current.value);
    SameAt(u, Up(u, Done(q)), k.current.value);
  }

  lemma SetExitNotes(k: K, code: int)
    requires k.current.Some? && k.current.value in k.procs
    ensures var t, p := SetExit(k, code), k.current.value;
      && t.current == k.current && p in t.procs && NotesBut(k, t, p) && NotesOf(t, p) == NotesOf(k, p) && t.procs[p].exitCode == Some(code)
  {
  }

  /** exit begins. */
  lemma ExitNotes(k: K, code: int)
    requires Stable(k) && Legal(k, ExitOp(code))
    ensures var t, p := Step(k, ExitOp(code)), k.current.value;
      NotesBut(k, t, p) && NotesOf(t, p) == NotesOf(k, p) + [Exiting] && p in t.procs && t.procs[p].exitCode == Some(code)
  {
    hide Stable, Inv, NotesBut, Notes;
    StableCurrent(k);
    SetExitNotes(k, code);
    PushNotes(SetExit(k, code), Exiting);
    ButTwice(k, SetExit(k, code), Push(SetExit(k, code), Exiting), k.current.value);
  }

  /** doneEvent.signal() in exit. */
  lemma SignalNotes(k: K)
    requires Stable(k) && Legal(k, SignalOp)
    ensures var t, p := Step(k, SignalOp), k.current.value;
      && NotesBut(k, t, p) && p in t.procs && t.procs[p].exitCode == k.procs[p].exitCode
      && NotesOf(k, p) != [] && NotesOf(k, p) == NotesOf(k, p)[..|NotesOf(k, p)| - 1] + [Exiting]
      && NotesOf(t, p) == NotesOf(k, p)[..|NotesOf(k, p)| - 1] + [Signalled]
  {
    hide NotesBut, SameNotes, Up, Unwind, Pop;
    UnnoteStable(k);
    SignalShape(k);
    UnnoteNotes(k);
    var p, a := k.current.value, Unwind(Pop(k));
    var u := Push(a, Signalled);
    PushNotes(a, Signalled);
    UpNotes(u, Done(p));
    ButTwice(k, a, u, p);
    ButThenSame(k, u, Up(u, Done(p)), p);
    SameAt(u, Up(u, Done(p)), p);
    assert NotesOf(k, p)[..|NotesOf(k, p)| - 1] == NotesOf(a, p);
  }

  lemma ButTwice(k: K, m: K, t: K, p: Pid)
    requires NotesBut(k, m, p) && NotesBut(m, t, p)
    ensures NotesBut(k, t, p)
  {
    forall x {:trigger SameNote(k, t, x)} | x != p ensures SameNote(k, t, x) { assert SameNote(k, m, x) && SameNote(m, t, x); }
  }

  /** A new process has none. */
  lemma StartNotes(k: K, p: Pid)
    requires Stable(k) && Legal(k, StartOp(p))
    ensures var t := Step(k, StartOp(p)); NotesBut(k, t, p) && NotesOf(t, p) == [] && p in t.procs && t.procs[p].exitCode == None
  {
  }
}
