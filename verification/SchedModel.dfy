/** The process subsystem between two moments at which interrupts can arrive. */
module SchedModel {

  datatype Option<T> = None | Some(value: T)

  type Pid = nat

  datatype State = READY | RUNNING | BLOCKED | TERMINATED

  /** A semaphore that processes use by number, or the one inside a process's doneEvent. */
  datatype Sid = User(n: nat) | Done(pid: Pid)

  /** The FIFO queues: the ready queue, the reaper queue, one for each semaphore, one for each timer. */
  datatype QueueId = Ready | Reaper | Waiters(s: Sid) | Sleepers(target: nat)

  /** What is open on a process's kernel stack. The first five hold interrupts off, Held being
      an explicit disable(). Waiting(q) is Event::wait between its down and its up, Exiting is
      exit before the signal, Signalled is exit after it. */
  datatype Frame = InYield | InDown | InSleep | InIrq | Held | Waiting(q: Pid) | Exiting | Signalled

  datatype Proc = Proc(state: State, disableCount: nat, iDepth: nat, frames: seq<Frame>, exitCode: Option<int>)

  /** Where a process is. Idling is the idle process while it is not running. */
  datatype Place = Nowhere | Cpu | Idling | In(q: QueueId) | Gone

  /** The kernel's global state. `place` is bookkeeping of the model. */
  datatype K = K(
    current: Option<Pid>,
    procs: map<Pid, Proc>,
    queues: map<QueueId, seq<Pid>>,
    counts: map<Sid, nat>,
    timers: seq<nat>,
    jiffies: nat,
    irqOn: bool,
    idle: Pid,
    panics: set<int>,
    place: map<Pid, Place>)

  // ---------------------------------------------------------------- invariant

  function IsBracket(f: Frame): nat {
    if f.Waiting? || f.Exiting? || f.Signalled? then 0 else 1
  }

  /** Closed by the process itself as soon as it runs again. */
  predicate Auto(f: Frame) {
    f.InYield? || f.InDown? || f.InSleep? || f.InIrq?
  }

  /** Open calls that hold interrupts off. */
  function Brackets(fs: seq<Frame>): nat {
    if fs == [] then 0 else Brackets(fs[..|fs| - 1]) + IsBracket(fs[|fs| - 1])
  }

  function Irqs(fs: seq<Frame>): nat {
    if fs == [] then 0 else Irqs(fs[..|fs| - 1]) + (if fs[|fs| - 1] == InIrq then 1 else 0)
  }

  ghost predicate Distinct(s: seq<Pid>) {
    forall i, j {:trigger s[i], s[j]} :: 0 <= i < j < |s| ==> s[i] != s[j]
  }

  /** A queue holds exactly the processes that are placed in it, once each. */
  ghost predicate QueueOk(k: K, q: QueueId)
    requires q in k.queues
  {
    Distinct(k.queues[q]) && forall p {:trigger p in k.queues[q]} :: p in k.queues[q] <==> p in k.place && k.place[p] == In(q)
  }

  function StateAt(pl: Place): State {
    match pl
    case Cpu => RUNNING
    case Idling => READY
    case In(Ready) => READY
    case In(Reaper) => TERMINATED
    case Gone => TERMINATED
    case _ => BLOCKED
  }

  ghost predicate EndsWith(fs: seq<Frame>, a: Frame, b: Frame) {
    |fs| >= 2 && fs[|fs| - 2] == a && fs[|fs| - 1] == b
  }

  /** What a process that is not running will do first when it is dispatched. */
  ghost predicate FramesFit(fs: seq<Frame>, pl: Place) {
    match pl
    case In(Ready) => fs == [] || fs[|fs| - 1] == InYield
    case Idling => fs == [] || fs[|fs| - 1] == InYield
    case In(Waiters(_)) => EndsWith(fs, InDown, InYield)
    case In(Sleepers(_)) => EndsWith(fs, InSleep, InYield)
    case Nowhere => fs == [] || fs[|fs| - 1] == InYield
    case _ => true
  }

  /** An interrupt finds no bracket open, and does nothing but yield. */
  ghost predicate Nested(fs: seq<Frame>) {
    forall i {:trigger fs[i]} :: 0 <= i < |fs| && fs[i] == InIrq ==>
      Brackets(fs[..i]) == 0 && (i == |fs| - 1 || (i == |fs| - 2 && fs[|fs| - 1] == InYield))
  }

  ghost predicate ProcOk(k: K, p: Pid)
    requires p in k.procs
  {
    var pr := k.procs[p];
    && p in k.place && Done(p) in k.counts
    && (match k.place[p]
        case In(q) => q in k.queues
        case Cpu => k.current == Some(p)
        case Idling => p == k.idle
        case _ => true)
    && (k.place[p] != Nowhere ==> pr.state == StateAt(k.place[p]))
    && FramesFit(pr.frames, k.place[p]) && Nested(pr.frames)
    && pr.disableCount == Brackets(pr.frames) && pr.iDepth == Irqs(pr.frames)
  }

  ghost predicate SemOk(k: K, s: Sid)
    requires s in k.counts
  {
    Waiters(s) in k.queues && (k.counts[s] > 0 ==> k.queues[Waiters(s)] == [])
  }

  /** The timers' targets increase strictly and lie in the future. */
  ghost predicate TimersOk(k: K) {
    && (forall i, j {:trigger k.timers[i], k.timers[j]} :: 0 <= i < j < |k.timers| ==> k.timers[i] < k.timers[j])
    && (forall i {:trigger k.timers[i]} :: 0 <= i < |k.timers| ==> k.jiffies < k.timers[i])
    && (forall t {:trigger Sleepers(t)} :: Sleepers(t) in k.queues <==> t in k.timers)
  }

  /** Holds whenever interrupts are off or on, as long as no queue operation is under way. */
  ghost predicate Inv(k: K) {
    && Ready in k.queues && Reaper in k.queues
    && k.place.Keys == k.procs.Keys
    && (forall p {:trigger ProcOk(k, p)} :: p in k.procs ==> ProcOk(k, p))
    && (forall q {:trigger QueueOk(k, q)} :: q in k.queues ==> QueueOk(k, q))
    && (forall s {:trigger SemOk(k, s)} :: s in k.counts ==> SemOk(k, s))
    && (forall s {:trigger Waiters(s)} :: Waiters(s) in k.queues ==> s in k.counts)
    && TimersOk(k)
    && (k.current.Some? ==> k.current.value in k.procs && k.place[k.current.value] == Cpu)
    && k.idle in k.procs && (k.place[k.idle] == Cpu || k.place[k.idle] == Idling)
    && k.panics == {}
  }

  ghost predicate Settled(k: K) {
    forall p {:trigger k.place[p]} :: p in k.place ==> k.place[p] != Nowhere
  }

  /** A moment at which an interrupt could arrive or a process makes its next call: interrupts
      are on exactly if the running process has no bracket open. */
  ghost predicate Stable(k: K) {
    && Inv(k) && Settled(k) && k.current.Some?
    && k.irqOn == (k.procs[k.current.value].disableCount == 0)
    && (var fs := k.procs[k.current.value].frames; fs == [] || !Auto(fs[|fs| - 1]))
  }

  /** Between the moment a process has left the CPU and the next dispatch. */
  ghost predicate Vacant(k: K) {
    Inv(k) && Settled(k) && k.current == None && !k.irqOn
  }

  /** Inside a kernel call of the running process: the top frame is f and interrupts are off. */
  ghost predicate Inside(k: K, f: Frame) {
    && Inv(k) && k.current.Some? && !k.irqOn
    && (var fs := k.procs[k.current.value].frames; fs != [] && fs[|fs| - 1] == f)
  }
}
