/** The bounded buffer under any interleaving of any number of producers and consumers. A step is
    what one thread does between two moments at which it can be interrupted; the semaphore
    operations are single steps because they run with interrupts off. */
module BufferModel {

  type Tid = nat

  /** Where a thread is. B marks the states blocked in a down; numbers follow the statements of
      put and get. */
  datatype Pc =
    | Outside
    | P0 | P0B | P1 | P1B | P2 | P3 | P4 | P5 | P6
    | G0 | G0B | G1 | G1B | G2 | G3 | G4 | G5 | G6

  datatype Thread<T> = Thread(pc: Pc, v: T)

  datatype Sem = Sem(count: nat, waiting: seq<Tid>)

  /** `puts` and `gots` record the values stored and fetched, in the order of the critical
      sections. */
  datatype Buf<T> = Buf(
    arr: seq<T>, head: nat, tail: nat,
    nFull: Sem, nEmpty: Sem, mutex: Sem,
    threads: seq<Thread<T>>,
    puts: seq<T>, gots: seq<T>)

  // ---------------------------------------------------------------- steps

  function SetPc<T>(b: Buf<T>, i: Tid, pc: Pc): Buf<T>
    requires i < |b.threads|
  {
    b.(threads := b.threads[i := b.threads[i].(pc := pc)])
  }

  /** Semaphore::down by thread i. */
  function Down(s: Sem, i: Tid): Sem {
    if s.count == 0 then Sem(0, s.waiting + [i]) else Sem(s.count - 1, s.waiting)
  }

  /** Semaphore::up: the token goes to the first waiter, if any. */
  function Up(s: Sem): Sem {
    if s.waiting == [] then Sem(s.count + 1, []) else Sem(s.count, s.waiting[1..])
  }

  /** The state a blocked thread wakes in. */
  function Granted(pc: Pc): Pc {
    match pc
    case P0B => P1
    case P1B => P2
    case G0B => G1
    case G1B => G2
    case _ => pc
  }

  function Wake<T>(b: Buf<T>, s: Sem): Buf<T>
    requires s.waiting != [] ==> s.waiting[0] < |b.threads|
  {
    if s.waiting == [] then b else SetPc(b, s.waiting[0], Granted(b.threads[s.waiting[0]].pc))
  }

  predicate Exist(waiting: seq<Tid>, n: nat) {
    forall k {:trigger waiting[k]} :: 0 <= k < |waiting| ==> waiting[k] < n
  }

  predicate WaitersExist<T>(b: Buf<T>) {
    Exist(b.nEmpty.waiting, |b.threads|) && Exist(b.nFull.waiting, |b.threads|) && Exist(b.mutex.waiting, |b.threads|)
  }

  /** Thread i begins a put of v or a get. */
  function Begin<T>(b: Buf<T>, i: Tid, put: bool, v: T): Buf<T>
    requires i < |b.threads| && b.threads[i].pc == Outside
  {
    b.(threads := b.threads[i := Thread(if put then P0 else G0, v)])
  }

  predicate CanStep<T>(b: Buf<T>, i: Tid) {
    && i < |b.threads| && WaitersExist(b)
    && match b.threads[i].pc
       case Outside => false
       case P0B => false
       case P1B => false
       case G0B => false
       case G1B => false
       case P2 => b.tail < |b.arr|
       case G2 => b.head < |b.arr|
       case _ => true
  }

  /** The next step of thread i. */
  function Step<T>(b: Buf<T>, i: Tid): Buf<T>
    requires CanStep(b, i)
  {
    var n := |b.arr|;
    match b.threads[i].pc
    // put
    case P0 => SetPc(b, i, if b.nEmpty.count == 0 then P0B else P1).(nEmpty := Down(b.nEmpty, i))
    case P1 => SetPc(b, i, if b.mutex.count == 0 then P1B else P2).(mutex := Down(b.mutex, i))
    case P2 => SetPc(b, i, P3).(arr := b.arr[b.tail := b.threads[i].v], puts := b.puts + [b.threads[i].v])
    case P3 => SetPc(b, i, P4).(tail := b.tail + 1)
    case P4 => SetPc(b, i, P5).(tail := if b.tail == n then 0 else b.tail)
    case P5 => Wake(SetPc(b, i, P6), b.mutex).(mutex := Up(b.mutex))
    case P6 => Wake(SetPc(b, i, Outside), b.nFull).(nFull := Up(b.nFull))
    // get
    case G0 => SetPc(b, i, if b.nFull.count == 0 then G0B else G1).(nFull := Down(b.nFull, i))
    case G1 => SetPc(b, i, if b.mutex.count == 0 then G1B else G2).(mutex := Down(b.mutex, i))
    case G2 => b.(threads := b.threads[i := Thread(G3, b.arr[b.head])], gots := b.gots + [b.arr[b.head]])
    case G3 => SetPc(b, i, G4).(head := b.head + 1)
    case G4 => SetPc(b, i, G5).(head := if b.head == n then 0 else b.head)
    case G5 => Wake(SetPc(b, i, G6), b.mutex).(mutex := Up(b.mutex))
    case G6 => Wake(SetPc(b, i, Outside), b.nEmpty).(nEmpty := Up(b.nEmpty))
    case _ => b
  }

  // ---------------------------------------------------------------- tokens

  predicate InCritical(pc: Pc) {
    pc.P2? || pc.P3? || pc.P4? || pc.P5? || pc.G2? || pc.G3? || pc.G4? || pc.G5?
  }

  /** Threads that hold an empty slot: putters before the store, getters after the fetch. */
  function HoldsEmpty(pc: Pc): nat {
    match pc
    case P1 => 1 case P1B => 1 case P2 => 1
    case G3 => 1 case G4 => 1 case G5 => 1 case G6 => 1
    case _ => 0
  }

  /** Threads that hold a full slot: getters before the fetch, putters after the store. */
  function HoldsFull(pc: Pc): nat {
    match pc
    case G1 => 1 case G1B => 1 case G2 => 1
    case P3 => 1 case P4 => 1 case P5 => 1 case P6 => 1
    case _ => 0
  }

  function Empties<T>(ts: seq<Thread<T>>): nat {
    if ts == [] then 0 else Empties(ts[..|ts| - 1]) + HoldsEmpty(ts[|ts| - 1].pc)
  }

  function Fulls<T>(ts: seq<Thread<T>>): nat {
    if ts == [] then 0 else Fulls(ts[..|ts| - 1]) + HoldsFull(ts[|ts| - 1].pc)
  }

  lemma {:induction false} TokensChange<T>(ts: seq<Thread<T>>, i: Tid, t: Thread<T>)
    requires i < |ts|
    ensures Empties(ts[i := t]) == Empties(ts) - HoldsEmpty(ts[i].pc) + HoldsEmpty(t.pc)
    ensures Fulls(ts[i := t]) == Fulls(ts) - HoldsFull(ts[i].pc) + HoldsFull(t.pc)
    ensures HoldsEmpty(ts[i].pc) <= Empties(ts) && HoldsFull(ts[i].pc) <= Fulls(ts)
  {
    var m := |ts| - 1;
    var us := ts[i := t];
    if i < m {
      TokensChange(ts[..m], i, t);
      assert us[..m] == ts[..m][i := t];
    } else {
      assert us[..m] == ts[..m];
    }
  }
}
