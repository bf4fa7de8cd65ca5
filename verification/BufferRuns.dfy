/** Every step of every thread keeps the invariant, and what that means over whole runs. */
module BufferRuns {
  import opened BufferModel
  import opened BufferSafety

  // ---------------------------------------------------------------- going round the array

  /** Quotient and remainder are unique. */
  lemma Remainder(x: nat, n: nat, q: nat, r: nat)
    requires r < n && x == q * n + r
    ensures x / n == q && x % n == r
  {
    var q', r' := x / n, x % n;
    assert x == q' * n + r';
    if q' < q {
      AtLeast(q - q', n);
      Spread(q, q', n);
    } else if q < q' {
      AtLeast(q' - q, n);
      Spread(q', q, n);
    }
  }

  lemma AtLeast(a: nat, n: nat)
    requires a >= 1
    ensures a * n >= n
  {
    assert a * n == (a - 1) * n + n;
  }

  lemma Spread(a: nat, b: nat, n: nat)
    ensures (a - b) * n == a * n - b * n
  {
  }

  lemma NextSlot(x: nat, n: nat)
    requires n > 0
    ensures (x + 1) % n == if x % n + 1 == n then 0 else x % n + 1
  {
    var q, r := x / n, x % n;
    assert x == q * n + r;
    if r + 1 == n {
      assert (q + 1) * n == q * n + n;
      Remainder(x + 1, n, q + 1, 0);
    } else {
      Remainder(x + 1, n, q, r + 1);
    }
  }

  /** Two positions less than a lap apart are different slots. */
  lemma DifferentSlots(x: nat, y: nat, n: nat)
    requires n > 0 && x < y < x + n
    ensures x % n != y % n
  {
    var q, r := x / n, x % n;
    assert x == q * n + r;
    if r + (y - x) < n {
      Remainder(y, n, q, r + (y - x));
    } else {
      assert (q + 1) * n == q * n + n;
      Remainder(y, n, q + 1, r + (y - x) - n);
    }
  }

  // ---------------------------------------------------------------- the thread in the critical section

  lemma Alone<T>(b: Buf<T>, after: Buf<T>, i: Tid, t: Thread<T>)
    requires Mutual(b) && Critical(b, i) && after.threads == b.threads[i := t]
    ensures forall j {:trigger At(after, j, P3)} :: j != i ==> !At(after, j, P3)
    ensures forall j {:trigger At(after, j, P4)} :: j != i ==> !At(after, j, P4)
    ensures forall j {:trigger At(after, j, G3)} :: j != i ==> !At(after, j, G3)
    ensures forall j {:trigger At(after, j, G4)} :: j != i ==> !At(after, j, G4)
  {
    forall j {:trigger At(after, j, P3)} | j != i ensures !At(after, j, P3) { OnlyOne(b, i, j); }
    forall j {:trigger At(after, j, P4)} | j != i ensures !At(after, j, P4) { OnlyOne(b, i, j); }
    forall j {:trigger At(after, j, G3)} | j != i ensures !At(after, j, G3) { OnlyOne(b, i, j); }
    forall j {:trigger At(after, j, G4)} | j != i ensures !At(after, j, G4) { OnlyOne(b, i, j); }
  }

  /** Where tail is, seen from the thread in the critical section. */
  lemma TailNow<T>(b: Buf<T>, i: Tid)
    requires |b.arr| > 0 && Mutual(b) && Critical(b, i) && TailOk(b)
    ensures b.threads[i].pc == P3 ==> |b.puts| > 0 && b.tail == (|b.puts| - 1) % |b.arr|
    ensures b.threads[i].pc == P4 ==> |b.puts| > 0 && b.tail == (|b.puts| - 1) % |b.arr| + 1
    ensures !b.threads[i].pc.P3? && !b.threads[i].pc.P4? ==> b.tail == |b.puts| % |b.arr|
  {
    Alone(b, b, i, b.threads[i]);
    assert At(b, i, P3) || At(b, i, P4) || (!At(b, i, P3) && !At(b, i, P4));
  }

  lemma HeadNow<T>(b: Buf<T>, i: Tid)
    requires |b.arr| > 0 && Mutual(b) && Critical(b, i) && HeadOk(b)
    ensures b.threads[i].pc == G3 ==> |b.gots| > 0 && b.head == (|b.gots| - 1) % |b.arr|
    ensures b.threads[i].pc == G4 ==> |b.gots| > 0 && b.head == (|b.gots| - 1) % |b.arr| + 1
    ensures !b.threads[i].pc.G3? && !b.threads[i].pc.G4? ==> b.head == |b.gots| % |b.arr|
  {
    Alone(b, b, i, b.threads[i]);
    assert At(b, i, G3) || At(b, i, G4) || (!At(b, i, G3) && !At(b, i, G4));
  }

  /** Room for a store, and something for a fetch. */
  lemma Occupancy<T>(b: Buf<T>, i: Tid)
    requires Tokens(b) && i < |b.threads|
    ensures HoldsEmpty(b.threads[i].pc) == 1 ==> |b.puts| - |b.gots| < |b.arr|
    ensures HoldsFull(b.threads[i].pc) == 1 ==> |b.gots| < |b.puts|
  {
    TokensChange(b.threads, i, b.threads[i]);
  }

  // ---------------------------------------------------------------- the six steps on the ring

  lemma Store<T>(b: Buf<T>, i: Tid)
    requires Inv(b) && CanStep(b, i) && b.threads[i].pc == P2
    ensures Inv(Step(b, i))
  {
    var after, t := Step(b, i), Step(b, i).threads[i];
    var n, p := |b.arr|, |b.puts|;
    Occupancy(b, i);
    TailNow(b, i);
    MovedQueues(b, after, i, t);
    MovedMutual(b, after, i, t);
    TokensChange(b.threads, i, t);
    Alone(b, after, i, t);
    assert At(after, i, P3) && !At(after, i, P4);
    HeadKept(b, after, i, t);
    assert forall k {:trigger Holds(after, k)} :: |b.gots| <= k < p + 1 ==> Holds(after, k) by {
      forall k {:trigger Holds(after, k)} | |b.gots| <= k < p + 1
        ensures Holds(after, k)
      {
        if k < p { assert Holds(b, k); DifferentSlots(k, p, n); }
      }
    }
  }

  lemma AdvanceTail<T>(b: Buf<T>, i: Tid)
    requires Inv(b) && CanStep(b, i) && b.threads[i].pc == P3
    ensures Inv(Step(b, i))
  {
    var after, t := Step(b, i), Step(b, i).threads[i];
    TailNow(b, i);
    MovedQueues(b, after, i, t);
    MovedMutual(b, after, i, t);
    TokensChange(b.threads, i, t);
    Alone(b, after, i, t);
    assert !At(after, i, P3) && At(after, i, P4);
    HeadKept(b, after, i, t);
    DataKept(b, after);
  }

  lemma WrapTail<T>(b: Buf<T>, i: Tid)
    requires Inv(b) && CanStep(b, i) && b.threads[i].pc == P4
    ensures Inv(Step(b, i))
  {
    var after, t := Step(b, i), Step(b, i).threads[i];
    TailNow(b, i);
    NextSlot(|b.puts| - 1, |b.arr|);
    MovedQueues(b, after, i, t);
    MovedMutual(b, after, i, t);
    TokensChange(b.threads, i, t);
    Alone(b, after, i, t);
    assert !At(after, i, P3) && !At(after, i, P4);
    HeadKept(b, after, i, t);
    DataKept(b, after);
  }

  lemma Fetch<T>(b: Buf<T>, i: Tid)
    requires Inv(b) && CanStep(b, i) && b.threads[i].pc == G2
    ensures Inv(Step(b, i))
  {
    var after, t := Step(b, i), Step(b, i).threads[i];
    var g := |b.gots|;
    Occupancy(b, i);
    HeadNow(b, i);
    MovedQueues(b, after, i, t);
    MovedMutual(b, after, i, t);
    TokensChange(b.threads, i, t);
    Alone(b, after, i, t);
    assert At(after, i, G3) && !At(after, i, G4);
    TailKept(b, after, i, t);
    assert Holds(b, g);
    assert b.puts[..g + 1] == b.puts[..g] + [b.puts[g]];
    assert b.gots == b.puts[..g];
    forall k {:trigger Holds(after, k)} | |after.gots| <= k < |after.puts|
      ensures Holds(after, k)
    {
      assert Holds(b, k);
    }
  }

  lemma AdvanceHead<T>(b: Buf<T>, i: Tid)
    requires Inv(b) && CanStep(b, i) && b.threads[i].pc == G3
    ensures Inv(Step(b, i))
  {
    var after, t := Step(b, i), Step(b, i).threads[i];
    HeadNow(b, i);
    MovedQueues(b, after, i, t);
    MovedMutual(b, after, i, t);
    TokensChange(b.threads, i, t);
    Alone(b, after, i, t);
    assert !At(after, i, G3) && At(after, i, G4);
    TailKept(b, after, i, t);
    DataKept(b, after);
  }

  lemma WrapHead<T>(b: Buf<T>, i: Tid)
    requires Inv(b) && CanStep(b, i) && b.threads[i].pc == G4
    ensures Inv(Step(b, i))
  {
    var after, t := Step(b, i), Step(b, i).threads[i];
    HeadNow(b, i);
    NextSlot(|b.gots| - 1, |b.arr|);
    MovedQueues(b, after, i, t);
    MovedMutual(b, after, i, t);
    TokensChange(b.threads, i, t);
    Alone(b, after, i, t);
    assert !At(after, i, G3) && !At(after, i, G4);
    TailKept(b, after, i, t);
    DataKept(b, after);
  }

  // ---------------------------------------------------------------- any step

  lemma BeginInv<T>(b: Buf<T>, i: Tid, put: bool, v: T)
    requires Inv(b) && i < |b.threads| && b.threads[i].pc == Outside
    ensures Inv(Begin(b, i, put, v))
  {
    var after, t := Begin(b, i, put, v), Begin(b, i, put, v).threads[i];
    MovedQueues(b, after, i, t);
    MovedMutual(b, after, i, t);
    TokensChange(b.threads, i, t);
    RingKept(b, after, i, t);
  }

  /** Whatever thread moves next, the invariant survives. */
  lemma StepInv<T>(b: Buf<T>, i: Tid)
    requires Inv(b) && CanStep(b, i)
    ensures Inv(Step(b, i))
  {
    match b.threads[i].pc
    case P0 => DownEmpty(b, i);
    case P1 => DownMutex(b, i);
    case P2 => Store(b, i);
    case P3 => AdvanceTail(b, i);
    case P4 => WrapTail(b, i);
    case P5 => Unlock(b, i);
    case P6 => GiveBack(b, i);
    case G0 => DownFull(b, i);
    case G1 => DownMutex(b, i);
    case G2 => Fetch(b, i);
    case G3 => AdvanceHead(b, i);
    case G4 => WrapHead(b, i);
    case G5 => Unlock(b, i);
    case G6 => GiveBack(b, i);
  }

  // ---------------------------------------------------------------- runs

  /** A thread not in put or get may begin either; any thread that is not blocked may go on. */
  datatype Event<T> = Start(i: Tid, put: bool, v: T) | Go(i: Tid)

  /** Blocked threads and threads outside cannot go on; nothing else stops a step. */
  predicate Enabled<T>(b: Buf<T>, e: Event<T>) {
    e.i < |b.threads| &&
    match e
    case Start(i, _, _) => b.threads[i].pc.Outside?
    case Go(i) => !b.threads[i].pc.Outside? && !OnEmpty(b.threads[i].pc) && !OnFull(b.threads[i].pc) && !OnMutex(b.threads[i].pc)
  }

  function Next<T>(b: Buf<T>, e: Event<T>): Buf<T>
    requires Enabled(b, e) && (e.Go? ==> CanStep(b, e.i))
  {
    match e
    case Start(i, put, v) => Begin(b, i, put, v)
    case Go(i) => Step(b, i)
  }

  /** The array indices put and get use are inside the array: an enabled step can always be taken. */
  lemma InBounds<T>(b: Buf<T>, i: Tid)
    requires Inv(b) && Enabled(b, Go(i))
    ensures CanStep(b, i)
  {
    if b.threads[i].pc.P2? { TailNow(b, i); }
    if b.threads[i].pc.G2? { HeadNow(b, i); }
  }

  lemma NextInv<T>(b: Buf<T>, e: Event<T>)
    requires Inv(b) && Enabled(b, e)
    ensures e.Go? ==> CanStep(b, e.i)
    ensures Inv(Next(b, e))
  {
    match e {
      case Start(i, put, v) => BeginInv(b, i, put, v);
      case Go(i) => InBounds(b, i); StepInv(b, i);
    }
  }

  /** The buffer after a run; events that are not enabled when their turn comes do nothing. */
  ghost function RunFrom<T>(b: Buf<T>, events: seq<Event<T>>): (after: Buf<T>)
    requires Inv(b)
    ensures Inv(after)
    decreases |events|
  {
    if events == [] then b
    else if Enabled(b, events[0]) then
      NextInv(b, events[0]);
      RunFrom(Next(b, events[0]), events[1..])
    else RunFrom(b, events[1..])
  }

  // ---------------------------------------------------------------- what it means

  /** A store never hits a slot that still holds a value nobody has fetched, and there is such a
      slot at most n times. */
  lemma NoOverwrite<T>(b: Buf<T>, i: Tid, k: nat)
    requires Inv(b) && At(b, i, P2) && |b.gots| <= k < |b.puts|
    ensures |b.puts| - |b.gots| < |b.arr|
    ensures b.tail < |b.arr| && k % |b.arr| != b.tail
  {
    Occupancy(b, i);
    TailNow(b, i);
    DifferentSlots(k, |b.puts|, |b.arr|);
  }

  /** A fetch finds a stored value, the oldest that has not been fetched. */
  lemma FetchesOldest<T>(b: Buf<T>, i: Tid)
    requires Inv(b) && At(b, i, G2)
    ensures |b.gots| < |b.puts| && b.head < |b.arr| && b.arr[b.head] == b.puts[|b.gots|]
  {
    Occupancy(b, i);
    HeadNow(b, i);
    assert Holds(b, |b.gots|);
  }

  /** With nobody inside put or get, the counts of the semaphores are the free and the full slots,
      and nobody is waiting. */
  lemma AtRest<T>(b: Buf<T>)
    requires Inv(b) && forall k {:trigger b.threads[k]} :: 0 <= k < |b.threads| ==> b.threads[k].pc == Outside
    ensures b.nFull.count == |b.puts| - |b.gots| && b.nEmpty.count == |b.arr| - b.nFull.count
    ensures b.nEmpty.waiting == [] && b.nFull.waiting == [] && b.mutex.waiting == []
  {
    NoTokens(b.threads);
    assert b.nEmpty.waiting != [] ==> Queued(b, b.nEmpty.waiting[0]);
    assert b.nFull.waiting != [] ==> Queued(b, b.nFull.waiting[0]);
    assert b.mutex.waiting != [] ==> Queued(b, b.mutex.waiting[0]);
  }

  // ---------------------------------------------------------------- progress

  ghost predicate SomeCritical<T>(b: Buf<T>) {
    exists i {:trigger Critical(b, i)} :: Critical(b, i)
  }

  /** A mutex that is taken is held by a thread that is neither blocked nor gone. */
  ghost predicate Held<T>(b: Buf<T>) {
    b.mutex.count == 0 ==> SomeCritical(b)
  }

  lemma NextHeld<T>(b: Buf<T>, e: Event<T>)
    requires Inv(b) && Held(b) && Enabled(b, e) && (e.Go? ==> CanStep(b, e.i))
    ensures Held(Next(b, e))
  {
    var after := Next(b, e);
    var pc := b.threads[e.i].pc;
    if pc == P5 || pc == G5 {
      if b.mutex.waiting != [] {
        var w := b.mutex.waiting[0];
        assert Queued(b, w);
        assert Critical(after, w);
      }
    } else if (pc == P1 || pc == G1) && b.mutex.count == 1 {
      assert Critical(after, e.i);
    } else if b.mutex.count == 0 {
      var c :| Critical(b, c);
      StaysCritical(b, e, c);
    }
  }

  lemma StaysCritical<T>(b: Buf<T>, e: Event<T>, c: Tid)
    requires Inv(b) && Enabled(b, e) && (e.Go? ==> CanStep(b, e.i)) && Critical(b, c)
    requires !b.threads[e.i].pc.P5? && !b.threads[e.i].pc.G5?
    ensures Critical(Next(b, e), c)
  {
    if b.threads[e.i].pc.P6? && b.nFull.waiting != [] { assert Queued(b, b.nFull.waiting[0]); }
    if b.threads[e.i].pc.G6? && b.nEmpty.waiting != [] { assert Queued(b, b.nEmpty.waiting[0]); }
  }

  lemma {:induction false} RunHeld<T>(b: Buf<T>, events: seq<Event<T>>)
    requires Inv(b) && Held(b)
    ensures Held(RunFrom(b, events))
    decreases |events|
  {
    if events != [] {
      if Enabled(b, events[0]) {
        NextInv(b, events[0]);
        NextHeld(b, events[0]);
        RunHeld(Next(b, events[0]), events[1..]);
      } else {
        RunHeld(b, events[1..]);
      }
    }
  }

  /** Somebody holds each token that is not in a semaphore or a slot. */
  lemma {:induction false} Holder<T>(ts: seq<Thread<T>>) returns (i: Tid)
    requires Empties(ts) + Fulls(ts) > 0
    ensures i < |ts| && HoldsEmpty(ts[i].pc) + HoldsFull(ts[i].pc) > 0
  {
    i := |ts| - 1;
    if HoldsEmpty(ts[i].pc) + HoldsFull(ts[i].pc) == 0 {
      i := Holder(ts[..i]);
    }
  }

  /** While the mutex is taken or a token is in a thread's hand, some thread can go on. */
  lemma Runner<T>(b: Buf<T>) returns (i: Tid)
    requires Inv(b) && Held(b) && (b.mutex.count == 0 || Empties(b.threads) + Fulls(b.threads) > 0)
    ensures Enabled(b, Go(i))
  {
    if b.mutex.count == 0 {
      i :| Critical(b, i);
    } else {
      i := Holder(b.threads);
      assert Queued(b, i);
    }
  }

  /** No deadlock: if no thread can go on, none waits for the mutex, and not both a put and a get
      are blocked; so either all blocked threads wait for room in a full buffer, or all wait for a
      value in an empty one. */
  lemma NoDeadlock<T>(b: Buf<T>)
    requires Inv(b) && Held(b)
    requires forall i {:trigger Enabled(b, Go(i))} :: !Enabled(b, Go(i))
    ensures b.mutex == Sem(1, [])
    ensures b.nEmpty.waiting == [] || b.nFull.waiting == []
    ensures b.nEmpty.waiting != [] ==> |b.puts| - |b.gots| == |b.arr|
    ensures b.nFull.waiting != [] ==> |b.puts| == |b.gots|
  {
    if b.mutex.count == 0 || Empties(b.threads) + Fulls(b.threads) > 0 {
      var i := Runner(b);
    }
  }

  /** After any run from a new buffer: occupancy is between 0 and n, the values got are the values
      put, in order, at most one thread is in a critical section, and a taken mutex is held by a
      thread that can go on. */
  lemma Safe<T>(arr: seq<T>, threads: seq<Thread<T>>, events: seq<Event<T>>, i: Tid, j: Tid)
    requires |arr| > 0 && forall k {:trigger threads[k]} :: 0 <= k < |threads| ==> threads[k].pc == Outside
    ensures Inv(Initial(arr, threads))
    ensures var b := RunFrom(Initial(arr, threads), events);
      && 0 <= |b.puts| - |b.gots| <= |b.arr|
      && b.gots <= b.puts
      && (Critical(b, i) && Critical(b, j) ==> i == j)
      && Held(b)
  {
    InitialInv(arr, threads);
    RunHeld(Initial(arr, threads), events);
  }

  // ---------------------------------------------------------------- waiting in line

  datatype Which = Room | Value | Mutex

  function Waiting<T>(b: Buf<T>, q: Which): seq<Tid> {
    match q
    case Room => b.nEmpty.waiting
    case Value => b.nFull.waiting
    case Mutex => b.mutex.waiting
  }

  /** A step leaves a line of waiters alone, takes its head off, or puts its thread at the end. */
  lemma LineMoves<T>(b: Buf<T>, e: Event<T>, q: Which)
    requires Inv(b) && Enabled(b, e) && (e.Go? ==> CanStep(b, e.i))
    ensures var w, v := Waiting(b, q), Waiting(Next(b, e), q);
      v == w || v == w + [e.i] || (w != [] && v == w[1..])
  {
    hide Inv, Granted;
  }

  /** Thread w[m] of a line is served before any that came after it: as long as it waits, those in
      front of it are the last of those that were. */
  ghost predicate InLine(w: seq<Tid>, v: seq<Tid>, m: nat) {
    m < |w| && exists k: nat {:trigger w[k..m + 1]} :: k <= m && w[k..m + 1] <= v
  }

  /** Nobody overtakes: over any run, a waiting thread is either still in line behind nobody new, or
      it has been served in some state on the way. */
  lemma {:induction false} NoOvertaking<T>(b: Buf<T>, events: seq<Event<T>>, q: Which, m: nat)
    requires Inv(b) && m < |Waiting(b, q)|
    ensures InLine(Waiting(b, q), Waiting(RunFrom(b, events), q), m)
      || exists n: nat {:trigger events[..n]} :: n <= |events| && Waiting(b, q)[m] !in Waiting(RunFrom(b, events[..n]), q)
    decreases |events|
  {
    hide Inv, Enabled, Next, CanStep, InLine;
    var w := Waiting(b, q);
    if events == [] {
      StandsInLine(w, m);
    } else {
      var rest := events[1..];
      if !Enabled(b, events[0]) {
        NoOvertaking(b, rest, q, m);
        Earlier(b, events, q, w[m]);
      } else {
        NextInv(b, events[0]);
        var c := Next(b, events[0]);
        LineMoves(b, events[0], q);
        var v := Waiting(c, q);
        if v == w[1..] && v != w && v != w + [events[0].i] && m == 0 {
          assert events[..1] == [events[0]] && events[..1][1..] == [];
          HeadLeaves(b, q);
          assert w[m] !in Waiting(RunFrom(b, events[..1]), q);
        } else {
          var m' := if v == w || v == w + [events[0].i] then m else m - 1;
          assert v[m'] == w[m];
          NoOvertaking(c, rest, q, m');
          Earlier(b, events, q, w[m]);
          if InLine(v, Waiting(RunFrom(c, rest), q), m') { ShiftLine(w, v, Waiting(RunFrom(c, rest), q), m, m'); }
        }
      }
    }
  }

  lemma StandsInLine(w: seq<Tid>, m: nat)
    requires m < |w|
    ensures InLine(w, w, m)
  {
    assert w[0..m + 1] <= w;
  }

  lemma HeadLeaves<T>(b: Buf<T>, q: Which)
    requires Inv(b) && Waiting(b, q) != []
    ensures Waiting(b, q)[0] !in Waiting(b, q)[1..]
  {
  }

  lemma ShiftLine(w: seq<Tid>, v: seq<Tid>, u: seq<Tid>, m: nat, m': nat)
    requires m < |w| && InLine(v, u, m') && ((m' == m && w <= v) || (m' + 1 == m && v == w[1..]))
    ensures InLine(w, u, m)
  {
    var k: nat :| k <= m' && v[k..m' + 1] <= u;
    var j := k + (m - m');
    assert w[j..m + 1] == v[k..m' + 1];
  }

  /** A state on the way of the rest of the run is one on the way of the whole. */
  lemma Earlier<T>(b: Buf<T>, events: seq<Event<T>>, q: Which, i: Tid)
    requires Inv(b) && events != []
    ensures var c := RunFrom(b, events[..1]);
      forall n: nat {:trigger events[1..][..n]} :: n < |events| ==> RunFrom(b, events[..n + 1]) == RunFrom(c, events[1..][..n])
  {
    hide Inv, Enabled, Next, CanStep;
    NextIf(b, events[0]);
    assert events[..1] == [events[0]] && [events[0]][1..] == [];
    var c := RunFrom(b, events[..1]);
    forall n: nat {:trigger events[1..][..n]} | n < |events|
      ensures RunFrom(b, events[..n + 1]) == RunFrom(c, events[1..][..n])
    {
      assert events[..n + 1][1..] == events[1..][..n] && events[..n + 1][0] == events[0];
    }
  }

  lemma NextIf<T>(b: Buf<T>, e: Event<T>)
    requires Inv(b)
    ensures Enabled(b, e) ==> (e.Go? ==> CanStep(b, e.i)) && Inv(Next(b, e))
    ensures RunFrom(b, [e]) == if Enabled(b, e) then Next(b, e) else b
  {
    if Enabled(b, e) { NextInv(b, e); }
    assert [e][1..] == [];
    assert Enabled(b, e) ==> RunFrom(Next(b, e), []) == Next(b, e);
  }
}
