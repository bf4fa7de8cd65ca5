/** The bounded buffer as the code has it: an array, two indices and three semaphores, updated in
    place. Advance executes one statement of put or get for one thread. */
module BufferCode {
  import opened BufferModel
  import opened BufferSafety
  import opened BufferRuns
  import opened BufferValues

  class BB<T(0)> {
    const arr: array<T>
    const n: nat
    var head: nat
    var tail: nat
    var nFull: Sem
    var nEmpty: Sem
    var mutex: Sem
    var threads: seq<Thread<T>>
    ghost var puts: seq<T>
    ghost var gots: seq<T>
    ghost var log: Log<T>

    ghost function View(): Buf<T>
      reads this, arr
    {
      Buf(arr[..], head, tail, nFull, nEmpty, mutex, threads, puts, gots)
    }

    ghost predicate Valid()
      reads this, arr
    {
      n == arr.Length && Inv(View()) && Held(View()) && Fits(View(), log)
    }

    /** A buffer of n > 0 slots, and threads that are in neither operation. */
    constructor (n: nat, threads: seq<Thread<T>>)
      requires n > 0 && forall k {:trigger threads[k]} :: 0 <= k < |threads| ==> threads[k].pc == Outside
      ensures Valid() && fresh(arr) && arr.Length == n
      ensures View() == Initial(arr[..], threads) && log == Blank(threads)
    {
      arr := new T[n];
      this.n := n;
      head, tail := 0, 0;
      nFull, nEmpty, mutex := Sem(0, []), Sem(n, []), Sem(1, []);
      this.threads := threads;
      puts, gots := [], [];
      log := Blank(threads);
      new;
      InitialInv(arr[..], threads);
      BlankFits(arr[..], threads);
    }

    /** A thread calls put(v) or get(). */
    method Enter(i: Tid, put: bool, v: T)
      requires Valid() && i < |threads| && threads[i].pc == Outside
      modifies this`threads, this`log
      ensures Valid() && View() == Begin(old(View()), i, put, v)
      ensures log == old(log).(asked := old(log).asked[i := v])
    {
      hide Inv, Held, Fits;
      ghost var before, seen := View(), log;
      FitsAt(before, seen, i, 0);
      NextInv(before, Start(i, put, v));
      NextHeld(before, Start(i, put, v));
      NextFits(before, seen, Start(i, put, v));
      threads := threads[i := Thread(if put then P0 else G0, v)];
      log := Watch(seen, before, Start(i, put, v), View());
    }

    method At(i: Tid, pc: Pc)
      requires i < |threads|
      modifies this`threads
      ensures threads == old(threads)[i := old(threads)[i].(pc := pc)]
    {
      threads := threads[i := threads[i].(pc := pc)];
    }

    /** The first waiter of a semaphore gets its token. */
    method Grant(waiting: seq<Tid>)
      requires Exist(waiting, |threads|) && waiting != []
      modifies this`threads
      ensures threads == old(threads)[waiting[0] := old(threads)[waiting[0]].(pc := Granted(old(threads)[waiting[0]].pc))]
    {
      At(waiting[0], Granted(threads[waiting[0]].pc));
    }

    /** One statement of thread i; it stays inside the array whatever the other threads did before.
        When it is the last of get, the value is returned: what was passed to the put of that turn. */
    method Advance(i: Tid) returns (value: Option<T>)
      requires Valid() && Enabled(View(), Go(i))
      modifies this, arr
      ensures CanStep(old(View()), i)
      ensures Valid() && View() == Step(old(View()), i)
      ensures |old(threads)| == |old(log).asked| == |old(log).turn| == |threads| && log == Watch(old(log), old(View()), Go(i), View())
      ensures value.Some? <==> old(threads[i].pc) == G6
      ensures value.Some? ==> var k := log.turn[i]; k < |log.received| == |old(log).received| && k < |log.sent| && value.value == log.sent[k] && log.received[k] == value
    {
      hide Inv, Held, Fits, CanStep, Step;
      ghost var before, seen := View(), log;
      FitsAt(before, seen, i, 0);
      NextInv(before, Go(i));
      NextHeld(before, Go(i));
      NextFits(before, seen, Go(i));
      if threads[i].pc.G6? { ReturnsSent(before, seen, i); }
      value := if threads[i].pc.G6? then Some(threads[i].v) else None;
      Execute(i);
      log := Watch(seen, before, Go(i), View());
    }

    method Execute(i: Tid)
      requires n == arr.Length && CanStep(View(), i) && Enabled(View(), Go(i))
      modifies arr, this`head, this`tail, this`nFull, this`nEmpty, this`mutex, this`threads, this`puts, this`gots
      ensures View() == Step(old(View()), i)
    {
      if threads[i].pc.P2? || threads[i].pc.G2? {
        Touch(i);
      } else if threads[i].pc.P3? || threads[i].pc.P4? || threads[i].pc.G3? || threads[i].pc.G4? {
        Move(i);
      } else if threads[i].pc.P0? || threads[i].pc.P1? || threads[i].pc.G0? || threads[i].pc.G1? {
        Acquire(i);
      } else {
        Leave(i);
      }
    }

    /** arr[tail] = v, and v = arr[head]. */
    method Touch(i: Tid)
      requires CanStep(View(), i) && (threads[i].pc == P2 || threads[i].pc == G2)
      modifies arr, this`threads, this`puts, this`gots
      ensures View() == Step(old(View()), i)
    {
      if threads[i].pc == P2 {
        arr[tail] := threads[i].v;
        puts := puts + [threads[i].v];
        At(i, P3);
      } else {
        gots := gots + [arr[head]];
        threads := threads[i := Thread(G3, arr[head])];
      }
    }

    /** The increments of tail and head, and their wraps at n. */
    method Move(i: Tid)
      requires n == arr.Length && CanStep(View(), i)
      requires threads[i].pc == P3 || threads[i].pc == P4 || threads[i].pc == G3 || threads[i].pc == G4
      modifies this`head, this`tail, this`threads
      ensures View() == Step(old(View()), i)
    {
      match threads[i].pc {
        case P3 => tail := tail + 1; At(i, P4);
        case P4 => if tail == n { tail := 0; } At(i, P5);
        case G3 => head := head + 1; At(i, G4);
        case G4 => if head == n { head := 0; } At(i, G5);
      }
    }

    /** The four downs. */
    method Acquire(i: Tid)
      requires CanStep(View(), i)
      requires threads[i].pc == P0 || threads[i].pc == P1 || threads[i].pc == G0 || threads[i].pc == G1
      modifies this`nEmpty, this`nFull, this`mutex, this`threads
      ensures View() == Step(old(View()), i)
    {
      match threads[i].pc {
        case P0 =>
          At(i, if nEmpty.count == 0 then P0B else P1);
          nEmpty := Down(nEmpty, i);
        case P1 =>
          At(i, if mutex.count == 0 then P1B else P2);
          mutex := Down(mutex, i);
        case G0 =>
          At(i, if nFull.count == 0 then G0B else G1);
          nFull := Down(nFull, i);
        case G1 =>
          At(i, if mutex.count == 0 then G1B else G2);
          mutex := Down(mutex, i);
      }
    }

    /** The four ups. */
    method Leave(i: Tid)
      requires CanStep(View(), i)
      requires threads[i].pc == P5 || threads[i].pc == P6 || threads[i].pc == G5 || threads[i].pc == G6
      modifies this`nEmpty, this`nFull, this`mutex, this`threads
      ensures View() == Step(old(View()), i)
    {
      match threads[i].pc {
        case P5 =>
          At(i, P6);
          if mutex.waiting != [] { Grant(mutex.waiting); }
          mutex := Up(mutex);
        case P6 =>
          At(i, Outside);
          if nFull.waiting != [] { Grant(nFull.waiting); }
          nFull := Up(nFull);
        case G5 =>
          At(i, G6);
          if mutex.waiting != [] { Grant(mutex.waiting); }
          mutex := Up(mutex);
        case G6 =>
          At(i, Outside);
          if nEmpty.waiting != [] { Grant(nEmpty.waiting); }
          nEmpty := Up(nEmpty);
      }
    }
  }
}
