/** Safety of the bounded buffer in every reachable state. */
module BufferSafety {
  import opened BufferModel

  // ---------------------------------------------------------------- invariant

  predicate Distinct(s: seq<Tid>) {
    forall i, j {:trigger s[i], s[j]} :: 0 <= i < j < |s| ==> s[i] != s[j]
  }

  /** Which threads each queue holds. */
  predicate OnEmpty(pc: Pc) { pc.P0B? }
  predicate OnFull(pc: Pc) { pc.G0B? }
  predicate OnMutex(pc: Pc) { pc.P1B? || pc.G1B? }

  ghost predicate Queued<T>(b: Buf<T>, i: Tid)
    requires i < |b.threads|
  {
    var pc := b.threads[i].pc;
    && (i in b.nEmpty.waiting <==> OnEmpty(pc))
    && (i in b.nFull.waiting <==> OnFull(pc))
    && (i in b.mutex.waiting <==> OnMutex(pc))
  }

  ghost predicate SemOk(s: Sem) {
    Distinct(s.waiting) && (s.count > 0 ==> s.waiting == [])
  }

  ghost predicate Queues<T>(b: Buf<T>) {
    && WaitersExist(b) && SemOk(b.nEmpty) && SemOk(b.nFull) && SemOk(b.mutex)
    && forall i {:trigger Queued(b, i)} :: 0 <= i < |b.threads| ==> Queued(b, i)
  }

  /** Slots and tokens add up. */
  ghost predicate Tokens<T>(b: Buf<T>) {
    && |b.gots| <= |b.puts|
    && b.nEmpty.count + Empties(b.threads) + (|b.puts| - |b.gots|) == |b.arr|
    && b.nFull.count + Fulls(b.threads) == |b.puts| - |b.gots|
  }

  predicate Critical<T>(b: Buf<T>, i: Tid) {
    i < |b.threads| && InCritical(b.threads[i].pc)
  }

  /** At most one thread is in a critical section, and none while the mutex is free. */
  ghost predicate Mutual<T>(b: Buf<T>) {
    && b.mutex.count <= 1
    && (forall i, j {:trigger Critical(b, i), Critical(b, j)} :: Critical(b, i) && Critical(b, j) ==> i == j)
    && (b.mutex.count == 1 ==> forall i {:trigger Critical(b, i)} :: !Critical(b, i))
  }

  predicate At<T>(b: Buf<T>, i: Tid, pc: Pc) {
    i < |b.threads| && b.threads[i].pc == pc
  }

  /** Where tail stands: at the slot of the next put, one behind between store and increment, and
      possibly at n before the wrap. */
  ghost predicate TailOk<T>(b: Buf<T>)
    requires |b.arr| > 0
  {
    var n, p := |b.arr|, |b.puts|;
    && (forall i {:trigger At(b, i, P3)} :: At(b, i, P3) ==> p > 0 && b.tail == (p - 1) % n)
    && (forall i {:trigger At(b, i, P4)} :: At(b, i, P4) ==> p > 0 && b.tail == (p - 1) % n + 1)
    && ((forall i {:trigger At(b, i, P3)} {:trigger At(b, i, P4)} :: !At(b, i, P3) && !At(b, i, P4)) ==> b.tail == p % n)
  }

  ghost predicate HeadOk<T>(b: Buf<T>)
    requires |b.arr| > 0
  {
    var n, g := |b.arr|, |b.gots|;
    && (forall i {:trigger At(b, i, G3)} :: At(b, i, G3) ==> g > 0 && b.head == (g - 1) % n)
    && (forall i {:trigger At(b, i, G4)} :: At(b, i, G4) ==> g > 0 && b.head == (g - 1) % n + 1)
    && ((forall i {:trigger At(b, i, G3)} {:trigger At(b, i, G4)} :: !At(b, i, G3) && !At(b, i, G4)) ==> b.head == g % n)
  }

  /** The slot of the k-th put holds it from its store to its fetch. */
  predicate Holds<T(==)>(b: Buf<T>, k: nat)
    requires |b.arr| > 0 && k < |b.puts|
  {
    b.arr[k % |b.arr|] == b.puts[k]
  }

  /** What was got is a prefix of what was put, and the rest is in the array. */
  ghost predicate Data<T>(b: Buf<T>)
    requires |b.arr| > 0
  {
    && b.gots <= b.puts
    && forall k {:trigger Holds(b, k)} :: |b.gots| <= k < |b.puts| ==> Holds(b, k)
  }

  ghost predicate Inv<T>(b: Buf<T>) {
    |b.arr| > 0 && Queues(b) && Tokens(b) && Mutual(b) && TailOk(b) && HeadOk(b) && Data(b)
  }

  // ---------------------------------------------------------------- initially

  function Initial<T>(arr: seq<T>, threads: seq<Thread<T>>): Buf<T> {
    Buf(arr, 0, 0, Sem(0, []), Sem(|arr|, []), Sem(1, []), threads, [], [])
  }

  lemma {:induction false} NoTokens<T>(ts: seq<Thread<T>>)
    requires forall i {:trigger ts[i]} :: 0 <= i < |ts| ==> ts[i].pc == Outside
    ensures Empties(ts) == 0 && Fulls(ts) == 0
  {
    if ts != [] {
      var us := ts[..|ts| - 1];
      assert forall i {:trigger us[i]} :: 0 <= i < |us| ==> us[i] == ts[i];
      NoTokens(us);
    }
  }

  /** BB(n) with n > 0 and any number of threads outside put and get. */
  lemma InitialInv<T>(arr: seq<T>, threads: seq<Thread<T>>)
    requires |arr| > 0 && forall i {:trigger threads[i]} :: 0 <= i < |threads| ==> threads[i].pc == Outside
    ensures Inv(Initial(arr, threads))
  {
    var b := Initial(arr, threads);
    NoTokens(threads);
    forall i {:trigger Queued(b, i)} | 0 <= i < |b.threads|
      ensures Queued(b, i)
    {
    }
    assert b.tail == 0 % |arr| && b.head == 0 % |arr|;
  }

  // ---------------------------------------------------------------- one thread moves, no queue moves

  /** After thread i's record changes and nothing else that the queues depend on. */
  lemma MovedQueues<T>(b: Buf<T>, after: Buf<T>, i: Tid, t: Thread<T>)
    requires Queues(b) && i < |b.threads| && after.threads == b.threads[i := t]
    requires after.nEmpty == b.nEmpty && after.nFull == b.nFull && after.mutex == b.mutex
    requires OnEmpty(t.pc) <==> OnEmpty(b.threads[i].pc)
    requires OnFull(t.pc) <==> OnFull(b.threads[i].pc)
    requires OnMutex(t.pc) <==> OnMutex(b.threads[i].pc)
    ensures Queues(after)
  {
    forall j {:trigger Queued(after, j)} | 0 <= j < |after.threads|
      ensures Queued(after, j)
    {
      assert Queued(b, j);
    }
  }

  /** Thread i stays inside or outside the critical section. */
  lemma MovedMutual<T>(b: Buf<T>, after: Buf<T>, i: Tid, t: Thread<T>)
    requires Mutual(b) && i < |b.threads| && after.threads == b.threads[i := t] && after.mutex == b.mutex
    requires InCritical(t.pc) ==> InCritical(b.threads[i].pc)
    ensures Mutual(after)
  {
    forall j {:trigger Critical(after, j)} | Critical(after, j)
      ensures Critical(b, j)
    {
    }
  }

  /** Only a thread in a critical section can be where tail and head are moved. */
  lemma OnlyOne<T>(b: Buf<T>, i: Tid, j: Tid)
    requires Mutual(b) && Critical(b, i) && j != i
    ensures !Critical(b, j)
  {
  }

  lemma TailKept<T>(b: Buf<T>, after: Buf<T>, i: Tid, t: Thread<T>)
    requires |b.arr| > 0 && TailOk(b) && i < |b.threads| && after.threads == b.threads[i := t]
    requires after.tail == b.tail && |after.puts| == |b.puts| && |after.arr| == |b.arr|
    requires !b.threads[i].pc.P3? && !b.threads[i].pc.P4? && !t.pc.P3? && !t.pc.P4?
    ensures TailOk(after)
  {
    forall j {:trigger At(after, j, P3)} {:trigger At(after, j, P4)}
      ensures At(after, j, P3) == At(b, j, P3) && At(after, j, P4) == At(b, j, P4)
    {
    }
    if (forall j {:trigger At(after, j, P3)} {:trigger At(after, j, P4)} :: !At(after, j, P3) && !At(after, j, P4)) {
      forall j {:trigger At(b, j, P3)} {:trigger At(b, j, P4)}
        ensures !At(b, j, P3) && !At(b, j, P4)
      {
        assert At(after, j, P3) == At(b, j, P3) && At(after, j, P4) == At(b, j, P4);
      }
    }
  }

  lemma HeadKept<T>(b: Buf<T>, after: Buf<T>, i: Tid, t: Thread<T>)
    requires |b.arr| > 0 && HeadOk(b) && i < |b.threads| && after.threads == b.threads[i := t]
    requires after.head == b.head && |after.gots| == |b.gots| && |after.arr| == |b.arr|
    requires !b.threads[i].pc.G3? && !b.threads[i].pc.G4? && !t.pc.G3? && !t.pc.G4?
    ensures HeadOk(after)
  {
    forall j {:trigger At(after, j, G3)} {:trigger At(after, j, G4)}
      ensures At(after, j, G3) == At(b, j, G3) && At(after, j, G4) == At(b, j, G4)
    {
    }
    if (forall j {:trigger At(after, j, G3)} {:trigger At(after, j, G4)} :: !At(after, j, G3) && !At(after, j, G4)) {
      forall j {:trigger At(b, j, G3)} {:trigger At(b, j, G4)}
        ensures !At(b, j, G3) && !At(b, j, G4)
      {
        assert At(after, j, G3) == At(b, j, G3) && At(after, j, G4) == At(b, j, G4);
      }
    }
  }

  lemma DataKept<T>(b: Buf<T>, after: Buf<T>)
    requires |b.arr| > 0 && Data(b) && after.arr == b.arr && after.puts == b.puts && after.gots == b.gots
    ensures Data(after)
  {
    forall k {:trigger Holds(after, k)} | |after.gots| <= k < |after.puts|
      ensures Holds(after, k)
    {
      assert Holds(b, k);
    }
  }

  /** The part of the invariant that only the four steps on the array, head and tail can touch. */
  ghost predicate Ring<T>(b: Buf<T>) {
    |b.arr| > 0 && TailOk(b) && HeadOk(b) && Data(b)
  }

  predicate SameRing<T(==)>(b: Buf<T>, after: Buf<T>) {
    after.arr == b.arr && after.head == b.head && after.tail == b.tail && after.puts == b.puts && after.gots == b.gots
  }

  /** A place in the code where neither head nor tail is being moved. */
  predicate Still(pc: Pc) {
    !pc.P3? && !pc.P4? && !pc.G3? && !pc.G4?
  }

  lemma RingKept<T>(b: Buf<T>, after: Buf<T>, i: Tid, t: Thread<T>)
    requires Ring(b) && SameRing(b, after) && i < |b.threads| && after.threads == b.threads[i := t]
    requires Still(b.threads[i].pc) && Still(t.pc)
    ensures Ring(after)
  {
    TailKept(b, after, i, t);
    HeadKept(b, after, i, t);
    DataKept(b, after);
  }

  // ---------------------------------------------------------------- down

  lemma AppendOk(w: seq<Tid>, i: Tid)
    requires Distinct(w) && i !in w
    ensures Distinct(w + [i])
  {
    forall k | 0 <= k < |w|
      ensures w[k] != i
    {
    }
  }

  lemma DownEmpty<T>(b: Buf<T>, i: Tid)
    requires Inv(b) && CanStep(b, i) && b.threads[i].pc == P0
    ensures Inv(Step(b, i))
  {
    var after := Step(b, i);
    var t := after.threads[i];
    assert Queued(b, i);
    AppendOk(b.nEmpty.waiting, i);
    forall j {:trigger Queued(after, j)} | 0 <= j < |after.threads|
      ensures Queued(after, j)
    {
      assert Queued(b, j);
    }
    TokensChange(b.threads, i, t);
    MovedMutual(b, after, i, t);
    RingKept(b, after, i, t);
  }

  lemma DownFull<T>(b: Buf<T>, i: Tid)
    requires Inv(b) && CanStep(b, i) && b.threads[i].pc == G0
    ensures Inv(Step(b, i))
  {
    var after := Step(b, i);
    var t := after.threads[i];
    assert Queued(b, i);
    AppendOk(b.nFull.waiting, i);
    forall j {:trigger Queued(after, j)} | 0 <= j < |after.threads|
      ensures Queued(after, j)
    {
      assert Queued(b, j);
    }
    TokensChange(b.threads, i, t);
    MovedMutual(b, after, i, t);
    RingKept(b, after, i, t);
  }

  lemma DownMutex<T>(b: Buf<T>, i: Tid)
    requires Inv(b) && CanStep(b, i) && (b.threads[i].pc == P1 || b.threads[i].pc == G1)
    ensures Inv(Step(b, i))
  {
    var after := Step(b, i);
    var t := after.threads[i];
    assert Queued(b, i);
    AppendOk(b.mutex.waiting, i);
    forall j {:trigger Queued(after, j)} | 0 <= j < |after.threads|
      ensures Queued(after, j)
    {
      assert Queued(b, j);
    }
    TokensChange(b.threads, i, t);
    forall j {:trigger Critical(after, j)} | Critical(after, j) && j != i
      ensures Critical(b, j)
    {
    }
    RingKept(b, after, i, t);
  }

  // ---------------------------------------------------------------- up

  /** The law of the tokens while `e` empty and `f` full tokens are in the hand of a thread that is
      about to give them back. */
  ghost predicate TokensOff<T>(b: Buf<T>, e: nat, f: nat) {
    && |b.gots| <= |b.puts|
    && b.nEmpty.count + Empties(b.threads) + (|b.puts| - |b.gots|) + e == |b.arr|
    && b.nFull.count + Fulls(b.threads) + f == |b.puts| - |b.gots|
  }

  /** Nobody is in a critical section and the mutex is not free yet. */
  ghost predicate Leaving<T>(b: Buf<T>) {
    b.mutex.count == 0 && forall i {:trigger Critical(b, i)} :: !Critical(b, i)
  }

  lemma TailQueue(w: seq<Tid>, j: Tid)
    requires Distinct(w) && w != []
    ensures Distinct(w[1..]) && (j in w[1..] <==> j in w && j != w[0])
  {
    assert w == [w[0]] + w[1..];
    if j in w[1..] {
      var k :| 0 <= k < |w[1..]| && w[1..][k] == j;
      assert w[k + 1] == j;
    }
  }

  lemma UpEmpty<T>(b: Buf<T>)
    requires Queues(b) && TokensOff(b, 1, 0) && Mutual(b) && Ring(b)
    ensures Inv(Wake(b, b.nEmpty).(nEmpty := Up(b.nEmpty)))
  {
    var w, after := b.nEmpty.waiting, Wake(b, b.nEmpty).(nEmpty := Up(b.nEmpty));
    if w == [] {
      forall j {:trigger Queued(after, j)} | 0 <= j < |after.threads| ensures Queued(after, j) { assert Queued(b, j); }
      SameThreads(b, after);
    } else {
      var i, t := w[0], after.threads[w[0]];
      assert Queued(b, i) && i in w;
      forall j {:trigger Queued(after, j)} | 0 <= j < |after.threads|
        ensures Queued(after, j)
      {
        assert Queued(b, j);
        TailQueue(w, j);
      }
      TailQueue(w, i);
      TokensChange(b.threads, i, t);
      MovedMutual(b, after, i, t);
      RingKept(b, after, i, t);
    }
  }

  lemma UpFull<T>(b: Buf<T>)
    requires Queues(b) && TokensOff(b, 0, 1) && Mutual(b) && Ring(b)
    ensures Inv(Wake(b, b.nFull).(nFull := Up(b.nFull)))
  {
    var w, after := b.nFull.waiting, Wake(b, b.nFull).(nFull := Up(b.nFull));
    if w == [] {
      forall j {:trigger Queued(after, j)} | 0 <= j < |after.threads| ensures Queued(after, j) { assert Queued(b, j); }
      SameThreads(b, after);
    } else {
      var i, t := w[0], after.threads[w[0]];
      assert Queued(b, i) && i in w;
      forall j {:trigger Queued(after, j)} | 0 <= j < |after.threads|
        ensures Queued(after, j)
      {
        assert Queued(b, j);
        TailQueue(w, j);
      }
      TailQueue(w, i);
      TokensChange(b.threads, i, t);
      MovedMutual(b, after, i, t);
      RingKept(b, after, i, t);
    }
  }

  lemma UpMutex<T>(b: Buf<T>)
    requires Queues(b) && Tokens(b) && Leaving(b) && Ring(b)
    ensures Inv(Wake(b, b.mutex).(mutex := Up(b.mutex)))
  {
    hide Queues, Tokens, Leaving, Ring;
    if b.mutex.waiting == [] { FreeMutex(b); } else { PassMutex(b); }
  }

  lemma FreeMutex<T>(b: Buf<T>)
    requires Queues(b) && Tokens(b) && Leaving(b) && Ring(b) && b.mutex.waiting == []
    ensures Inv(Wake(b, b.mutex).(mutex := Up(b.mutex)))
  {
    var after := Wake(b, b.mutex).(mutex := Up(b.mutex));
    forall j {:trigger Queued(after, j)} | 0 <= j < |after.threads| ensures Queued(after, j) { assert Queued(b, j); }
    forall j {:trigger Critical(after, j)} ensures !Critical(after, j) { assert !Critical(b, j); }
    SameThreads(b, after);
  }

  lemma PassMutex<T>(b: Buf<T>)
    requires Queues(b) && Tokens(b) && Leaving(b) && Ring(b) && b.mutex.waiting != []
    ensures Inv(Wake(b, b.mutex).(mutex := Up(b.mutex)))
  {
    var w, after := b.mutex.waiting, Wake(b, b.mutex).(mutex := Up(b.mutex));
    var i, t := w[0], after.threads[w[0]];
    assert Queued(b, i) && i in w;
    forall j {:trigger Queued(after, j)} | 0 <= j < |after.threads|
      ensures Queued(after, j)
    {
      assert Queued(b, j);
      TailQueue(w, j);
    }
    TailQueue(w, i);
    TokensChange(b.threads, i, t);
    forall j {:trigger Critical(after, j)} | Critical(after, j) ensures j == i { assert j != i ==> !Critical(b, j); }
    RingKept(b, after, i, t);
  }

  lemma SameThreads<T>(b: Buf<T>, after: Buf<T>)
    requires Ring(b) && SameRing(b, after) && after.threads == b.threads
    ensures Ring(after)
    ensures Mutual(b) && after.mutex == b.mutex ==> Mutual(after)
  {
    forall j {:trigger At(after, j, P3)} ensures At(after, j, P3) == At(b, j, P3) {}
    forall j {:trigger At(after, j, P4)} ensures At(after, j, P4) == At(b, j, P4) {}
    forall j {:trigger At(after, j, G3)} ensures At(after, j, G3) == At(b, j, G3) {}
    forall j {:trigger At(after, j, G4)} ensures At(after, j, G4) == At(b, j, G4) {}
    forall j {:trigger Critical(after, j)} ensures Critical(after, j) == Critical(b, j) {}
    DataKept(b, after);
    StillNone(b, after);
  }

  lemma StillNone<T>(b: Buf<T>, after: Buf<T>)
    requires |b.arr| > 0 && TailOk(b) && HeadOk(b) && SameRing(b, after) && after.threads == b.threads
    ensures TailOk(after) && HeadOk(after)
  {
    if (forall j {:trigger At(after, j, P3)} {:trigger At(after, j, P4)} :: !At(after, j, P3) && !At(after, j, P4)) {
      forall j {:trigger At(b, j, P3)} {:trigger At(b, j, P4)} ensures !At(b, j, P3) && !At(b, j, P4) { assert !At(after, j, P3) && !At(after, j, P4); }
    }
    if (forall j {:trigger At(after, j, G3)} {:trigger At(after, j, G4)} :: !At(after, j, G3) && !At(after, j, G4)) {
      forall j {:trigger At(b, j, G3)} {:trigger At(b, j, G4)} ensures !At(b, j, G3) && !At(b, j, G4) { assert !At(after, j, G3) && !At(after, j, G4); }
    }
    forall j {:trigger At(after, j, P3)} ensures At(after, j, P3) == At(b, j, P3) {}
    forall j {:trigger At(after, j, P4)} ensures At(after, j, P4) == At(b, j, P4) {}
    forall j {:trigger At(after, j, G3)} ensures At(after, j, G3) == At(b, j, G3) {}
    forall j {:trigger At(after, j, G4)} ensures At(after, j, G4) == At(b, j, G4) {}
  }

  lemma GiveBack<T>(b: Buf<T>, i: Tid)
    requires Inv(b) && CanStep(b, i) && (b.threads[i].pc == P6 || b.threads[i].pc == G6)
    ensures Inv(Step(b, i))
  {
    var moved := SetPc(b, i, Outside);
    MovedQueues(b, moved, i, moved.threads[i]);
    MovedMutual(b, moved, i, moved.threads[i]);
    RingKept(b, moved, i, moved.threads[i]);
    TokensChange(b.threads, i, moved.threads[i]);
    if b.threads[i].pc == P6 { UpFull(moved); } else { UpEmpty(moved); }
  }

  lemma Unlock<T>(b: Buf<T>, i: Tid)
    requires Inv(b) && CanStep(b, i) && (b.threads[i].pc == P5 || b.threads[i].pc == G5)
    ensures Inv(Step(b, i))
  {
    var moved := SetPc(b, i, if b.threads[i].pc == P5 then P6 else G6);
    MovedQueues(b, moved, i, moved.threads[i]);
    RingKept(b, moved, i, moved.threads[i]);
    TokensChange(b.threads, i, moved.threads[i]);
    assert Critical(b, i);
    forall j {:trigger Critical(moved, j)}
      ensures !Critical(moved, j)
    {
      if j != i { assert !Critical(b, j); }
    }
    UpMutex(moved);
  }
}
