/** What producers and consumers see: the values they pass to put and those that get returns. */
module BufferValues {
  import opened BufferModel
  import opened BufferSafety
  import opened BufferRuns

  datatype Option<T> = None | Some(value: T)

  /** An observer's record. `asked` holds the argument of each thread's last call; `sent` the
      arguments of the puts in the order of their critical sections; `received` has one place for
      each get, in the order of theirs, for what it returns; `turn` says which one is whose. */
  datatype Log<T> = Log(asked: seq<T>, sent: seq<T>, received: seq<Option<T>>, turn: seq<nat>)

  /** The observer sees calls, who is in the critical section, and what a thread holds when it
      returns. */
  function Watch<T>(log: Log<T>, before: Buf<T>, e: Event<T>, after: Buf<T>): Log<T>
    requires e.i < |before.threads| == |after.threads| == |log.asked| == |log.turn|
  {
    match e
    case Start(i, put, v) => log.(asked := log.asked[i := v])
    case Go(i) =>
      match before.threads[i].pc
      case P2 => log.(sent := log.sent + [log.asked[i]])
      case G2 => log.(turn := log.turn[i := |log.received|], received := log.received + [None])
      case G6 =>
        if log.turn[i] < |log.received| then log.(received := log.received[log.turn[i] := Some(after.threads[i].v)]) else log
      case _ => log
  }

  predicate BeforeStore(pc: Pc) {
    pc.P0? || pc.P0B? || pc.P1? || pc.P1B? || pc.P2?
  }

  predicate PastFetch(pc: Pc) {
    pc.G3? || pc.G4? || pc.G5? || pc.G6?
  }

  /** A putter still has its argument, and a getter has the element that its fetch has appended. */
  predicate ThreadFits<T(==)>(b: Buf<T>, log: Log<T>, i: Tid) {
    i < |b.threads| == |log.asked| == |log.turn| ==>
      && (BeforeStore(b.threads[i].pc) ==> b.threads[i].v == log.asked[i])
      && (PastFetch(b.threads[i].pc) ==> log.turn[i] < |b.gots| && b.threads[i].v == b.gots[log.turn[i]])
  }

  predicate Returns<T>(b: Buf<T>, log: Log<T>, k: nat, i: Tid) {
    i < |b.threads| == |log.turn| && PastFetch(b.threads[i].pc) && log.turn[i] == k
  }

  /** The k-th get has returned the k-th value fetched, or its thread is on the way back with it. */
  ghost predicate PlaceFits<T>(b: Buf<T>, log: Log<T>, k: nat) {
    k < |b.gots| == |log.received| ==>
      match log.received[k]
      case Some(v) => v == b.gots[k]
      case None => exists i {:trigger Returns(b, log, k, i)} :: Returns(b, log, k, i)
  }

  ghost predicate Fits<T>(b: Buf<T>, log: Log<T>) {
    && |b.threads| == |log.asked| == |log.turn| && log.sent == b.puts && |log.received| == |b.gots|
    && (forall i: Tid {:trigger ThreadFits(b, log, i)} :: ThreadFits(b, log, i))
    && (forall k: nat {:trigger PlaceFits(b, log, k)} :: PlaceFits(b, log, k))
  }

  /** One thread moves, the others at most wake. */
  predicate Bystander<T(==)>(b: Buf<T>, after: Buf<T>, j: Tid) {
    j < |b.threads| == |after.threads| ==>
      && after.threads[j].v == b.threads[j].v
      && (BeforeStore(after.threads[j].pc) ==> BeforeStore(b.threads[j].pc))
      && (PastFetch(after.threads[j].pc) <==> PastFetch(b.threads[j].pc))
  }

  predicate IsUp(pc: Pc) {
    pc.P5? || pc.P6? || pc.G5? || pc.G6?
  }

  /** Waking somebody changes neither values nor on which side of store and fetch anybody is, and
      not the thread that does the up. */
  lemma WokenStands<T>(b: Buf<T>, i: Tid)
    requires Inv(b) && CanStep(b, i) && IsUp(b.threads[i].pc)
    ensures var after, pc := Step(b, i), b.threads[i].pc;
      && |after.threads| == |b.threads| && after.puts == b.puts && after.gots == b.gots
      && after.threads[i] == Thread(if pc.P5? then P6 else if pc.G5? then G6 else Outside, b.threads[i].v)
      && forall j: Tid {:trigger Bystander(b, after, j)} :: j != i ==> Bystander(b, after, j)
  {
    hide Ring, Tokens, Mutual;
    var pc := b.threads[i].pc;
    if (pc.P5? || pc.G5?) && b.mutex.waiting != [] { assert Queued(b, b.mutex.waiting[0]); }
    if pc.P6? && b.nFull.waiting != [] { assert Queued(b, b.nFull.waiting[0]); }
    if pc.G6? && b.nEmpty.waiting != [] { assert Queued(b, b.nEmpty.waiting[0]); }
  }

  lemma Bystanders<T>(b: Buf<T>, e: Event<T>)
    requires Inv(b) && Enabled(b, e) && (e.Go? ==> CanStep(b, e.i))
    ensures |Next(b, e).threads| == |b.threads|
    ensures forall j: Tid {:trigger Bystander(b, Next(b, e), j)} :: j != e.i ==> Bystander(b, Next(b, e), j)
  {
    hide Inv;
    if e.Go? && IsUp(b.threads[e.i].pc) { WokenStands(b, e.i); }
  }

  /** What the thread that moves does with its value and to the values stored and fetched. */
  predicate Moved<T(==)>(b: Buf<T>, e: Event<T>, after: Buf<T>) {
    e.i < |b.threads| == |after.threads| &&
    var x, t, pc := b.threads[e.i], after.threads[e.i], b.threads[e.i].pc;
    && after.puts == b.puts + (if e.Go? && pc == P2 then [x.v] else [])
    && (!(e.Go? && pc == G2) ==> after.gots == b.gots)
    && (e.Go? && pc == G2 ==> |after.gots| == |b.gots| + 1 && after.gots[..|b.gots|] == b.gots && t.v == after.gots[|b.gots|])
    && (e.Start? ==> t.v == e.v && pc == Outside) && (e.Go? && pc != G2 ==> t.v == x.v)
    && (BeforeStore(t.pc) ==> e.Start? || BeforeStore(pc))
    && (PastFetch(t.pc) <==> e.Go? && ((PastFetch(pc) && pc != G6) || pc == G2))
  }

  lemma Mover<T>(b: Buf<T>, e: Event<T>)
    requires Inv(b) && Enabled(b, e) && (e.Go? ==> CanStep(b, e.i))
    ensures Moved(b, e, Next(b, e))
  {
    hide Inv;
    if e.Go? && IsUp(b.threads[e.i].pc) { UpMoves(b, e.i); } else { OtherMoves(b, e); }
  }

  lemma UpMoves<T>(b: Buf<T>, i: Tid)
    requires Inv(b) && Enabled(b, Go(i)) && CanStep(b, i) && IsUp(b.threads[i].pc)
    ensures Moved(b, Go(i), Step(b, i))
  {
    hide Inv, Step, CanStep;
    WokenStands(b, i);
  }

  lemma OtherMoves<T>(b: Buf<T>, e: Event<T>)
    requires Enabled(b, e) && (e.Go? ==> CanStep(b, e.i) && !IsUp(b.threads[e.i].pc))
    ensures Moved(b, e, Next(b, e))
  {
    hide Wake, Down, Up;
  }

  ghost predicate OthersStand<T>(b: Buf<T>, after: Buf<T>, i: Tid) {
    forall j: Tid {:trigger Bystander(b, after, j)} :: j != i ==> Bystander(b, after, j)
  }

  /** The record stays right. */
  lemma NextFits<T>(b: Buf<T>, log: Log<T>, e: Event<T>)
    requires Inv(b) && Enabled(b, e) && (e.Go? ==> CanStep(b, e.i)) && Fits(b, log)
    ensures |Next(b, e).threads| == |b.threads| && Fits(Next(b, e), Watch(log, b, e, Next(b, e)))
  {
    hide Inv, Next, CanStep, Moved, Bystander;
    FitsAt(b, log, 0, 0);
    Bystanders(b, e);
    Mover(b, e);
    var after := Next(b, e);
    var seen := Watch(log, b, e, after);
    Sizes(b, log, e, after);
    forall j: Tid {:trigger ThreadFits(after, seen, j)} ensures ThreadFits(after, seen, j) { NextThread(b, log, e, after, j); }
    forall k: nat {:trigger PlaceFits(after, seen, k)} ensures PlaceFits(after, seen, k) { NextPlace(b, log, e, after, k); }
  }

  lemma Sizes<T>(b: Buf<T>, log: Log<T>, e: Event<T>, after: Buf<T>)
    requires Fits(b, log) && Moved(b, e, after)
    ensures var seen := Watch(log, b, e, after);
      |after.threads| == |seen.asked| == |seen.turn| && seen.sent == after.puts && |seen.received| == |after.gots|
  {
    assert ThreadFits(b, log, e.i);
  }

  lemma NextThread<T>(b: Buf<T>, log: Log<T>, e: Event<T>, after: Buf<T>, j: Tid)
    requires Fits(b, log) && Moved(b, e, after) && OthersStand(b, after, e.i)
    ensures ThreadFits(after, Watch(log, b, e, after), j)
  {
    hide Fits, PlaceFits;
    assert |b.threads| == |log.asked| == |log.turn| && |log.received| == |b.gots| && ThreadFits(b, log, j) by { FitsAt(b, log, j, 0); }
    assert j != e.i ==> Bystander(b, after, j);
  }

  lemma FitsAt<T>(b: Buf<T>, log: Log<T>, j: Tid, k: nat)
    requires Fits(b, log)
    ensures |b.threads| == |log.asked| == |log.turn| && log.sent == b.puts && |log.received| == |b.gots| && ThreadFits(b, log, j) && PlaceFits(b, log, k)
  {
  }

  lemma NextPlace<T>(b: Buf<T>, log: Log<T>, e: Event<T>, after: Buf<T>, k: nat)
    requires Fits(b, log) && Moved(b, e, after) && OthersStand(b, after, e.i)
    ensures PlaceFits(after, Watch(log, b, e, after), k)
  {
    hide Fits;
    FitsAt(b, log, e.i, k);
    var seen := Watch(log, b, e, after);
    if k < |after.gots| == |seen.received| && seen.received[k] == None {
      if k == |b.gots| {
        assert Returns(after, seen, k, e.i);
      } else {
        var i :| Returns(b, log, k, i);
        assert i != e.i ==> Bystander(b, after, i);
        assert Returns(after, seen, k, i);
      }
    }
  }

  /** What a get returns is what was passed to the put of its turn. */
  lemma ReturnsSent<T>(b: Buf<T>, log: Log<T>, i: Tid)
    requires Inv(b) && CanStep(b, i) && Enabled(b, Go(i)) && b.threads[i].pc == G6 && Fits(b, log)
    ensures |Step(b, i).threads| == |b.threads| == |log.asked| == |log.turn|
    ensures var k, seen := log.turn[i], Watch(log, b, Go(i), Step(b, i));
      && k < |seen.received| == |log.received| && seen.turn == log.turn && seen.sent == log.sent && k < |log.sent|
      && b.threads[i].v == log.sent[k] && seen.received[k] == Some(b.threads[i].v)
  {
    hide Ring, Tokens, Mutual, Step;
    Mover(b, Go(i));
    FitsAt(b, log, i, log.turn[i]);
    PrefixAt(b);
  }

  lemma PrefixAt<T>(b: Buf<T>)
    requires Inv(b)
    ensures b.gots <= b.puts
  {
  }

  // ---------------------------------------------------------------- runs

  /** What the observer has recorded after a run. */
  ghost function Observed<T>(b: Buf<T>, log: Log<T>, events: seq<Event<T>>): (seen: Log<T>)
    requires Inv(b) && Fits(b, log)
    decreases |events|
  {
    if events == [] then log
    else if Enabled(b, events[0]) then
      NextInv(b, events[0]);
      NextFits(b, log, events[0]);
      var after := Next(b, events[0]);
      Observed(after, Watch(log, b, events[0], after), events[1..])
    else Observed(b, log, events[1..])
  }

  lemma {:induction false} ObservedFits<T>(b: Buf<T>, log: Log<T>, events: seq<Event<T>>)
    requires Inv(b) && Fits(b, log)
    ensures Fits(RunFrom(b, events), Observed(b, log, events))
    decreases |events|
  {
    hide Fits, Inv, Next, CanStep;
    if events != [] {
      if Enabled(b, events[0]) {
        FitsAt(b, log, 0, 0);
        NextInv(b, events[0]);
        NextFits(b, log, events[0]);
        ObservedFits(Next(b, events[0]), Watch(log, b, events[0], Next(b, events[0])), events[1..]);
      } else {
        ObservedFits(b, log, events[1..]);
      }
    }
  }

  /** Nothing has been asked for or returned yet. */
  function Blank<T>(threads: seq<Thread<T>>): Log<T> {
    Log(seq(|threads|, i requires 0 <= i < |threads| => threads[i].v), [], [], seq(|threads|, _ => 0))
  }

  lemma BlankFits<T>(arr: seq<T>, threads: seq<Thread<T>>)
    requires |arr| > 0 && forall i {:trigger threads[i]} :: 0 <= i < |threads| ==> threads[i].pc == Outside
    ensures Fits(Initial(arr, threads), Blank(threads))
  {
    var b, log := Initial(arr, threads), Blank(threads);
    forall i: Tid {:trigger ThreadFits(b, log, i)} ensures ThreadFits(b, log, i) { assert i < |threads| ==> threads[i].pc == Outside; }
  }

  /** After any run from a new buffer the k-th get, in the order of the critical sections, returns
      what was passed to the k-th put, or has not returned; and once no get is on its way back, the
      values returned are a prefix of the values passed to put. */
  lemma GetsReturnPuts<T>(arr: seq<T>, threads: seq<Thread<T>>, events: seq<Event<T>>)
    requires |arr| > 0 && forall i {:trigger threads[i]} :: 0 <= i < |threads| ==> threads[i].pc == Outside
    ensures Inv(Initial(arr, threads)) && Fits(Initial(arr, threads), Blank(threads))
    ensures var b, log := RunFrom(Initial(arr, threads), events), Observed(Initial(arr, threads), Blank(threads), events);
      && |log.received| <= |log.sent| <= |log.received| + |b.arr|
      && (forall k {:trigger log.received[k]} :: 0 <= k < |log.received| && log.received[k].Some? ==> log.received[k].value == log.sent[k])
      && ((forall i {:trigger b.threads[i]} :: 0 <= i < |b.threads| ==> !PastFetch(b.threads[i].pc)) ==>
            forall k {:trigger log.received[k]} :: 0 <= k < |log.received| ==> log.received[k] == Some(log.sent[k]))
  {
    InitialInv(arr, threads);
    BlankFits(arr, threads);
    var b, log := RunFrom(Initial(arr, threads), events), Observed(Initial(arr, threads), Blank(threads), events);
    ObservedFits(Initial(arr, threads), Blank(threads), events);
    forall k {:trigger log.received[k]} | 0 <= k < |log.received|
      ensures log.received[k].Some? ==> log.received[k].value == log.sent[k]
      ensures (forall i {:trigger b.threads[i]} :: 0 <= i < |b.threads| ==> !PastFetch(b.threads[i].pc)) ==> log.received[k].Some?
    {
      assert PlaceFits(b, log, k);
    }
  }
}
