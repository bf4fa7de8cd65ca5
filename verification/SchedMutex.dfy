/** A semaphore used as a mutex: who holds it, over whole runs. */
module SchedMutex {
  import opened SchedModel
  import opened SchedSteps
  import opened SchedCalls
  import opened SchedRuns
  import opened SchedTheorems
  import opened SchedSync
  import opened SchedEvents

  /** The downs on s that p has called in the first j steps, less its ups. */
  ghost function Called(ks: seq<K>, ops: seq<Op>, s: Sid, p: Pid, j: nat): int
    requires RunFrom(ks, ops) && j <= |ops|
  {
    if j == 0 then 0
    else
      RunStable(ks, ops, j - 1);
      Called(ks, ops, s, p, j - 1) + if ks[j - 1].current == Some(p) then Downs(ops[j - 1], s) - Ups(ks[j - 1], ops[j - 1], s) else 0
  }

  /** How often p holds s after j steps: the downs that have let it past, less its ups. */
  ghost function Holds(ks: seq<K>, ops: seq<Op>, s: Sid, p: Pid, j: nat): int
    requires RunFrom(ks, ops) && j <= |ops|
  {
    Called(ks, ops, s, p, j) - Member(QueueOf(ShapeOf(ks[j]), s), p)
  }

  /** Whoever unlocks holds the lock. */
  ghost predicate OnlyHoldersUnlock(ks: seq<K>, ops: seq<Op>, s: Sid)
    requires RunFrom(ks, ops)
  {
    forall i {:trigger ops[i]} :: 0 <= i < |ops| ==>
      (RunStable(ks, ops, i); Ups(ks[i], ops[i], s) == 1 ==> ks[i].current.Some? && Holds(ks, ops, s, ks[i].current.value, i) >= 1)
  }

  /** Nobody holds s and it is free, or one process holds it once and it is not free. */
  ghost predicate FreeOrHeld(ks: seq<K>, ops: seq<Op>, s: Sid, j: nat)
    requires RunFrom(ks, ops) && j <= |ops|
  {
    && s in ks[j].counts
    && ((ks[j].counts[s] == 1 && forall p {:trigger Holds(ks, ops, s, p, j)} :: Holds(ks, ops, s, p, j) == 0)
        || (ks[j].counts[s] == 0 && exists h {:trigger Holds(ks, ops, s, h, j)} :: HeldBy(ks, ops, s, j, h)))
  }

  ghost predicate HeldBy(ks: seq<K>, ops: seq<Op>, s: Sid, j: nat, h: Pid)
    requires RunFrom(ks, ops) && j <= |ops|
  {
    forall p {:trigger Holds(ks, ops, s, p, j)} :: Holds(ks, ops, s, p, j) == if p == h then 1 else 0
  }

  /** What a step does to the queue and the count of s, all in one. */
  lemma LockStep(k: K, op: Op, s: Sid)
    requires Stable(k) && Legal(k, op) && s in k.counts
    ensures var t, w := Step(k, op), QueueOf(ShapeOf(k), s);
      && s in t.counts && QueueOf(ShapeOf(t), s) == QueueAfter(k, op, s)
      && t.counts[s] == k.counts[s] + (if Ups(k, op, s) == 1 && w == [] then 1 else 0) - (if Downs(op, s) == 1 && k.counts[s] > 0 then 1 else 0)
    ensures k.counts[s] > 0 ==> QueueOf(ShapeOf(k), s) == []
    ensures k.current.Some? && k.current.value !in QueueOf(ShapeOf(k), s) && Distinct(QueueOf(ShapeOf(k), s))
    ensures (Ups(k, op, s) == 0 || Ups(k, op, s) == 1) && (Downs(op, s) == 0 || Downs(op, s) == 1) && Ups(k, op, s) * Downs(op, s) == 0
  {
    hide Stable, Legal, Step, ShapeOf, Balance;
    CurrentThere(k);
    StepQueue(k, op, s);
    StepBalance(k, op, s);
    WaitersApart(k, s);
    BalanceQueue(k, s);
    BalanceQueue(Step(k, op), s);
  }

  lemma BalanceQueue(k: K, s: Sid)
    requires s in ShapeOf(k).counts && Waiters(s) in ShapeOf(k).queues
    ensures s in k.counts && Balance(ShapeOf(k), s) == k.counts[s] - |QueueOf(ShapeOf(k), s)|
  {
  }

  lemma WaitersApart(k: K, s: Sid)
    requires Stable(k) && s in k.counts
    ensures Distinct(QueueOf(ShapeOf(k), s)) && s in ShapeOf(k).counts && Waiters(s) in ShapeOf(k).queues && (k.counts[s] > 0 ==> QueueOf(ShapeOf(k), s) == [])
  {
    assert SemOk(k, s) && QueueOk(k, Waiters(s));
  }

  /** The balance of one process over a step: only the caller's calls count, and only the caller
      enters the queue or its head leaves it. */
  lemma HoldsStep(ks: seq<K>, ops: seq<Op>, s: Sid, j: nat, p: Pid)
    requires RunFrom(ks, ops) && j < |ops| && s in ks[j].counts
    ensures Stable(ks[j]) && Legal(ks[j], ops[j]) && ks[j].current.Some?
    ensures var k, op, w := ks[j], ops[j], QueueOf(ShapeOf(ks[j]), s);
      var me := k.current.value;
      Holds(ks, ops, s, p, j + 1) == Holds(ks, ops, s, p, j)
        + (if p == me && Downs(op, s) == 1 && k.counts[s] > 0 then 1 else 0)
        - (if p == me && Ups(k, op, s) == 1 then 1 else 0)
        + (if Ups(k, op, s) == 1 && w != [] && w[0] == p then 1 else 0)
  {
    hide Stable, Legal, Step, ShapeOf, Ups, Downs;
    RunStable(ks, ops, j);
    LockStep(ks[j], ops[j], s);
    MemberTail(QueueOf(ShapeOf(ks[j]), s), p);
  }

  lemma MemberTail(w: seq<Pid>, p: Pid)
    requires Distinct(w)
    ensures w != [] ==> Member(w[1..], p) == Member(w, p) - (if w[0] == p then 1 else 0)
  {
    if w != [] { assert w == [w[0]] + w[1..]; }
  }

  lemma HolderOf(ks: seq<K>, ops: seq<Op>, s: Sid, j: nat, h: Pid)
    requires RunFrom(ks, ops) && j <= |ops| && HeldBy(ks, ops, s, j, h)
    ensures forall p {:trigger Holds(ks, ops, s, p, j)} :: Holds(ks, ops, s, p, j) == if p == h then 1 else 0
  {
  }

  /** A lock that starts free stays free or held by one process. */
  lemma {:induction false} RunFreeOrHeld(ks: seq<K>, ops: seq<Op>, s: Sid, j: nat)
    requires RunFrom(ks, ops) && j <= |ops| && s in ks[0].counts && ks[0].counts[s] == 1
    requires OnlyHoldersUnlock(ks, ops, s)
    ensures FreeOrHeld(ks, ops, s, j)
  {
    hide Stable, Legal, Step, ShapeOf, Holds, FreeOrHeld;
    if j == 0 {
      StartsFree(ks, ops, s);
    } else {
      RunFreeOrHeld(ks, ops, s, j - 1);
      StaysFreeOrHeld(ks, ops, s, j - 1);
    }
  }

  lemma StartsFree(ks: seq<K>, ops: seq<Op>, s: Sid)
    requires RunFrom(ks, ops) && s in ks[0].counts && ks[0].counts[s] == 1
    ensures FreeOrHeld(ks, ops, s, 0)
  {
    hide Stable, Legal, Step, ShapeOf;
    WaitersApart(ks[0], s);
  }

  lemma StaysFreeOrHeld(ks: seq<K>, ops: seq<Op>, s: Sid, j: nat)
    requires RunFrom(ks, ops) && j < |ops| && FreeOrHeld(ks, ops, s, j) && OnlyHoldersUnlock(ks, ops, s)
    ensures FreeOrHeld(ks, ops, s, j + 1)
  {
    hide Stable, Legal, Step, ShapeOf, Holds, Ups, Downs;
    RunStable(ks, ops, j);
    var k, op := ks[j], ops[j];
    LockStep(k, op, s);
    var w, me := QueueOf(ShapeOf(k), s), k.current.value;
    forall p {:trigger Holds(ks, ops, s, p, j + 1)}
      ensures Holds(ks, ops, s, p, j + 1) == Holds(ks, ops, s, p, j)
        + (if p == me && Downs(op, s) == 1 && k.counts[s] > 0 then 1 else 0)
        - (if p == me && Ups(k, op, s) == 1 then 1 else 0)
        + (if Ups(k, op, s) == 1 && w != [] && w[0] == p then 1 else 0)
    {
      HoldsStep(ks, ops, s, j, p);
    }
    if k.counts[s] == 1 {
      assert Holds(ks, ops, s, me, j) == 0;
      if Downs(op, s) == 1 { assert Holds(ks, ops, s, me, j + 1) == 1 && HeldBy(ks, ops, s, j + 1, me); }
    } else {
      var h :| HeldBy(ks, ops, s, j, h);
      HolderOf(ks, ops, s, j, h);
      if Ups(k, op, s) == 0 {
        forall p {:trigger Holds(ks, ops, s, p, j + 1)} ensures Holds(ks, ops, s, p, j + 1) == if p == h then 1 else 0 {}
        assert Holds(ks, ops, s, h, j + 1) == 1 && HeldBy(ks, ops, s, j + 1, h);
      } else if w != [] {
        forall p {:trigger Holds(ks, ops, s, p, j + 1)} ensures Holds(ks, ops, s, p, j + 1) == if p == w[0] then 1 else 0 {}
        assert Holds(ks, ops, s, w[0], j + 1) == 1 && HeldBy(ks, ops, s, j + 1, w[0]);
      }
    }
  }

  /** A mutex: in every state of every run from one in which it is free, provided that only a process
      that holds it unlocks it, nobody holds it more than once, two holders are the same process, it
      is free exactly if nobody holds it, and whoever waits for it waits for a holder. */
  lemma OneHolder(ks: seq<K>, ops: seq<Op>, s: Sid, j: nat)
    requires RunFrom(ks, ops) && j <= |ops| && s in ks[0].counts && ks[0].counts[s] == 1
    requires OnlyHoldersUnlock(ks, ops, s)
    ensures forall p {:trigger Holds(ks, ops, s, p, j)} :: 0 <= Holds(ks, ops, s, p, j) <= 1
    ensures forall p, r {:trigger Holds(ks, ops, s, p, j), Holds(ks, ops, s, r, j)} :: Holds(ks, ops, s, p, j) > 0 && Holds(ks, ops, s, r, j) > 0 ==> p == r
    ensures s in ks[j].counts && (ks[j].counts[s] == 1 <==> forall p {:trigger Holds(ks, ops, s, p, j)} :: Holds(ks, ops, s, p, j) == 0)
    ensures QueueOf(ShapeOf(ks[j]), s) != [] ==> exists h {:trigger Holds(ks, ops, s, h, j)} :: Holds(ks, ops, s, h, j) == 1
  {
    hide Stable, Legal, Step, ShapeOf, Holds;
    RunFreeOrHeld(ks, ops, s, j);
    RunStable(ks, ops, j);
    WaitersApart(ks[j], s);
    if ks[j].counts[s] == 0 {
      var h :| HeldBy(ks, ops, s, j, h);
      assert Holds(ks, ops, s, h, j) == 1;
    }
  }
}
