/** Process and Semaphore as they are written: global variables and process records changed
    statement by statement. A method that switches processes returns when the process that has
    been dispatched reaches its next stable moment. */
module SchedCode {
  import opened SchedModel
  import opened SchedSteps
  import opened SchedCalls

  class Kernel {
    var current: Option<Pid>
    var procs: map<Pid, Proc>
    var queues: map<QueueId, seq<Pid>>
    var counts: map<Sid, nat>
    var timers: seq<nat>
    var jiffies: nat
    var irqOn: bool
    const idle: Pid
    var panics: set<int>
    ghost var place: map<Pid, Place>

    ghost function View(): K
      reads this
    {
      K(current, procs, queues, counts, timers, jiffies, irqOn, idle, panics, place)
    }

    method DoDisable()
      requires current.Some? ==> current.value in procs
      modifies this
      ensures View() == Disable(old(View()))
    {
      irqOn := false;
      if current.Some? {
        var me := current.value;
        procs := procs[me := procs[me].(disableCount := procs[me].disableCount + 1)];
      }
    }

    method DoEnable()
      requires current.Some? ==> current.value in procs
      modifies this
      ensures View() == Enable(old(View()))
    {
      if current.Some? {
        var me := current.value;
        var c := procs[me].disableCount;
        if c == 0 {
          panics := panics + {480};
        } else if c == 1 {
          procs := procs[me := procs[me].(disableCount := 0)];
          irqOn := true;
        } else {
          procs := procs[me := procs[me].(disableCount := c - 1)];
        }
      }
    }

    /** A call is entered: its frame goes on the running process's stack. */
    method Enter(f: Frame)
      requires current.Some? && current.value in procs
      modifies this
      ensures View() == Push(old(View()), f)
    {
      var me := current.value;
      procs := procs[me := procs[me].(frames := procs[me].frames + [f])];
    }

    method LeaveFrame()
      requires current.Some? && current.value in procs && Top(View()).Some?
      modifies this
      ensures View() == Pop(old(View()))
    {
      var me := current.value;
      procs := procs[me := procs[me].(frames := procs[me].frames[..|procs[me].frames| - 1])];
    }

    method DoStartIrq()
      requires current.Some? ==> current.value in procs
      modifies this
      ensures View() == StartIrq(old(View()))
    {
      irqOn := false;
      if current == None {
        panics := panics + {493};
        return;
      }
      var me := current.value;
      procs := procs[me := procs[me].(iDepth := procs[me].iDepth + 1)];
      if procs[me].disableCount != 0 { panics := panics + {499}; }
      procs := procs[me := procs[me].(disableCount := 1)];
    }

    /** endIrq; the return from the interrupt switches interrupts on again. */
    method DoEndIrq()
      requires current.Some? ==> current.value in procs
      modifies this
      ensures View() == EndIrq(old(View()))
    {
      if current.Some? {
        var me := current.value;
        var depth := procs[me].iDepth;
        procs := procs[me := procs[me].(iDepth := if depth > 0 then depth - 1 else 0xffff_ffff)];
        if procs[me].disableCount != 1 { panics := panics + {511}; }
        procs := procs[me := procs[me].(disableCount := 0)];
      }
      irqOn := true;
    }

    /** After a dispatch: the process leaves the calls it was suspended in, innermost first. */
    method Resume()
      requires current.Some? && current.value in procs
      modifies this
      ensures View() == Unwind(old(View()))
    {
      while procs[current.value].frames != [] && Auto(procs[current.value].frames[|procs[current.value].frames| - 1])
        invariant current == old(current) && current.Some? && current.value in procs
        invariant Unwind(View()) == Unwind(old(View()))
        decreases |procs[current.value].frames|
      {
        var f := procs[current.value].frames[|procs[current.value].frames| - 1];
        LeaveFrame();
        if f == InIrq { DoEndIrq(); } else { DoEnable(); }
      }
    }

    /** makeReady, called with interrupts off, for a process that is not running. */
    method MakeReady(p: Pid)
      requires p in procs && Ready in queues && !irqOn
      requires current.Some? ==> current.value in procs && current.value != p && procs[current.value].disableCount > 0
      modifies this
      ensures View() == Wake(old(View()), p)
    {
      DoDisable();
      procs := procs[p := procs[p].(state := READY)];
      if p != idle {
        queues := queues[Ready := queues[Ready] + [p]];
        place := place[p := In(Ready)];
      } else {
        place := place[p := Idling];
      }
      DoEnable();
      assert View().procs == Wake(old(View()), p).procs;
    }

    method RemoveHead(q: QueueId) returns (p: Pid)
      requires q in queues && queues[q] != []
      modifies this
      ensures View() == Dequeue(old(View()), q) && p == old(queues[q][0])
    {
      p := queues[q][0];
      queues := queues[q := queues[q][1..]];
      place := place[p := Nowhere];
    }

    /** One turn of checkReaper's loop, a bracket of its own: the head of the reaper queue, if there
        is one, is let go. `gone` are those let go since the places were `before`. */
    method ReapOne(ghost before: map<Pid, Place>, ghost gone: set<Pid>) returns (found: bool)
      requires Reaper in queues && current.Some? && current.value in procs && irqOn == (procs[current.value].disableCount == 0)
      modifies this
      ensures var w := old(queues[Reaper]);
        && found == (w != [])
        && View() == if w == [] then old(View())
                     else old(View()).(queues := old(queues)[Reaper := w[1..]], place := Without(before, gone + {w[0]}))
    {
      hide Enable, Disable;
      ghost var turn := View();
      BracketPair(turn);
      DoDisable();
      found := queues[Reaper] != [];
      if found {
        var kill := queues[Reaper][0];
        queues := queues[Reaper := queues[Reaper][1..]];
        place := Without(before, gone + {kill});
        BracketAround(turn, queues, place);
      }
      DoEnable();
    }

    /** checkReaper. */
    method CheckReaper()
      requires Inv(View()) && current.Some? && irqOn == (procs[current.value].disableCount == 0)
      modifies this
      ensures View() == Reap(old(View()))
    {
      hide ProcOk, QueueOk, SemOk, TimersOk, Without;
      ghost var k := View();
      ghost var gone: set<Pid> := {};
      NobodyGone(k.place);
      var more := true;
      while more
        invariant Reaper in k.queues && Reaper in queues && current == k.current && procs == k.procs
        invariant View() == k.(queues := k.queues[Reaper := queues[Reaper]], place := Without(k.place, gone))
        invariant forall p {:trigger p in k.queues[Reaper]} :: p in k.queues[Reaper] <==> p in gone || p in queues[Reaper]
        invariant more || queues[Reaper] == []
        decreases |queues[Reaper]|, more
      {
        ghost var w := queues[Reaper];
        more := ReapOne(k.place, gone);
        if w != [] {
          assert w == [w[0]] + w[1..];
          gone := gone + {w[0]};
        }
      }
      AllReaped(k, gone);
    }

    lemma NobodyGone(m: map<Pid, Place>)
      ensures Without(m, {}) == m
    {
    }

    ghost function Without(m: map<Pid, Place>, gone: set<Pid>): map<Pid, Place> {
      map p | p in m :: if p in gone then Gone else m[p]
    }

    lemma AllReaped(k: K, gone: set<Pid>)
      requires Inv(k) && forall p {:trigger p in k.queues[Reaper]} :: p in k.queues[Reaper] <==> p in gone
      ensures Without(k.place, gone) == Reap(k).place
    {
      assert QueueOk(k, Reaper);
      forall p | p in k.place
        ensures p in gone <==> k.place[p] == In(Reaper)
      {
        assert p in k.queues[Reaper] <==> p in gone;
      }
    }

    /** disable immediately followed by enable changes nothing. */
    lemma BracketPair(k: K)
      requires k.current.Some? && k.current.value in k.procs && k.irqOn == (k.procs[k.current.value].disableCount == 0)
      ensures Enable(Disable(k)) == k && Disable(k).queues == k.queues && Disable(k).place == k.place && Disable(k).current == k.current
      ensures k.current.value in Disable(k).procs
    {
      assert Enable(Disable(k)).procs == k.procs;
    }
  
    /** So do changes to the queues in between, but for those themselves. */
    lemma BracketAround(k: K, qs: map<QueueId, seq<Pid>>, pl: map<Pid, Place>)
      requires k.current.Some? && k.current.value in k.procs && k.irqOn == (k.procs[k.current.value].disableCount == 0)
      ensures Enable(Disable(k).(queues := qs, place := pl)) == k.(queues := qs, place := pl)
    {
      assert Enable(Disable(k).(queues := qs, place := pl)).procs == k.procs;
    }

    /** dispatch, up to the next stable moment of the process that gets the CPU. */
    method Dispatch(next: Pid)
      requires Inv(View()) && current == None && next in place && (place[next] == Nowhere || place[next] == Idling)
      requires Inv(Run(View(), next))
      modifies this
      ensures next in old(procs) && Reaper in old(queues) && View() == Unwind(Reap(Run(old(View()), next)))
    {
      procs := procs[next := procs[next].(state := RUNNING)];
      place := place[next := Cpu];
      current := Some(next);
      irqOn := procs[next].disableCount == 0;
      CheckReaper();
      Resume();
    }

    /** The second half of yield. */
    method PickNext()
      requires Vacant(View())
      modifies this
      ensures View() == Pick(old(View()))
    {
      PickChosen(View());
      ghost var k := View();
      var next := idle;
      if queues[Ready] != [] {
        DequeueInv(k, Ready);
        RunInv(Dequeue(k, Ready), Next(k));
        next := RemoveHead(Ready);
      } else {
        assert ProcOk(k, idle);
        RunInv(k, idle);
      }
      Dispatch(next);
    }

    /** A process that blocks is not inside an interrupt handler. */
    lemma BlockingDepth(q: QueueId)
      requires MaySuspend(View(), q) && q != Ready
      ensures View().procs[View().current.value].iDepth == 0
    {
      var k := View();
      var fs := k.procs[k.current.value].frames;
      assert ProcOk(k, k.current.value);
      NoIrqs(fs);
    }

    method CheckDepth(me: Pid)
      requires me in procs
      modifies this
      ensures View() == if old(procs[me].iDepth) == 0 then old(View()) else old(View()).(panics := old(panics) + {367})
    {
      if procs[me].iDepth != 0 { panics := panics + {367}; }
    }

    /** me->makeReady() by the running process itself. */
    method ReadyMe(me: Pid)
      requires current == Some(me) && me in procs && Ready in queues && !irqOn && procs[me].disableCount > 0
      modifies this
      ensures View() == if me == idle then Rest(old(View())) else Leave(old(View()), Ready)
    {
      DoDisable();
      procs := procs[me := procs[me].(state := READY)];
      if me != idle {
        queues := queues[Ready := queues[Ready] + [me]];
        place := place[me := In(Ready)];
      } else {
        place := place[me := Idling];
      }
      DoEnable();
      current := None;
    }

    method BlockMe(me: Pid, q: QueueId)
      requires current == Some(me) && me in procs && q in queues && procs[me].iDepth == 0 && (q.Waiters? || q.Sleepers?)
      modifies this
      ensures View() == Leave(old(View()), q)
    {
      CheckDepth(me);
      procs := procs[me := procs[me].(state := BLOCKED)];
      queues := queues[q := queues[q] + [me]];
      place := place[me := In(q)];
      current := None;
    }

    lemma OpenFacts(q: QueueId)
      requires MaySuspend(View(), q)
      ensures var open := Open(View(), InYield);
        && View().current.Some? && View().current.value in View().procs && open.current == View().current
        && View().current.value in open.procs && open.procs[View().current.value].disableCount > 0
        && open.procs[View().current.value].iDepth == View().procs[View().current.value].iDepth
        && Ready in open.queues && q in open.queues && !open.irqOn && (q == Ready || q.Waiters? || q.Sleepers?)
    {
      OpenInv(View(), InYield);
    }

    /** yield(q), q being the ready queue for yield(). */
    method YieldOn(q: QueueId)
      requires MaySuspend(View(), q)
      modifies this
      ensures View() == YieldTo(old(View()), q)
    {
      hide MaySuspend, Rest, Leave, Vacant, Pick;
      SuspendVacant(View(), q);
      OpenFacts(q);
      if q != Ready { BlockingDepth(q); }
      DoDisable();
      Enter(InYield);
      var me := current.value;
      if q == Ready { ReadyMe(me); } else { BlockMe(me, q); }
      PickNext();
    }
  
    /** Semaphore::down. */
    method SemDown(s: Sid)
      requires Stable(View()) && s in counts && current.value != idle
      modifies this
      ensures View() == Down(old(View()), s) && Stable(View())
    {
      hide Stable, Open, MaySuspend, YieldTo, Unwind;
      DownStable(View(), s);
      DownParts(View(), s);
      StableCall(View());
      DoDisable();
      Enter(InDown);
      OpenIs(old(View()), InDown);
      if counts[s] == 0 {
        YieldOn(Waiters(s));
      } else {
        counts := counts[s := counts[s] - 1];
        Resume();
      }
    }

    lemma StableCall(k: K)
      requires Stable(k)
      ensures k.current.Some? && k.current.value in k.procs && Ready in k.queues
    {
    }

    lemma OpenIs(k: K, f: Frame)
      requires k.current.Some? && k.current.value in k.procs
      ensures Push(Disable(k), f) == Open(k, f) && Open(k, f).counts == k.counts && Open(k, f).queues == k.queues
      ensures Open(k, f).current == k.current && k.current.value in Open(k, f).procs && Open(k, f).jiffies == k.jiffies
      ensures Open(k, f).timers == k.timers && Open(k, f).idle == k.idle && !Open(k, f).irqOn
      ensures Open(k, f).procs[k.current.value].disableCount > 0
    {
    }

    /** Semaphore::up. */
    method SemUp(s: Sid)
      requires Stable(View()) && s in counts
      modifies this
      ensures View() == Up(old(View()), s) && Stable(View())
    {
      hide Stable, Open, UpBody, Inv, Settled;
      ghost var k := View();
      StableCall(k);
      UpStable(k, s);
      UpParts(k, s);
      OpenIs(k, Held);
      DoDisable();
      Enter(Held);
      GiveToken(s);
      LeaveFrame();
      DoEnable();
    }

    /** The token goes to the first waiter, or to the count. */
    method GiveToken(s: Sid)
      requires Inv(View()) && current.Some? && !irqOn && current.value in procs && procs[current.value].disableCount > 0
      requires s in counts && Waiters(s) in queues && Ready in queues && (queues[Waiters(s)] != [] ==> queues[Waiters(s)][0] in procs)
      modifies this
      ensures View() == UpBody(old(View()), s)
    {
      hide Wake, Dequeue, Inv;
      if queues[Waiters(s)] == [] {
        counts := counts[s := counts[s] + 1];
      } else {
        WakeParts(View(), Waiters(s));
        var p := RemoveHead(Waiters(s));
        MakeReady(p);
      }
    }

    lemma UpParts(k: K, s: Sid)
      requires Stable(k) && s in k.counts
      ensures Waiters(s) in k.queues && Inv(Open(k, Held)) && Settled(Open(k, Held))
      ensures Waiters(s) in Open(k, Held).queues && Ready in Open(k, Held).queues && s in Open(k, Held).counts
      ensures Open(k, Held).queues[Waiters(s)] != [] ==> Open(k, Held).queues[Waiters(s)][0] in Open(k, Held).procs
      ensures var b := UpBody(Open(k, Held), s);
        b.current == k.current && k.current.Some? && k.current.value in b.procs && Top(b) == Some(Held) && Up(k, s) == Enable(Pop(b))
    {
      OpenInv(k, Held);
      UpBodyInv(Open(k, Held), s);
    }

    /** The head of a queue is not the running process and not the idle process. */
    lemma WakeParts(k: K, q: QueueId)
      requires Inv(k) && k.current.Some? && q in k.queues && k.queues[q] != [] && q != Reaper
      ensures k.queues[q][0] in k.procs && k.queues[q][0] != k.idle && k.queues[q][0] != k.current.value
      ensures k.current.value in Dequeue(k, q).procs && Dequeue(k, q).procs == k.procs && Dequeue(k, q).current == k.current
      ensures Ready in Dequeue(k, q).queues && Dequeue(k, q).irqOn == k.irqOn
    {
      DequeueInv(k, q);
    }
  
    /** k with one more bracket counted for the running process, and the clock and the timers of
        the tick that is under way. */
    function Ticking(k: K, jiffies: nat, timers: seq<nat>): K
      requires k.current.Some? ==> k.current.value in k.procs
    {
      Disable(k).(jiffies := jiffies, timers := timers)
    }

    /** Waking a sleeper inside tick's own bracket is waking it outside. */
    lemma WakeTicking(w: K, j: nat, ts: seq<nat>, t: nat)
      requires Inv(w) && w.current.Some? && !w.irqOn && Sleepers(t) in w.queues && w.queues[Sleepers(t)] != []
      ensures w.current.value in w.procs && Ticking(w, j, ts).queues == w.queues
      ensures var p, v := w.queues[Sleepers(t)][0], Dequeue(Ticking(w, j, ts), Sleepers(t));
        && p in w.procs && p in Dequeue(w, Sleepers(t)).procs && Ready in Dequeue(w, Sleepers(t)).queues
        && p != w.idle && p != w.current.value && p in v.procs && Ready in v.queues && v.idle == w.idle
        && v.current == w.current && w.current.value in v.procs && v.procs[w.current.value].disableCount > 0 && !v.irqOn
        && Wake(v, p) == Ticking(Wake(Dequeue(w, Sleepers(t)), p), j, ts)
    {
      hide Inv, Wake, Ticking, Disable;
      WakeParts(w, Sleepers(t));
      TickingIs(w, j, ts);
      TickingCount(w, j, ts);
      WakeCommutes(w, Sleepers(t), w.queues[Sleepers(t)][0], j, ts);
    }

    lemma TickingCount(w: K, j: nat, ts: seq<nat>)
      requires w.current.Some? && w.current.value in w.procs
      ensures var v := Ticking(w, j, ts);
        v.procs.Keys == w.procs.Keys && v.idle == w.idle && !v.irqOn && v.procs[w.current.value].disableCount > 0
    {
    }

    lemma WakeCommutes(w: K, q: QueueId, p: Pid, j: nat, ts: seq<nat>)
      requires w.current.Some? && w.current.value in w.procs && p in w.procs && p != w.current.value && p != w.idle
      requires q in w.queues && w.queues[q] != [] && Ready in Dequeue(w, q).queues && q in Ticking(w, j, ts).queues && Ticking(w, j, ts).queues == w.queues
      ensures Dequeue(w, q).current == w.current && p in Dequeue(Ticking(w, j, ts), q).procs && Ready in Dequeue(Ticking(w, j, ts), q).queues
      ensures Wake(Dequeue(w, q), p).current == w.current && w.current.value in Wake(Dequeue(w, q), p).procs
      ensures Wake(Dequeue(Ticking(w, j, ts), q), p) == Ticking(Wake(Dequeue(w, q), p), j, ts)
    {
      assert Wake(Dequeue(Ticking(w, j, ts), q), p).procs == Ticking(Wake(Dequeue(w, q), p), j, ts).procs;
    }

    /** tick's bracket closes again. */
    lemma EndTicking(w: K, j: nat, ts: seq<nat>)
      requires w.current.Some? && w.current.value in w.procs && w.procs[w.current.value].disableCount > 0 && !w.irqOn
      ensures Enable(Ticking(w, j, ts)) == w.(jiffies := j, timers := ts)
    {
      assert Enable(Ticking(w, j, ts)).procs == w.procs;
    }

    lemma InsideCount(k: K, f: Frame)
      requires Inside(k, f) && IsBracket(f) == 1
      ensures k.current.Some? && k.current.value in k.procs && k.procs[k.current.value].disableCount > 0 && !k.irqOn
    {
      assert ProcOk(k, k.current.value);
    }

    lemma DueTimer(k: K)
      requires Inv(k) && k.timers != []
      ensures Sleepers(k.timers[0]) in k.queues
    {
      assert k.timers[0] in k.timers;
    }

    /** The loop of tick. */
    method WakeSleepers(t: nat, ghost k: K)
      requires Inv(k) && Settled(k) && k.current.Some? && !k.irqOn && k.procs[k.current.value].disableCount > 0
      requires Sleepers(t) in k.queues && View() == Ticking(k, jiffies, timers)
      modifies this
      ensures View() == Ticking(WakeAll(k, t), old(jiffies), old(timers))
    {
      hide Wake, Dequeue, Ticking, Inv, Settled;
      ghost var w := k;
      InvProcs(k);
      TickingIs(w, jiffies, timers);
      while queues[Sleepers(t)] != []
        invariant Inv(w) && Settled(w) && Sleepers(t) in w.queues && w.current == k.current && !w.irqOn && w.current.Some?
        invariant w.current.value in w.procs && w.procs[w.current.value].disableCount > 0
        invariant View() == Ticking(w, old(jiffies), old(timers)) && queues == w.queues
        invariant WakeAll(w, t) == WakeAll(k, t)
        decreases |queues[Sleepers(t)]|
      {
        WakeTicking(w, old(jiffies), old(timers), t);
        WakeHead(w, t);
        var p := RemoveHead(Sleepers(t));
        MakeReady(p);
        w := Wake(Dequeue(w, Sleepers(t)), p);
        TickingIs(w, old(jiffies), old(timers));
      }
    }

    lemma TickingIs(w: K, j: nat, ts: seq<nat>)
      requires w.current.Some? && w.current.value in w.procs
      ensures var v := Ticking(w, j, ts);
        && v.queues == w.queues && v.jiffies == j && v.timers == ts && v.current == w.current && w.current.value in v.procs
    {
    }

    lemma InvProcs(k: K)
      requires Inv(k) && k.current.Some?
      ensures k.current.value in k.procs
    {
    }

    lemma TickRests(k: K)
      requires Inside(k, InIrq) && Settled(k) && !Due(k)
      ensures Inv(k) && TickBody(k) == k.(jiffies := k.jiffies + 1)
    {
    }

    lemma TickFires(k: K)
      requires Inside(k, InIrq) && Settled(k) && k.timers != [] && k.timers[0] == k.jiffies + 1
      ensures Inv(k) && k.current.Some? && !k.irqOn && k.current.value in k.procs && k.procs[k.current.value].disableCount > 0
      ensures Sleepers(k.timers[0]) in k.queues
      ensures var q, w := Sleepers(k.timers[0]), WakeAll(k, k.timers[0]);
        var v := Ticking(w, k.jiffies + 1, k.timers[1..]);
        && v.queues == w.queues && v.current == k.current && k.current.value in v.procs
        && Enable(v.(queues := w.queues - {q})) == TickBody(k)
    {
      hide ProcOk, QueueOk, SemOk, TimersOk, Distinct;
      InsideCount(k, InIrq);
      DueTimer(k);
      WakeAllInv(k, k.timers[0]);
      var w := WakeAll(k, k.timers[0]);
      EndTicking(w, k.jiffies + 1, k.timers[1..]);
    }

    lemma DropFirst(w: K, j: nat, ts: seq<nat>, left: seq<nat>)
      requires w.current.Some? && w.current.value in w.procs
      ensures Ticking(w, j, ts).(timers := left) == Ticking(w, j, left)
    {
    }

    /** The clock advances, and tick's bracket is opened. */
    method Advance()
      requires current.Some? ==> current.value in procs
      modifies this
      ensures View() == Ticking(old(View()), old(jiffies) + 1, old(timers))
    {
      jiffies := jiffies + 1;
      DoDisable();
    }

    /** The clock advances and a due timer goes off: Pit::handler and Process::tick. */
    method Tick()
      requires Inside(View(), InIrq) && Settled(View())
      modifies this
      ensures View() == TickBody(old(View()))
    {
      hide WakeAll, TickBody, Inside, Inv, Settled, Ticking, Enable;
      ghost var k := View();
      InsideCount(k, InIrq);
      TickingIs(k, jiffies + 1, timers);
      if timers != [] && timers[0] == jiffies + 1 { TickFires(k); } else { TickRests(k); }
      Advance();
      if timers != [] {
        var first := timers[0];
        if jiffies == first {
          DropFirst(k, jiffies, timers, timers[1..]);
          timers := timers[1..];
          WakeSleepers(first, k);
          queues := queues - {Sleepers(first)};
          DoEnable();
          return;
        }
      }
      EndTicking(k, jiffies, timers);
      DoEnable();
    }
  
    /** pic_irq: the timer's handler for interrupt 0 and none otherwise, then yield. endIrq
        happens when the interrupted process runs again. */
    method PicIrq(irq: int)
      requires Stable(View()) && irqOn
      modifies this
      ensures View() == Irq(old(View()), irq == 0) && Stable(View())
    {
      hide Stable, Inside, TickBody, YieldTo, MaySuspend;
      ghost var k := View();
      StableCall(k);
      IrqStable(k, irq == 0);
      IrqParts(k, irq == 0);
      DoStartIrq();
      Enter(InIrq);
      if irq == 0 { Tick(); }
      YieldOn(Ready);
    }

    lemma IrqParts(k: K, tick: bool)
      requires Stable(k) && k.irqOn
      ensures k.current.Some? && k.current.value in k.procs && k.current.value in StartIrq(k).procs && StartIrq(k).current == k.current
      ensures Inside(EnterIrq(k), InIrq) && Settled(EnterIrq(k))
      ensures var mid := if tick then TickBody(EnterIrq(k)) else EnterIrq(k); MaySuspend(mid, Ready) && Irq(k, tick) == YieldTo(mid, Ready)
    {
      EnterIrqInv(k);
      TickBodyInv(EnterIrq(k));
    }

    /** The walk along the timer list in sleepUntil: the place for the target, and whether a timer
        for it exists. */
    method FindTimer(target: nat) returns (i: nat, found: bool)
      requires Increasing(timers)
      ensures i <= |timers| && (found <==> target in timers)
      ensures Insert(timers, target) == if found then timers else timers[..i] + [target] + timers[i..]
    {
      i := 0;
      while i < |timers| && timers[i] < target
        invariant i <= |timers| && forall j {:trigger timers[j]} :: 0 <= j < i ==> timers[j] < target
      {
        i := i + 1;
      }
      found := i < |timers| && timers[i] == target;
      InsertAt(timers, target, i);
      if target in timers {
        var j :| 0 <= j < |timers| && timers[j] == target;
        assert i <= j;
      }
    }

    lemma {:induction false} InsertAt(ts: seq<nat>, t: nat, i: nat)
      requires i <= |ts| && (forall j {:trigger ts[j]} :: 0 <= j < i ==> ts[j] < t) && (i < |ts| ==> t <= ts[i])
      ensures Insert(ts, t) == if i < |ts| && ts[i] == t then ts else ts[..i] + [t] + ts[i..]
    {
      if i > 0 {
        InsertAt(ts[1..], t, i - 1);
        Behind(ts, t, i);
      } else {
        assert ts[..0] + [t] + ts[0..] == [t] + ts;
      }
    }

    /** The list with its first target put back. */
    lemma Behind(ts: seq<nat>, t: nat, i: nat)
      requires 0 < i <= |ts|
      ensures [ts[0]] + ts[1..] == ts && [ts[0]] + (ts[1..][..i - 1] + [t] + ts[1..][i - 1..]) == ts[..i] + [t] + ts[i..]
    {
    }

    /** Process::sleepUntil; hz is the tick rate. */
    method SleepUntilMillis(millis: nat, hz: nat)
      requires Stable(View()) && current.value != idle
      modifies this
      ensures View() == SleepUntil(old(View()), millis * hz / 1000) && Stable(View())
    {
      hide Stable, Inside, YieldTo, MaySuspend, Unwind, Insert, Open;
      ghost var k := View();
      var target := millis * hz / 1000;
      StableCall(k);
      SleepStable(k, target);
      SleepWalk(k, target);
      OpenIs(k, InSleep);
      DoDisable();
      Enter(InSleep);
      if target > jiffies {
        var i, found := FindTimer(target);
        if !found {
          timers := timers[..i] + [target] + timers[i..];
          queues := queues[Sleepers(target) := []];
        }
        YieldOn(Sleepers(target));
      } else {
        Resume();
      }
    }

    lemma SleepWalk(k: K, target: nat)
      requires Stable(k) && k.current.value != k.idle
      ensures k.current.Some? && k.current.value in k.procs && Increasing(k.timers)
      ensures Sleepers(target) in k.queues <==> target in k.timers
      ensures target > k.jiffies ==>
        MaySuspend(AddTimer(Open(k, InSleep), target), Sleepers(target))
        && SleepUntil(k, target) == YieldTo(AddTimer(Open(k, InSleep), target), Sleepers(target))
      ensures target <= k.jiffies ==> SleepUntil(k, target) == Unwind(Open(k, InSleep))
    {
      SleepParts(k, target);
    }

    /** The last statements of exit, for a process whose done event has been signalled. */
    method ExitTail()
      requires Stable(View()) && current.value != idle
      modifies this
      ensures View() == Die(old(View())) && Stable(View())
    {
      hide Stable, Vacant, Pick;
      ghost var k := View();
      StableCall(k);
      DieStable(k);
      DieVacant(k);
      var p := current.value;
      DoDisable();
      Enter(Held);
      queues := queues[Reaper := queues[Reaper] + [p]];
      place := place[p := In(Reaper)];
      procs := procs[p := procs[p].(state := TERMINATED)];
      current := None;
      DoDisable();
      PickNext();
    }
  }
}
