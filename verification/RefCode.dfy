/** Resources and tables as the code has them: counts and slots updated in place, loop by loop. */
module RefCode {
  import R = RefRuns
  import opened RefModel
  import opened RefSteps
  import opened RefRuns
  import opened RefFork

  class Resources {
    var objs: seq<Obj>
    var tables: seq<Table>
    var files: seq<OpenFile>
    var dirs: seq<nat>

    ghost function View(): World
      reads this
    {
      World(objs, tables, files, dirs)
    }

    ghost predicate Valid()
      reads this
    {
      Inv(View())
    }

    /** Before the first process, with a file system of n blocks. */
    constructor (n: nat)
      ensures Valid() && Fresh(View()) && |files| == n
    {
      objs, tables := [], [];
      files := seq(n, _ => OpenFile(false, 0, 0, 0));
      dirs := seq(n, _ => 0);
    }

    /** Resource::ref. */
    method Reference(o: nat)
      requires o < |objs|
      modifies this`objs
      ensures View() == AddRef(old(View()), o)
    {
      objs := objs[o := objs[o].(count := objs[o].count + 1, held := true)];
    }

    /** Resource::unref; the destructor runs when the count was 1. */
    method Unreference(o: nat) returns (gone: bool)
      requires o < |objs| && objs[o].count > 0
      modifies this`objs, this`tables, this`files
      ensures View() == Unref(old(View()), o) && gone == (old(objs[o].count) == 1)
    {
      var before := objs[o].count;
      objs := objs[o := objs[o].(count := before - 1)];
      gone := before == 1;
      if gone {
        objs := objs[o := objs[o].(deletes := objs[o].deletes + 1)];
        match objs[o].kind {
          case Semaphore =>
          case Handle(start) => CloseOpenFile(start);
          case Process(t) => UnreferenceTable(t);
        }
      }
    }

    /** Fat439::closeFile. */
    method CloseOpenFile(start: nat)
      modifies this`files
      ensures View() == CloseFile(old(View()), start)
    {
      if start < |files| && files[start].present && files[start].count > 0 {
        var f := files[start];
        files := files[start := f.(count := f.count - 1)];
        if f.count == 1 { files := files[start := OpenFile(false, 0, f.made, f.deletes + 1)]; }
      }
    }

    method UnreferenceTable(t: nat)
      modifies this`tables
      ensures View() == DropTable(old(View()), t)
    {
      if t < |tables| && tables[t].count > 0 {
        var x := tables[t];
        tables := tables[t := x.(count := x.count - 1, deletes := if x.count == 1 then x.deletes + 1 else x.deletes)];
      }
    }

    /** Table::open. */
    method TableOpen(t: nat, o: nat) returns (i: int)
      requires Valid() && InUse(View(), t) && o < |objs| && objs[o].deletes == 0
      requires objs[o].kind.Handle? ==> Refs(tables, o) == 0
      modifies this`objs, this`tables
      ensures Valid() && (View(), i) == Open(old(View()), t, o)
    {
      OpenInv(View(), t, o);
      ghost var w := View();
      i := 1;
      while i < |tables[t].slots|
        invariant 1 <= i && View() == w && FirstFree(tables[t].slots, 1) == FirstFree(tables[t].slots, i)
        decreases |tables[t].slots| - i
      {
        if tables[t].slots[i] == Null {
          Reference(o);
          tables := tables[t := tables[t].(slots := tables[t].slots[i := Ref(o)])];
          return;
        }
        i := i + 1;
      }
      i := ERR_NO_ID;
    }

    /** The body of close and of closeAll: the reference is dropped, then the slot is cleared. */
    method ClearOne(t: nat, i: nat)
      requires Valid() && t < |tables| && i < |tables[t].slots|
      modifies this`objs, this`tables, this`files
      ensures Valid() && View() == Clear(old(View()), t, i)
    {
      ghost var w := View();
      ClearInv(w, t, i);
      ClearSlots(w, t, i);
      if tables[t].slots[i].Ref? {
        var o := tables[t].slots[i].o;
        HandleHeldOnce(w, t, i);
        UnrefThenClear(w, t, i);
        var gone := Unreference(o);
        tables := tables[t := tables[t].(slots := tables[t].slots[i := Null])];
      }
    }

    /** Table::close. */
    method TableClose(t: nat, i: int) returns (code: int)
      requires Valid() && t < |tables|
      modifies this`objs, this`tables, this`files
      ensures Valid() && (View(), code) == Close(old(View()), t, i)
    {
      if i < 0 || i >= |tables[t].slots| { return ERR_INVALID_ID; }
      var empty := tables[t].slots[i] == Null;
      ClearOne(t, i);
      code := if empty then ERR_INVALID_ID else 0;
    }

    /** Table::closeAll. */
    method TableCloseAll(t: nat)
      requires Valid() && t < |tables|
      modifies this`objs, this`tables, this`files
      ensures Valid() && View() == CloseAll(old(View()), t, |old(tables[t].slots)|)
    {
      ghost var w := View();
      var n := |tables[t].slots|;
      var i := 0;
      while i < n
        invariant 0 <= i <= n && Valid() && View() == CloseAll(w, t, i)
        invariant |tables| == |w.tables| && |tables[t].slots| == n
      {
        CloseAllInv(w, t, i + 1);
        ClearOne(t, i);
        i := i + 1;
      }
    }

    /** Table::forkMe: the new table is number u. */
    method TableFork(t: nat) returns (u: nat)
      requires Valid() && InUse(View(), t)
      modifies this`objs, this`tables, this`files
      ensures u == |old(tables)| && Valid()
      ensures View() == ForkSlots(NewTable(old(View()), |old(tables[t].slots)|), t, u, |old(tables[t].slots)|)
      ensures Forked(NewTable(old(View()), |old(tables[t].slots)|), View(), t, u, |old(tables[t].slots)|)
    {
      hide InvOff, ForkSlot, Forked;
      var n := |tables[t].slots|;
      u := |tables|;
      NewTableInv(View(), n);
      tables := tables + [Table(NullSlots(n), 0, 0, Null)];
      ghost var w := View();
      var i := 0;
      while i < n
        invariant 0 <= i <= n && Valid() && View() == ForkSlots(w, t, u, i) && Filling(w, View(), u, i)
      {
        ForkSlotsInv(w, t, u, i + 1);
        StillInUse(w, View(), u, i);
        if tables[t].slots[i].Ref? {
          HandleHeldOnce(View(), t, i);
          ForkResource(t, u, i);
        } else {
          NothingToFork(View(), t, u, i);
        }
        i := i + 1;
      }
      SlotsForked(w, t, u, n);
    }

    /** The virtual forkMe of what is in the slot. */
    method ForkResource(t: nat, u: nat, i: nat)
      requires t < |tables| && u < |tables| && t != u && i < |tables[t].slots| && tables[t].slots[i].Ref? && i < |tables[u].slots|
      requires tables[t].slots[i].o < |objs| && objs[tables[t].slots[i].o].kind.Handle? ==> objs[tables[t].slots[i].o].kind.start < |files|
      requires tables[t].slots[i].o < |objs|
      modifies this`objs, this`tables, this`files
      ensures View() == ForkSlot(old(View()), t, u, i)
    {
      var o := tables[t].slots[i].o;
      if objs[o].kind.Handle? {
        var h := NewFile(objs[o].kind.start);
        objs := objs[h := objs[h].(count := objs[o].count, held := true)];
        tables := tables[u := tables[u].(slots := tables[u].slots[i := Ref(h)])];
      } else {
        Reference(o);
        tables := tables[u := tables[u].(slots := tables[u].slots[i := Ref(o)])];
      }
    }

    /** openFile, and a handle on it. */
    method NewFile(start: nat) returns (h: nat)
      requires start < |files|
      modifies this`objs, this`files
      ensures h == |old(objs)| && View() == MakeHandle(old(View()), start)
    {
      var f := files[start];
      if !f.present {
        f := OpenFile(true, 0, f.made + 1, f.deletes);
      }
      files := files[start := f.(count := f.count + 1)];
      h := |objs|;
      objs := objs + [NewObj(Handle(start))];
    }

    /** fork, as far as references are concerned. */
    method ForkProcess(p: nat) returns (id: int)
      requires Valid() && Running(View(), p)
      modifies this`objs, this`tables, this`files
      ensures Valid() && (View(), id) == R.Fork(old(View()), old(objs[p].kind.table))
      ensures ForkResult(old(View()), View(), old(objs[p].kind.table), id)
    {
      hide InvOff, ForkResult, Forked;
      ghost var w := View();
      RunningUses(w, p);
      var t := objs[p].kind.table;
      ghost var n := |tables[t].slots|;
      ForkInv(w, t);
      ForkCopies(w, t);
      NewTableInv(w, n);
      ForkSlotsInv(NewTable(w, n), t, |tables|, n);
      var u := TableFork(t);
      Filled(w, NewTable(w, n), View(), t, u, n);
      NewProcessInv(View(), u);
      var child := |objs|;
      objs := objs + [Obj(Process(u), 1, 0, true, false, false)];
      tables := tables[u := tables[u].(count := tables[u].count + 1, owner := Ref(child))];
      id := TableOpen(t, child);
    }

    /** exit: closeAll, then on to the reaper. */
    method ExitProcess(p: nat)
      requires Valid() && Running(View(), p)
      modifies this`objs, this`tables, this`files
      ensures Valid() && View() == R.Exit(old(View()), p)
    {
      ghost var w := View();
      RunningUses(w, p);
      ExitInv(w, p);
      CloseAllInv(w, objs[p].kind.table, |tables[objs[p].kind.table].slots|);
      TableCloseAll(objs[p].kind.table);
      objs := objs[p := objs[p].(exited := true)];
    }

    /** The reaper's share. */
    method ReapProcess(p: nat) returns (gone: bool)
      requires Valid() && p < |objs| && objs[p].kind.Process? && objs[p].exited && !objs[p].reaped
      modifies this`objs, this`tables, this`files
      ensures Valid() && View() == R.Reap(old(View()), p)
      ensures gone <==> Refs(old(tables), p) == 0
    {
      ReapInv(View(), p);
      assert CountOk(View(), p, 0, 0);
      objs := objs[p := objs[p].(reaped := true)];
      gone := Unreference(p);
    }
  }

  /** Clearing the slot after the reference was dropped comes to the same: what is deleted is never
      the table the slot is in. */
  lemma UnrefThenClear(w: World, t: nat, i: nat)
    requires Inv(w) && t < |w.tables| && i < |w.tables[t].slots| && w.tables[t].slots[i].Ref?
    ensures SetSlot(Unref(w, w.tables[t].slots[i].o), t, i, Null) == Clear(w, t, i)
  {
    var o := w.tables[t].slots[i].o;
    HandleHeldOnce(w, t, i);
    assert CountOk(w, o, 0, 0) && KindOk(w, o);
    OccursRefs(w.tables, t, o);
    SomeOccur(w.tables[t].slots, i);
    if w.objs[o].kind.Process? && w.objs[o].count == 1 {
      var u := w.objs[o].kind.table;
      assert u != t;
      var x := w.tables[u].(count := 0);
      assert Unref(w, o).tables[t] == w.tables[t];
      var y := Unref(w, o).tables[u];
      var z := w.tables[t].(slots := w.tables[t].slots[i := Null]);
      assert w.tables[u := y][t := z] == w.tables[t := z][u := y];
    }
  }

  lemma NothingToFork(w: World, t: nat, u: nat, i: nat)
    requires t < |w.tables| && i < |w.tables[t].slots| && w.tables[t].slots[i] == Null
    ensures ForkSlot(w, t, u, i) == w
  {
  }
}
