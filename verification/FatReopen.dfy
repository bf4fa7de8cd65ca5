/** The table of open files: whoever opens a file that somebody has open gets the same object, with
    the length it was opened with. */
module FatReopen {
  import opened FatModel
  import opened FatWrite
  import opened FatSafety
  import opened FatRead
  import opened FatCode
  import opened FatDirectory
  import RefModel
  import RefSteps
  import RefRuns
  import RefCode

  type World = RefModel.World

  /** Slot i of p's table holds a handle on the file that starts at `start`. */
  predicate HandleAt(w: World, p: nat, i: nat, start: nat) {
    var t := RefRuns.TableOf(w, p);
    && RefRuns.Running(w, p) && t < |w.tables| && i < |w.tables[t].slots| && w.tables[t].slots[i].Ref? && w.tables[t].slots[i].o < |w.objs|
    && w.objs[w.tables[t].slots[i].o].kind == RefModel.Handle(start)
  }

  /** Holders of an open file: live handles, and directories. */
  function Holders(w: World, start: nat): nat
    requires start < |w.dirs|
  {
    RefModel.Handles(w.objs, start) + w.dirs[start]
  }

  /** The step of closing slot i. */
  function AfterClose(w: World, p: nat, i: nat): World {
    RefRuns.Do(w, RefRuns.OpClose(p, i))
  }

  /** Closing a handle takes one holder away, and no other file loses one. */
  lemma CloseHandle(w: World, p: nat, i: nat, start: nat)
    requires RefModel.Inv(w) && HandleAt(w, p, i, start)
    ensures var v := AfterClose(w, p, i);
      && RefModel.Inv(v) && |v.files| == |w.files| == |w.dirs| == |v.dirs| && start < |w.files|
      && Holders(v, start) + 1 == Holders(w, start) && RefRuns.Running(v, p)
      && (v.files[start].present <==> Holders(w, start) > 1)
      && w.files[start].present && forall s: nat {:trigger v.files[s]} :: s < |w.files| && s != start ==> v.files[s] == w.files[s]
  {
    hide RefModel.Handles, RefModel.Refs;
    var t := RefRuns.TableOf(w, p);
    var o := w.tables[t].slots[i].o;
    RefRuns.ClearInv(w, t, i);
    RefRuns.HandleHeldOnce(w, t, i);
    var v := AfterClose(w, p, i);
    assert RefModel.CountOk(w, o, 0, 0);
    RefModel.HandlesChange(w.objs, o, v.objs[o], start);
    RefRuns.OpenWhileHeld(w, start);
    RefRuns.OpenWhileHeld(v, start);
    RefRuns.ClearSlots(w, t, i);
  }

  /** The file system with its table openFiles. */
  class OpenFiles {
    const fs: Fat439
    const refs: RefCode.Resources
    const cached: array<OpenFile?>

    ghost predicate SlotFits(s: nat)
      reads this, refs, cached
    {
      s < cached.Length == |refs.files| ==>
        && (cached[s] != null <==> refs.files[s].present)
        && (cached[s] != null ==> cached[s].fs == fs && cached[s].start == s)
    }

    /** A slot is null exactly if the reference counts say that nobody holds the file. */
    ghost predicate Valid()
      reads this, refs, cached
    {
      refs.Valid() && cached.Length == |refs.files| == fs.disk.Length && forall s: nat {:trigger SlotFits(s)} :: SlotFits(s)
    }

    /** At boot nothing is open. */
    constructor (fs: Fat439)
      ensures Valid() && this.fs == fs && fresh(refs) && fresh(cached) && RefRuns.Fresh(refs.View()) && cached.Length == fs.disk.Length
    {
      this.fs := fs;
      refs := new RefCode.Resources(fs.disk.Length);
      cached := new OpenFile?[fs.disk.Length](_ => null);
    }

    /** openFile. */
    method Obtain(start: nat) returns (file: OpenFile)
      requires Valid() && start < cached.Length == fs.disk.Length && |fs.disk[start]| == SECTOR
      modifies cached
      ensures file.fs == fs && file.start == start && cached[start] == file
      ensures if old(cached[start]) != null then file == old(cached[start]) else file.length == StoredLength(fs.disk[..], start)
      ensures forall s: nat {:trigger cached[s]} :: s < cached.Length && s != start ==> cached[s] == old(cached[s])
    {
      assert SlotFits(start);
      if cached[start] == null {
        cached[start] := new OpenFile(fs, start);
      }
      file := cached[start];
    }

    /** open of the file that starts at `start` by process p. */
    method OpenCall(p: nat, start: nat) returns (file: OpenFile, id: int)
      requires Valid() && RefRuns.Running(refs.View(), p) && start < cached.Length == fs.disk.Length && |fs.disk[start]| == SECTOR
      modifies refs`objs, refs`tables, refs`files, cached
      ensures Valid() && refs.View() == RefRuns.Do(old(refs.View()), RefRuns.OpOpen(p, start))
      ensures file.fs == fs && file.start == start
      ensures if old(cached[start]) != null then file == old(cached[start]) else file.length == StoredLength(fs.disk[..], start)
    {
      ghost var w := refs.View();
      RefRuns.RunningUses(w, p);
      RefSteps.MakeHandleOff(w, 0, 0, start);
      file := Obtain(start);
      var h := refs.NewFile(start);
      id := refs.TableOpen(refs.objs[p].kind.table, h);
      forall s: nat {:trigger SlotFits(s)} ensures SlotFits(s) { assert old(SlotFits(s)); }
    }

    /** close of the handle in slot i of p's table. */
    method CloseCall(p: nat, i: nat, start: nat) returns (code: int)
      requires Valid() && HandleAt(refs.View(), p, i, start)
      modifies refs`objs, refs`tables, refs`files, cached
      ensures Valid() && refs.View() == AfterClose(old(refs.View()), p, i) && start < cached.Length
      ensures forall s: nat {:trigger cached[s]} :: s < cached.Length && (s != start || refs.files[s].present) ==> cached[s] == old(cached[s])
    {
      ghost var w := refs.View();
      CloseHandle(w, p, i, start);
      code := refs.TableClose(refs.objs[p].kind.table, i);
      assert old(SlotFits(start));
      if !refs.files[start].present { cached[start] := null; }
      forall s: nat {:trigger SlotFits(s)} ensures SlotFits(s) { assert old(SlotFits(s)); }
    }

    lemma FileOpen(p: nat, i: nat, start: nat)
      requires Valid() && HandleAt(refs.View(), p, i, start)
      ensures start < cached.Length && cached[start] != null && cached[start].fs == fs && cached[start].start == start
    {
      CloseHandle(refs.View(), p, i, start);
      assert SlotFits(start);
    }

    /** A process writes a file, closes it, opens it again and reads it from the start. It sees what
        it wrote exactly if nobody else had the file open when it closed it, or the length did not
        change: otherwise it is given the open file that is there, with its old length. */
    method WriteCloseReopenRead(p: nat, i: nat, start: nat, buf: seq<byte>, n: nat) returns (length: nat, r: ReadResult)
      requires Valid() && fs.Valid() && HandleAt(refs.View(), p, i, start) && start in fs.files && |buf| < 0x1_0000_0000
      requires Enough(Job(fs.View(), fs.files[start], fs.free, buf))
      modifies refs`objs, refs`tables, refs`files, cached, fs`avail, fs`free, fs`files, fs.fat, fs.disk
      ensures Valid() && fs.Valid() && start < cached.Length == |old(refs.dirs)| && old(cached[start]) != null
      ensures length == |buf| <==> Holders(old(refs.View()), start) == 1 || old(cached[start]).length == |buf|
      ensures length == if Holders(old(refs.View()), start) == 1 then |buf| else old(cached[start]).length
      ensures r.Bytes? && |r.data| == (if n < length then n else length) && (r.data == buf <==> |r.data| == |buf|)
    {
      hide RefModel.InvOff, Holds, Partition, IsChain, OnDisk, Holders;
      FileOpen(p, i, start);
      var file := cached[start];
      ghost var job := file.JobOf(buf);
      file.WriteReady(buf);
      file.Write(buf);
      WriteReadsBack(job, fs.View());
      CloseHandle(refs.View(), p, i, start);
      var code := CloseCall(p, i, start);
      assert SlotFits(start);
      var again, id := OpenCall(p, start);
      length := again.length;
      OldLengthReads(job, fs.View(), length, n);
      assert again.Readable(NewChain(job));
      var handle := new FileHandle(again);
      r := handle.ReadFully(n, NewChain(job));
    }
  }
}
