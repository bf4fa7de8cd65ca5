/** The frame pool and the address spaces as the code has them: one memory, updated in place. */
module VmmCode {
  import M = VmmModel
  import opened VmmModel
  import opened VmmTables
  import S = VmmSpaces
  import opened VmmSpaces
  import F = VmmFork
  import opened VmmFork
  import X = VmmExec
  import D = VmmDestroy

  class PhysMem {
    const mem: array<Frame>
    var first: nat
    var avail: nat
    const limit: nat
    var panicked: bool
    ghost const start: nat
    ghost var free: seq<nat>
    ghost var role: seq<Role>
    ghost var spaces: map<nat, Todo>

    ghost function View(): World
      reads this, mem
    {
      World(mem[..], first, avail, limit, panicked, start, free, role, spaces)
    }

    ghost predicate Valid()
      reads this, mem
    {
      mem.Length == limit && Inv(View())
    }

    /** init; start and limit are frame numbers. */
    constructor (start: nat, limit: nat)
      requires 0 < start <= limit <= 1024
      ensures Valid() && fresh(mem) && !panicked && Available(View()) == limit - start && View().spaces == map[]
    {
      mem := new Frame[limit](_ => Blank());
      first, avail := 0, start;
      this.limit := limit;
      panicked := false;
      this.start := start;
      free, spaces := [], map[];
      role := seq(limit, f => if f < start then Kernel else Untouched);
      new;
      var w := View();
      forall f: nat {:trigger PoolOk(w, f)} ensures PoolOk(w, f) { assert f < limit ==> RoleOf(w, f) == if f < start then Kernel else Untouched; }
      forall f: nat {:trigger OwnedOk(w, f)} ensures OwnedOk(w, f) { assert f < limit ==> RoleOf(w, f) == if f < start then Kernel else Untouched; }
    }

    method Alloc() returns (p: nat)
      requires Valid() && !panicked
      modifies this, mem
      ensures Valid() && (View(), p) == M.Alloc(old(View()))
    {
      ghost var w := View();
      AllocInv(w);
      if first != 0 {
        p := first;
        assert FreeOk(w, |free| - 1) && PoolOk(w, p);
        first := mem[p][0].frame;
        free := free[..|free| - 1];
      } else {
        if avail == limit {
          panicked := true;
          PanicInv(w);
          return 0;
        }
        p := avail;
        avail := avail + 1;
      }
      mem[p] := Blank();
      role := role[p := Held];
    }

    method Free(p: nat)
      requires Valid() && RoleOf(View(), p) == Held
      modifies this, mem
      ensures Valid() && View() == FreeFrame(old(View()), p)
    {
      FreeInv(View(), p);
      assert PoolOk(View(), p);
      mem[p] := mem[p][0 := Word(first, 0)];
      first := p;
      role := role[p := M.Role.Free(|free|)];
      free := free + [p];
    }
  }

  class AddressSpace {
    const phys: PhysMem
    var pd: nat

    ghost predicate Valid()
      reads this, phys, phys.mem
    {
      phys.Valid() && Alive(phys.View(), pd)
    }

    /** The constructor: a directory, then every page but 0 mapped to itself. */
    constructor (phys: PhysMem)
      requires phys.Valid() && !phys.panicked
      modifies phys, phys.mem
      ensures this.phys == phys
      ensures (phys.View(), pd) == Create(old(phys.View()))
      ensures !phys.panicked ==> Valid()
    {
      this.phys := phys;
      this.pd := 0;
      new;
      hide Pool, Mapped, Kept, Fine, MapIdentity, Identity, OnlyTableZero, Available, Settled, PagesSame, Outside, PoolOk, DirOk, TableOk, PageOk, OwnedOk, FreeOk;
      ghost var w := phys.View();
      CreateSpec(w);
      AllocInv(w);
      pd := phys.Alloc();
      if phys.panicked { return; }
      Populate();
    }

    /** The directory is on record, and the identity mapping is made. */
    method Populate()
      requires phys.Valid() && !phys.panicked && RoleOf(phys.View(), pd) == Held && At(phys.View(), pd) == Blank()
      modifies phys, phys.mem
      ensures phys.View() == MapIdentity(NewSpace(old(phys.View()), pd), pd, phys.limit)
    {
      hide Pool, Mapped, Kept, Fine, MapIdentity, Identity, OnlyTableZero, Available, Settled, PagesSame;
      NewDirectory(phys.View(), pd);
      phys.spaces := phys.spaces[pd := ALIVE];
      phys.role := phys.role[pd := Directory];
      MapSelf();
    }

    method MapSelf()
      requires Valid() && !phys.panicked && Identity(phys.View(), pd, 1) && OnlyTableZero(phys.View(), pd) && At(phys.View(), pd)[0] == ZERO
      requires phys.limit > 1
      modifies phys, phys.mem
      ensures phys.View() == MapIdentity(old(phys.View()), pd, phys.limit)
    {
      hide Pool, Mapped, Kept, Fine, Identity, OnlyTableZero, Available, NoFrame, OneMapped, M.Pmap;
      ghost var w := phys.View();
      var va := 1;
      while va < phys.limit
        invariant 1 <= va <= phys.limit
        invariant !phys.panicked && Valid() && phys.View() == MapIdentity(w, pd, va)
      {
        IdentityRound(w, pd, va);
        Pmap(va * 4096, va, false, true);
        if phys.panicked {
          IdentityPanicked(w, pd, va + 1, phys.limit);
          return;
        }
        va := va + 1;
      }
    }

    /** The first half of getPTE. */
    method NeedTable(i0: Index)
      requires Valid() && !phys.panicked
      modifies phys, phys.mem
      ensures phys.View() == M.NeedTable(old(phys.View()), pd, i0) && Valid()
    {
      NeedTableInv(phys.View(), pd, i0);
      AllocInv(phys.View());
      assert DirOk(phys.View(), pd) && PoolOk(phys.View(), pd);
      if !Present(phys.mem[pd][i0]) {
        var p := phys.Alloc();
        if phys.panicked { return; }
        phys.mem[pd] := phys.mem[pd][i0 := Word(p, 7)];
        phys.role := phys.role[p := Table(pd, i0)];
      }
    }

    /** pmap: the flat map is updated at the page of va, and nowhere else. */
    method Pmap(va: nat, pa: nat, forUser: bool, forWrite: bool)
      requires Valid() && !phys.panicked
      modifies phys, phys.mem
      ensures phys.View() == M.Pmap(old(phys.View()), pd, I0(va), I1(va), pa, Flags(forUser, forWrite))
      ensures phys.panicked <==> !Present(At(old(phys.View()), pd)[I0(va)]) && NoFrame(old(phys.View()))
      ensures !phys.panicked ==> OneMapped(old(phys.View()), phys.View(), pd, I0(va), I1(va), Word(pa, Flags(forUser, forWrite)))
      ensures !phys.panicked && va < 0x1_0000_0000 ==> forall i0: Index, i1: Index {:trigger PageOf(i0, i1, va)} :: PageOf(i0, i1, va) ==>
        OneMapped(old(phys.View()), phys.View(), pd, i0, i1, Word(pa, (if forUser then 4 else 0) + (if forWrite then 2 else 0) + 1))
    {
      if va < 0x1_0000_0000 { PageContains(va); }
      PmapRefines(phys.View(), pd, I0(va), I1(va), pa, forUser, forWrite);
      NeedTableInv(phys.View(), pd, I0(va));
      NeedTable(I0(va));
      if phys.panicked { return; }
      SetPte(I0(va), I1(va), Word(pa, Flags(forUser, forWrite)));
      if I0(va) > 0 && pa < |phys.role| { phys.role := phys.role[pa := Page(pd, I0(va), I1(va))]; }
    }

    method SetPte(i0: Index, i1: Index, x: Word)
      requires Valid() && Present(At(phys.View(), pd)[i0])
      modifies phys.mem
      ensures phys.View() == SetEntry(old(phys.View()), pd, i0, i1, x)
    {
      assert DirOk(phys.View(), pd) && PoolOk(phys.View(), pd) && TableOk(phys.View(), pd, i0) && PoolOk(phys.View(), At(phys.View(), pd)[i0].frame);
      var t := phys.mem[pd][i0].frame;
      phys.mem[t] := phys.mem[t][i1 := x];
    }

    method Punmap(va: nat)
      requires Valid() && !phys.panicked
      modifies phys, phys.mem
      ensures phys.View() == M.Punmap(old(phys.View()), pd, I0(va), I1(va))
      ensures !phys.panicked ==> OneMapped(old(phys.View()), phys.View(), pd, I0(va), I1(va), ZERO)
      ensures !phys.panicked && va < 0x1_0000_0000 ==> forall i0: Index, i1: Index {:trigger PageOf(i0, i1, va)} :: PageOf(i0, i1, va) ==>
        OneMapped(old(phys.View()), phys.View(), pd, i0, i1, ZERO)
    {
      if va < 0x1_0000_0000 { PageContains(va); }
      PunmapRefines(phys.View(), pd, I0(va), I1(va));
      NeedTableInv(phys.View(), pd, I0(va));
      NeedTable(I0(va));
      if phys.panicked { return; }
      ghost var x := Lookup(phys.View(), pd, I0(va), I1(va));
      SetPte(I0(va), I1(va), ZERO);
      if I0(va) > 0 && Present(x) && x.frame < |phys.role| { phys.role := phys.role[x.frame := Held]; }
    }

    method HandlePageFault(va: nat) returns (outcome: Outcome)
      requires Valid() && !phys.panicked && va < 0x1_0000_0000
      requires va >= 0x8000_0000 ==> !Present(Lookup(phys.View(), pd, I0(va), I1(va)))
      modifies phys, phys.mem
      ensures (phys.View(), outcome) == Fault(old(phys.View()), pd, va)
      ensures !phys.panicked ==> Valid()
      ensures va < 0x1000 <==> outcome == Killed
      ensures va < 0x1000 ==> phys.View() == old(phys.View())
      ensures 0x1000 <= va < 0x8000_0000 ==> phys.panicked
      ensures va >= 0x8000_0000 && !phys.panicked ==> forall i0: Index, i1: Index {:trigger PageOf(i0, i1, va)} :: PageOf(i0, i1, va) ==>
        NewPage(old(phys.View()), phys.View(), pd, i0, i1, Blank()) && Present(Lookup(phys.View(), pd, i0, i1))
    {
      if va < 0x1000 {
        outcome := Killed;
      } else {
        outcome := Served;
        if va >= 0x8000_0000 {
          ghost var w := phys.View();
          FaultSpec(w, pd, va);
          AllocInv(w);
          var p := phys.Alloc();
          if phys.panicked { return; }
          OutsideKept(w, phys.View(), pd);
          Pmap(va, p, true, true);
        } else {
          phys.panicked := true;
        }
      }
    }

    // -------------------------------------------------------------- fork

    /** fork: every page of the upper half is copied to the child, which has just been constructed. */
    method Fork(child: AddressSpace)
      requires Valid() && !phys.panicked && child.phys == phys && Ready(phys.View(), pd, child.pd)
      modifies phys, phys.mem
      ensures phys.View() == F.Fork(old(phys.View()), pd, child.pd, 1024)
    {
      hide Pool, Mapped, Kept, Copying, F.Fork, ForkRow, Ready, Need, RowNeed, Lookup;
      ghost var w := phys.View();
      ForkSpec(w, pd, child.pd, 512);
      ForkNone(w, pd, child.pd);
      var i0 := 512;
      while i0 < 1024
        invariant 512 <= i0 <= 1024
        invariant !phys.panicked && phys.Valid() && phys.View() == F.Fork(w, pd, child.pd, i0)
        invariant Copying(w, phys.View(), pd, child.pd, i0, 0, Need(w, pd, i0))
      {
        ghost var v := phys.View();
        ForkRound(w, v, pd, child.pd, i0);
        var pde := phys.mem[pd][i0];
        if Present(pde) {
          ForkTable(child, i0, pde.frame, w, Need(w, pd, i0));
        }
        if phys.panicked {
          ForkStays(w, pd, child.pd, i0 + 1, 1024);
          return;
        }
        i0 := i0 + 1;
      }
    }

    /** The inner loop, for the table in frame t. */
    method ForkTable(child: AddressSpace, i0: Index, t: nat, ghost w: World, ghost used: nat)
      requires phys.Valid() && !phys.panicked && child.phys == phys && i0 >= 512
      requires Ready(w, pd, child.pd) && Copying(w, phys.View(), pd, child.pd, i0, 0, used)
      requires Present(At(phys.View(), pd)[i0]) && At(phys.View(), pd)[i0].frame == t < phys.mem.Length
      modifies phys, phys.mem
      ensures phys.View() == ForkRow(old(phys.View()), pd, child.pd, i0, 1024)
      ensures phys.Valid()
    {
      hide Pool, Mapped, Kept, Copying, ForkRow, Ready, RowNeed, Lookup;
      ghost var v0 := phys.View();
      ForkRowNone(v0, pd, child.pd, i0);
      var i1 := 0;
      while i1 < 1024
        invariant 0 <= i1 <= 1024
        invariant !phys.panicked && phys.Valid() && phys.View() == ForkRow(v0, pd, child.pd, i0, i1)
      {
        PageRound(w, v0, phys.View(), pd, child.pd, i0, i1, used);
        var pte := phys.mem[t][i1];
        if Present(pte) {
          CopyPage(child, i0, i1, pte.frame);
        }
        if phys.panicked {
          RowStays(v0, pd, child.pd, i0, i1 + 1, 1024);
          return;
        }
        i1 := i1 + 1;
      }
    }

    /** A page is copied to a frame of the child's own. */
    method CopyPage(child: AddressSpace, i0: Index, i1: Index, src: nat)
      requires phys.Valid() && !phys.panicked && child.phys == phys && i0 >= 512
      requires Alive(phys.View(), child.pd) && src < phys.mem.Length && Owned(RoleOf(phys.View(), src))
      requires !Present(Lookup(phys.View(), child.pd, i0, i1))
      modifies phys, phys.mem
      ensures phys.View() == MapNew(old(phys.View()), child.pd, i0, i1, At(old(phys.View()), src))
      ensures phys.Valid()
    {
      hide Pool, Mapped, Kept, Lookup, NewPage, Cost, Available, OneMapped, NoFrame, M.Pmap;
      ghost var w := phys.View();
      MapNewInv(w, child.pd, i0, i1, At(w, src));
      AllocInv(w);
      var dest := phys.Alloc();
      if phys.panicked { return; }
      HeldInRange(phys.View(), dest);
      WriteInv(phys.View(), dest, At(w, src));
      phys.mem[dest] := phys.mem[src];
      VaOf(i0, i1);
      child.Pmap(i0 * 4194304 + i1 * 4096, dest, true, true);
    }

    // -------------------------------------------------------------- exec

    /** exec: the upper half is unmapped and its frames are freed. */
    method Exec()
      requires Valid()
      modifies phys, phys.mem
      ensures phys.View() == X.Exec(old(phys.View()), pd, 1024) && Valid()
    {
      hide Pool, Mapped, Kept, X.Clearing, X.Exec, X.ExecRow, Lookup;
      ghost var w := phys.View();
      ExecNone(w, pd);
      var i0 := 512;
      while i0 < 1024
        invariant 512 <= i0 <= 1024
        invariant Valid() && phys.View() == X.Exec(w, pd, i0)
      {
        ExecRound(w, pd, i0);
        var pde := phys.mem[pd][i0];
        if Present(pde) {
          ExecTable(i0, pde.frame);
        }
        i0 := i0 + 1;
      }
    }

    method ExecTable(i0: Index, t: nat)
      requires Valid() && i0 >= 512 && Present(At(phys.View(), pd)[i0]) && At(phys.View(), pd)[i0].frame == t < phys.mem.Length
      modifies phys, phys.mem
      ensures phys.View() == X.ExecRow(old(phys.View()), pd, i0, 1024) && Valid()
    {
      hide Pool, Mapped, Kept, X.ExecPage, X.ExecRow, Lookup;
      ghost var w := phys.View();
      ExecRowNone(w, pd, i0);
      var i1 := 0;
      while i1 < 1024
        invariant 0 <= i1 <= 1024
        invariant Valid() && phys.View() == X.ExecRow(w, pd, i0, i1) && At(phys.View(), pd)[i0].frame == t && Present(At(phys.View(), pd)[i0])
      {
        ExecPageRound(w, phys.View(), pd, i0, i1);
        var pte := phys.mem[t][i1];
        if Present(pte) {
          ClearPage(i0, i1, t, pte.frame);
        }
        i1 := i1 + 1;
      }
    }

    /** The entry is cleared, then its frame is freed. */
    method ClearPage(i0: Index, i1: Index, t: nat, f: nat)
      requires Valid() && i0 >= 512 && Present(At(phys.View(), pd)[i0]) && At(phys.View(), pd)[i0].frame == t < phys.mem.Length
      requires Present(Lookup(phys.View(), pd, i0, i1)) && Lookup(phys.View(), pd, i0, i1).frame == f
      modifies phys, phys.mem
      ensures phys.View() == X.ExecPage(old(phys.View()), pd, i0, i1)
    {
      hide Pool, Mapped, Kept, OneMapped;
      ghost var w := phys.View();
      RemapInv(w, pd, i0, i1, ZERO, f, Held);
      PageInRange(w, pd, i0, i1);
      phys.mem[t] := phys.mem[t][i1 := ZERO];
      phys.role := phys.role[f := Held];
      phys.Free(f);
    }

    // -------------------------------------------------------------- destruction

    /** The destructor. */
    method Destroy()
      requires Valid()
      modifies phys, phys.mem
      ensures phys.View() == D.Destroy(old(phys.View()), pd) && phys.Valid()
    {
      hide Pool, Mapped, Kept, D.Dropping, D.DropTable, D.DropTables, Lookup;
      ghost var w := phys.View();
      DropNone(w, pd);
      var i0 := 0;
      while i0 < 1024
        invariant 0 <= i0 <= 1024
        invariant phys.Valid() && phys.View() == D.DropTables(w, pd, i0)
        invariant D.Dropping(w, phys.View(), pd, Todo(i0, 0))
      {
        DropRound(w, pd, i0);
        DropTable(i0, w);
        i0 := i0 + 1;
      }
      ghost var v := phys.View();
      LeaveDirectory(w, v, pd);
      phys.spaces := phys.spaces - {pd};
      phys.role := phys.role[pd := Held];
      phys.Free(pd);
    }

    /** One round of the outer loop: the pages of the table, unless it is table 0, then the table. */
    method DropTable(i0: Index, ghost w: World)
      requires phys.Valid() && D.Dropping(w, phys.View(), pd, Todo(i0, 0))
      modifies phys, phys.mem
      ensures phys.View() == D.DropTable(old(phys.View()), pd, i0) && phys.Valid()
    {
      hide Pool, Mapped, Kept, D.Dropping, D.DropRow, Lookup;
      ghost var v := phys.View();
      DropTableRound(w, v, pd, i0);
      var pde := phys.mem[pd][i0];
      if Present(pde) {
        var t := pde.frame;
        if i0 > 0 {
          DropPages(i0, t, w);
        }
        LeaveRound(w, phys.View(), pd, i0, if i0 > 0 then 1024 else 0);
        phys.role := phys.role[t := Held];
        phys.spaces := phys.spaces[pd := Todo(i0 + 1, 0)];
        phys.Free(t);
      } else {
        phys.spaces := phys.spaces[pd := Todo(i0 + 1, 0)];
      }
    }

    /** The inner loop, for the table in frame t. */
    method DropPages(i0: Index, t: nat, ghost w: World)
      requires phys.Valid() && D.Dropping(w, phys.View(), pd, Todo(i0, 0)) && i0 > 0
      requires Present(At(phys.View(), pd)[i0]) && At(phys.View(), pd)[i0].frame == t < phys.mem.Length
      modifies phys, phys.mem
      ensures phys.View() == D.DropRow(old(phys.View()), pd, i0, 1024)
      ensures phys.Valid() && D.Dropping(w, phys.View(), pd, Todo(i0, 1024)) && At(phys.View(), pd) == At(old(phys.View()), pd)
    {
      hide Pool, Mapped, Kept, D.Dropping, D.DropRow, D.DropPage, Lookup;
      ghost var v := phys.View();
      DropRowNone(w, v, pd, i0);
      var i1 := 0;
      while i1 < 1024
        invariant 0 <= i1 <= 1024
        invariant phys.Valid() && phys.View() == D.DropRow(v, pd, i0, i1)
        invariant D.Dropping(w, phys.View(), pd, Todo(i0, i1)) && At(phys.View(), pd) == At(v, pd)
      {
        DropPageRound(w, v, phys.View(), pd, i0, i1);
        var pte := phys.mem[t][i1];
        DropEntry(i0, i1, pte, w);
        i1 := i1 + 1;
      }
    }

    /** A present entry's frame is freed. */
    method DropEntry(i0: Index, i1: Index, pte: Word, ghost w: World)
      requires phys.Valid() && D.Dropping(w, phys.View(), pd, Todo(i0, i1)) && i0 > 0
      requires Present(pte) <==> Present(Lookup(phys.View(), pd, i0, i1))
      requires Present(pte) ==> Lookup(phys.View(), pd, i0, i1) == pte
      modifies phys, phys.mem
      ensures phys.View() == D.DropPage(old(phys.View()), pd, i0, i1) && phys.Valid()
    {
      hide Pool, Mapped, Kept, D.Dropping, Lookup;
      LeavePage(w, phys.View(), pd, i0, i1);
      phys.spaces := phys.spaces[pd := Todo(i0, i1 + 1)];
      if Present(pte) {
        phys.role := phys.role[pte.frame := Held];
        phys.Free(pte.frame);
      }
    }
  }

  lemma NewDirectory(w: World, pd: nat)
    requires Inv(w) && RoleOf(w, pd) == Held && At(w, pd) == Blank()
    ensures var v := NewSpace(w, pd); Inv(v) && Alive(v, pd) && Identity(v, pd, 1) && OnlyTableZero(v, pd) && At(v, pd)[0] == ZERO
    ensures pd < |w.role| && 1 < w.limit
  {
    NewSpaceInv(w, pd);
    assert PoolOk(w, pd);
  }

  lemma IdentityRound(w: World, pd: nat, va: nat)
    requires Inv(w) && Alive(w, pd) && !w.panicked && Identity(w, pd, 1) && OnlyTableZero(w, pd) && At(w, pd)[0] == ZERO
    requires 1 <= va < w.limit && !MapIdentity(w, pd, va).panicked
    ensures var v := MapIdentity(w, pd, va + 1);
      && v == M.Pmap(MapIdentity(w, pd, va), pd, I0(va * 4096), I1(va * 4096), va, Flags(false, true))
      && Inv(v) && (!v.panicked ==> Alive(v, pd))
  {
    hide Identity, OnlyTableZero, Kept, NoFrame, Available, M.Pmap;
    MapIdentityInv(w, pd, va + 1);
  }

  lemma {:induction false} IdentityPanicked(w: World, pd: nat, n: nat, m: nat)
    requires MapIdentity(w, pd, n).panicked && n <= m
    ensures MapIdentity(w, pd, m) == MapIdentity(w, pd, n)
  {
    hide M.Pmap;
    if n < m { IdentityPanicked(w, pd, n, m - 1); }
  }

  lemma HeldInRange(w: World, f: nat)
    requires Inv(w) && RoleOf(w, f) == Held
    ensures f < |w.mem| == |w.role|
  {
    assert PoolOk(w, f);
  }

  lemma VaOf(i0: Index, i1: Index)
    ensures I0(i0 * 4194304 + i1 * 4096) == i0 && I1(i0 * 4194304 + i1 * 4096) == i1
  {
  }

  lemma ForkNone(w: World, parent: nat, child: nat)
    requires Ready(w, parent, child)
    ensures F.Fork(w, parent, child, 512) == w && Copying(w, w, parent, child, 512, 0, Need(w, parent, 512))
  {
    CopyStart(w, parent, child);
  }

  /** What a round of fork's outer loop finds, and where it leads. */
  lemma ForkRound(w: World, v: World, parent: nat, child: nat, i0: Index)
    requires Ready(w, parent, child) && !w.panicked && i0 >= 512 && v == F.Fork(w, parent, child, i0) && !v.panicked
    ensures parent < |v.mem| && (Present(At(v, parent)[i0]) ==> At(v, parent)[i0].frame < |v.mem|)
    ensures F.Fork(w, parent, child, i0 + 1) == if Present(At(v, parent)[i0]) then ForkRow(v, parent, child, i0, 1024) else v
    ensures var u := F.Fork(w, parent, child, i0 + 1); Inv(u) && (!u.panicked ==> Copying(w, u, parent, child, i0 + 1, 0, Need(w, parent, i0 + 1)))
    ensures !Present(At(v, parent)[i0]) ==> !F.Fork(w, parent, child, i0 + 1).panicked
  {
    hide Need, ForkRow, Copying;
    ForkSpec(w, parent, child, i0);
    ForkSpec(w, parent, child, i0 + 1);
    ParentSame(w, v, parent, child, i0, 0);
    ParentInRange(w, v, parent, child, i0);
  }

  lemma ParentInRange(w: World, v: World, parent: nat, child: nat, i0: Index)
    requires Ready(w, parent, child) && Inv(v) && Kept(w, v, child)
    ensures parent < |v.mem| && Alive(v, parent) && (Present(At(v, parent)[i0]) ==> At(v, parent)[i0].frame < |v.mem|)
  {
    SpaceKept(w, v, child, parent, i0, 0);
    assert DirOk(v, parent) && PoolOk(v, parent) && TableOk(v, parent, i0) && PoolOk(v, At(v, parent)[i0].frame);
  }

  lemma {:induction false} ForkStays(w: World, parent: nat, child: nat, m: nat, n: nat)
    requires 512 <= m <= n <= 1024 && F.Fork(w, parent, child, m).panicked
    ensures F.Fork(w, parent, child, n) == F.Fork(w, parent, child, m)
  {
    hide ForkRow;
    if m < n {
      ForkStays(w, parent, child, m, n - 1);
      RowPanicked(F.Fork(w, parent, child, n - 1), parent, child, n - 1, 1024);
    }
  }

  lemma ForkRowNone(w: World, parent: nat, child: nat, i0: Index)
    ensures ForkRow(w, parent, child, i0, 0) == w
  {
  }

  lemma {:induction false} RowStays(w: World, parent: nat, child: nat, i0: Index, m: nat, n: nat)
    requires m <= n <= 1024 && ForkRow(w, parent, child, i0, m).panicked
    ensures ForkRow(w, parent, child, i0, n) == ForkRow(w, parent, child, i0, m)
  {
    hide ForkPage;
    if m < n {
      RowStays(w, parent, child, i0, m, n - 1);
      ForkPanicked(ForkRow(w, parent, child, i0, n - 1), parent, child, i0, n - 1);
    }
  }

  /** What a round of fork's inner loop finds, and where it leads. */
  lemma PageRound(w: World, v0: World, v: World, parent: nat, child: nat, i0: Index, i1: Index, used: nat)
    requires Ready(w, parent, child) && Copying(w, v0, parent, child, i0, 0, used) && !v0.panicked && i0 >= 512
    requires v == ForkRow(v0, parent, child, i0, i1) && !v.panicked
    ensures At(v, parent) == At(v0, parent) && Alive(v, child)
    ensures Present(At(v, parent)[i0]) ==>
      (Present(Lookup(v, parent, i0, i1)) <==> Present(Entry(v, parent, i0, i1))) && (Present(Entry(v, parent, i0, i1)) ==> Lookup(v, parent, i0, i1) == Entry(v, parent, i0, i1))
    ensures Present(Lookup(v, parent, i0, i1)) ==> Lookup(v, parent, i0, i1).frame < |v.mem| && Owned(RoleOf(v, Lookup(v, parent, i0, i1).frame))
    ensures !Present(Lookup(v, child, i0, i1))
    ensures ForkRow(v0, parent, child, i0, i1 + 1) == if Present(Lookup(v, parent, i0, i1)) then MapNew(v, child, i0, i1, At(v, Lookup(v, parent, i0, i1).frame)) else v
    ensures Inv(ForkRow(v0, parent, child, i0, i1 + 1))
  {
    hide Kept, Pool, Mapped, RowNeed, Copied, TablesThere, Ready, Settled, MapNew;
    ForkRowInv(w, v0, parent, child, i0, i1, used);
    ForkRowInv(w, v0, parent, child, i0, i1 + 1, used);
    ParentSame(w, v0, parent, child, i0, i1);
    ParentSame(w, v, parent, child, i0, i1);
    NotYet(w, v, parent, child, i0, i1);
    SourceOwned(w, v, parent, child, i0, i1);
  }

  lemma SourceOwned(w: World, v: World, parent: nat, child: nat, i0: Index, i1: Index)
    requires Ready(w, parent, child) && Inv(v) && Kept(w, v, child) && i0 > 0
    ensures Present(Lookup(v, parent, i0, i1)) ==> Lookup(v, parent, i0, i1).frame < |v.mem| && Owned(RoleOf(v, Lookup(v, parent, i0, i1).frame))
  {
    hide Lookup;
    SpaceKept(w, v, child, parent, i0, i1);
    assert PageOk(v, parent, i0, i1) && PoolOk(v, Lookup(v, parent, i0, i1).frame);
  }

  lemma ExecNone(w: World, pd: nat)
    ensures X.Exec(w, pd, 512) == w
  {
  }

  lemma ExecRound(w: World, pd: nat, i0: Index)
    requires Inv(w) && Alive(w, pd) && i0 >= 512
    ensures var v := X.Exec(w, pd, i0);
      && pd < |v.mem| && (Present(At(v, pd)[i0]) ==> At(v, pd)[i0].frame < |v.mem|)
      && X.Exec(w, pd, i0 + 1) == if Present(At(v, pd)[i0]) then X.ExecRow(v, pd, i0, 1024) else v
  {
    hide X.ExecRow;
    X.ExecRows(w, pd, i0);
    var v := X.Exec(w, pd, i0);
    assert DirOk(v, pd) && PoolOk(v, pd) && TableOk(v, pd, i0) && PoolOk(v, At(v, pd)[i0].frame);
  }

  lemma ExecRowNone(w: World, pd: nat, i0: Index)
    ensures X.ExecRow(w, pd, i0, 0) == w
  {
  }

  lemma ExecPageRound(w: World, v: World, pd: nat, i0: Index, i1: Index)
    requires Inv(v) && Alive(v, pd) && i0 >= 512 && v == X.ExecRow(w, pd, i0, i1) && Present(At(v, pd)[i0])
    ensures (Present(Lookup(v, pd, i0, i1)) <==> Present(Entry(v, pd, i0, i1))) && (Present(Entry(v, pd, i0, i1)) ==> Lookup(v, pd, i0, i1) == Entry(v, pd, i0, i1))
    ensures X.ExecRow(w, pd, i0, i1 + 1) == X.ExecPage(v, pd, i0, i1)
    ensures !Present(Lookup(v, pd, i0, i1)) ==> X.ExecPage(v, pd, i0, i1) == v
    ensures var u := X.ExecPage(v, pd, i0, i1); Inv(u) && Alive(u, pd) && At(u, pd) == At(v, pd)
  {
    hide Pool, Mapped, Kept, FreeFrame, Remap;
    X.ExecPageInv(v, pd, i0, i1);
  }

  lemma PageInRange(w: World, pd: nat, i0: Index, i1: Index)
    requires Inv(w) && Alive(w, pd) && i0 > 0 && Present(Lookup(w, pd, i0, i1))
    ensures Lookup(w, pd, i0, i1).frame < |w.mem| == |w.role| && At(w, pd)[i0].frame < |w.mem|
  {
    assert PageOk(w, pd, i0, i1) && PoolOk(w, Lookup(w, pd, i0, i1).frame) && TableOk(w, pd, i0) && PoolOk(w, At(w, pd)[i0].frame);
  }

  lemma DropNone(w: World, pd: nat)
    requires Inv(w) && Alive(w, pd)
    ensures D.DropTables(w, pd, 0) == w && D.Dropping(w, w, pd, Todo(0, 0))
  {
    D.DropTablesInv(w, pd, 0);
  }

  lemma DropRound(w: World, pd: nat, i0: Index)
    requires Inv(w) && Alive(w, pd)
    ensures var v := D.DropTables(w, pd, i0 + 1);
      v == D.DropTable(D.DropTables(w, pd, i0), pd, i0) && Inv(v) && D.Dropping(w, v, pd, Todo(i0 + 1, 0))
  {
    hide D.DropTable;
    D.DropTablesInv(w, pd, i0 + 1);
  }

  lemma LeaveDirectory(w: World, v: World, pd: nat)
    requires D.Dropping(w, v, pd, Todo(1024, 0))
    ensures var u := Mark(v.(spaces := v.spaces - {pd}), pd, Held); Inv(u) && RoleOf(u, pd) == Held && pd < |v.role|
  {
    D.LastFrame(v, pd);
    D.InRange(v, pd);
  }

  /** Where a round of the destructor's outer loop leads, and that it reads inside the memory. */
  lemma DropTableRound(w: World, v: World, pd: nat, i0: Index)
    requires D.Dropping(w, v, pd, Todo(i0, 0))
    ensures pd < |v.mem| && (Present(At(v, pd)[i0]) ==> At(v, pd)[i0].frame < |v.mem|)
    ensures Inv(D.DropTable(v, pd, i0))
  {
    hide D.DropTable, Kept;
    D.DropTableInv(w, v, pd, i0);
    assert PoolOk(v, pd) && TableOk(v, pd, i0) && PoolOk(v, At(v, pd)[i0].frame);
  }

  lemma DropRowNone(w: World, v: World, pd: nat, i0: Index)
    requires D.Dropping(w, v, pd, Todo(i0, 0))
    ensures D.DropRow(v, pd, i0, 0) == v
  {
    D.PassSame(w, v, pd, Todo(i0, 0));
  }

  lemma DropPageRound(w: World, v: World, u: World, pd: nat, i0: Index, i1: Index)
    requires D.Dropping(w, v, pd, Todo(i0, 0)) && i0 > 0 && u == D.DropRow(v, pd, i0, i1) && D.Dropping(w, u, pd, Todo(i0, i1))
    ensures Present(At(u, pd)[i0]) ==>
      (Present(Lookup(u, pd, i0, i1)) <==> Present(Entry(u, pd, i0, i1))) && (Present(Entry(u, pd, i0, i1)) ==> Lookup(u, pd, i0, i1) == Entry(u, pd, i0, i1))
    ensures var x := D.DropPage(u, pd, i0, i1);
      x == D.DropRow(v, pd, i0, i1 + 1) && D.Dropping(w, x, pd, Todo(i0, i1 + 1)) && At(x, pd) == At(u, pd)
  {
    hide Kept, Pool, Mapped, D.DropPage;
    D.DropPageInv(w, u, pd, i0, i1);
  }

  /** What the free of a page in the destructor relies on. */
  lemma LeavePage(w: World, v: World, pd: nat, i0: Index, i1: Index)
    requires D.Dropping(w, v, pd, Todo(i0, i1)) && i0 > 0
    ensures var x, u := Lookup(v, pd, i0, i1), D.Pass(v, pd, Todo(i0, i1 + 1));
      && Inv(D.DropPage(v, pd, i0, i1))
      && (Present(x) ==> x.frame < |v.role| && Inv(Mark(u, x.frame, Held)) && RoleOf(Mark(u, x.frame, Held), x.frame) == Held)
  {
    hide Kept, Pool;
    var x, t := Lookup(v, pd, i0, i1), Todo(i0, i1 + 1);
    D.DropPageInv(w, v, pd, i0, i1);
    if Present(x) {
      assert PageOk(v, pd, i0, i1);
      D.InRange(v, x.frame);
      var u := Mark(D.Pass(v, pd, t), x.frame, Held);
      forall g: nat {:trigger D.LeavesAt(v, u, pd, t, g)} ensures D.LeavesAt(v, u, pd, t, g) { assert OwnedOk(v, g); }
      D.LeaveInv(v, u, pd, t);
    }
  }

  /** What the free of a table in the destructor relies on. */
  lemma LeaveRound(w: World, v: World, pd: nat, i0: Index, n: nat)
    requires D.Dropping(w, v, pd, Todo(i0, n)) && (n == 1024 || (i0 == 0 && n == 0)) && Present(At(v, pd)[i0])
    ensures var f := At(v, pd)[i0].frame;
      var u := Mark(D.Pass(v, pd, Todo(i0 + 1, 0)), f, Held);
      f < |v.role| && Inv(u) && RoleOf(u, f) == Held
  {
    hide Kept, Pool;
    var f, t := At(v, pd)[i0].frame, Todo(i0 + 1, 0);
    assert TableOk(v, pd, i0);
    D.InRange(v, f);
    var u := Mark(D.Pass(v, pd, t), f, Held);
    forall g: nat {:trigger D.LeavesAt(v, u, pd, t, g)} ensures D.LeavesAt(v, u, pd, t, g) { assert OwnedOk(v, g); }
    D.LeaveInv(v, u, pd, t);
  }
}
