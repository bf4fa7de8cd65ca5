/** The destructor of an address space: it frees its pages, its tables and its directory, reading
    each before it frees it. */
module VmmDestroy {
  import opened VmmModel
  import opened VmmTables
  import opened VmmSpaces
  import opened VmmFork
  import opened VmmExec

  /** The destructor has passed everything before t. */
  function Pass(w: World, pd: nat, t: Todo): World {
    w.(spaces := w.spaces[pd := t])
  }

  /** One round of the inner loop. */
  function DropPage(w: World, pd: nat, i0: Index, i1: Index): World {
    var x := Lookup(w, pd, i0, i1);
    var u := Pass(w, pd, Todo(i0, i1 + 1));
    if Present(x) then FreeFrame(Mark(u, x.frame, Held), x.frame) else u
  }

  function DropRow(w: World, pd: nat, i0: Index, n: nat): World
    requires n <= 1024
  {
    if n == 0 then Pass(w, pd, Todo(i0, 0)) else DropPage(DropRow(w, pd, i0, n - 1), pd, i0, n - 1)
  }

  /** One round of the outer loop: the pages of table 0 are not freed. */
  function DropTable(w: World, pd: nat, i0: Index): World {
    var pde := At(w, pd)[i0];
    if !Present(pde) then Pass(w, pd, Todo(i0 + 1, 0))
    else
      var v := if i0 > 0 then DropRow(w, pd, i0, 1024) else w;
      FreeFrame(Mark(Pass(v, pd, Todo(i0 + 1, 0)), pde.frame, Held), pde.frame)
  }

  function DropTables(w: World, pd: nat, m: nat): World
    requires m <= 1024
  {
    if m == 0 then w else DropTable(DropTables(w, pd, m - 1), pd, m - 1)
  }

  function Destroy(w: World, pd: nat): World {
    var v := DropTables(w, pd, 1024);
    FreeFrame(Mark(v.(spaces := v.spaces - {pd}), pd, Held), pd)
  }

  // ---------------------------------------------------------------- leaving the ledger

  /** Later in the order of the destructor. */
  predicate Later(s: Todo, t: Todo) {
    s.i0 < t.i0 || (s.i0 == t.i0 && s.i1 <= t.i1)
  }

  /** A frame that the destructor passes on its way to t. */
  predicate Leaves(r: Role, pd: nat, t: Todo) {
    (r.Table? && r.pd == pd && !TableDue(t, r.i0)) || (r.Page? && r.pd == pd && !PageDue(t, r.i0, r.i1))
  }

  predicate LeavesAt(w: World, u: World, pd: nat, t: Todo, f: nat) {
    RoleOf(u, f) == if Leaves(RoleOf(w, f), pd, t) then Held else RoleOf(w, f)
  }

  /** Advancing to t, with the frames that are passed taken off the record. */
  lemma LeaveInv(w: World, u: World, pd: nat, t: Todo)
    requires Inv(w) && pd in w.spaces && Later(w.spaces[pd], t)
    requires u == Pass(w, pd, t).(role := u.role) && |u.role| == |w.role|
    requires forall f: nat {:trigger LeavesAt(w, u, pd, t, f)} :: LeavesAt(w, u, pd, t, f)
    ensures Inv(u) && Kept(w, u, pd)
  {
    forall g: nat {:trigger PoolOk(u, g)} ensures PoolOk(u, g) { assert PoolOk(w, g) && LeavesAt(w, u, pd, t, g); }
    forall k: nat {:trigger FreeOk(u, k)}
      ensures FreeOk(u, k)
    {
      assert FreeOk(w, k);
      assert k < |w.free| ==> LeavesAt(w, u, pd, t, w.free[k]);
    }
    LeaveMapped(w, u, pd, t);
    forall f: nat {:trigger FrameKept(w, u, pd, f)} ensures FrameKept(w, u, pd, f) { assert LeavesAt(w, u, pd, t, f); }
  }

  lemma LeaveMapped(w: World, u: World, pd: nat, t: Todo)
    requires Inv(w) && pd in w.spaces && Later(w.spaces[pd], t)
    requires u == Pass(w, pd, t).(role := u.role) && |u.role| == |w.role|
    requires forall f: nat {:trigger LeavesAt(w, u, pd, t, f)} :: LeavesAt(w, u, pd, t, f)
    ensures Mapped(u)
  {
    hide Pool;
    forall q: nat {:trigger DirOk(u, q)} ensures DirOk(u, q) { assert DirOk(w, q) && LeavesAt(w, u, pd, t, q); }
    forall q: nat, j0: nat {:trigger TableOk(u, q, j0)}
      ensures TableOk(u, q, j0)
    {
      assert TableOk(w, q, j0);
      if j0 < 1024 { assert LeavesAt(w, u, pd, t, At(w, q)[j0].frame); }
    }
    forall q: nat, j0: nat, j1: nat {:trigger PageOk(u, q, j0, j1)}
      ensures PageOk(u, q, j0, j1)
    {
      assert PageOk(w, q, j0, j1);
      if j0 < 1024 && j1 < 1024 { assert LeavesAt(w, u, pd, t, Lookup(w, q, j0, j1).frame); }
    }
    forall g: nat {:trigger OwnedOk(u, g)}
      ensures OwnedOk(u, g)
    {
      assert OwnedOk(w, g) && LeavesAt(w, u, pd, t, g);
    }
  }

  // ---------------------------------------------------------------- the loops

  ghost predicate Dropping(w: World, v: World, pd: nat, t: Todo) {
    && Inv(v) && Kept(w, v, pd) && Settled(w, v) && Returned(w, v, pd) && v.panicked == w.panicked
    && pd in v.spaces && v.spaces[pd] == t && At(v, pd) == At(w, pd) && DirOk(v, pd)
  }

  /** A frame that leaves the record is freed. */
  lemma FreeLeaving(w: World, v: World, u: World, pd: nat, s: Todo, t: Todo, f: nat)
    requires Dropping(w, v, pd, s) && Later(s, t)
    requires RoleOf(v, f).Page? || RoleOf(v, f).Table?
    requires u == Mark(Pass(v, pd, t), f, Held) && Leaves(RoleOf(v, f), pd, t)
    requires forall g: nat {:trigger RoleOf(v, g)} :: Leaves(RoleOf(v, g), pd, t) ==> g == f
    ensures Dropping(w, FreeFrame(u, f), pd, t)
  {
    hide Kept, Pool, Mapped;
    var x := FreeFrame(u, f);
    forall g: nat {:trigger LeavesAt(v, u, pd, t, g)} ensures LeavesAt(v, u, pd, t, g) { assert Leaves(RoleOf(v, g), pd, t) ==> g == f; }
    InRange(v, f);
    LeaveInv(v, u, pd, t);
    FreeInv(u, f);
    OutsideKept(u, x, pd);
    KeptTwice(v, u, x, pd);
    KeptTwice(w, v, x, pd);
    assert Settled(v, x) && Returned(v, x, pd) by { FreedRoles(v, u, pd, t, f); }
    SettledTwice(w, v, x);
    ReturnedTwice(w, v, x, pd);
    DirKept(x, pd);
  }

  lemma InRange(w: World, f: nat)
    requires Inv(w) && RoleOf(w, f) != Kernel
    ensures f < |w.role| == |w.mem|
  {
    assert PoolOk(w, f);
  }

  lemma DirKept(w: World, pd: nat)
    requires Inv(w)
    ensures DirOk(w, pd)
  {
  }

  lemma FreedRoles(v: World, u: World, pd: nat, t: Todo, f: nat)
    requires Leaves(RoleOf(v, f), pd, t) && u == Mark(Pass(v, pd, t), f, Held) && f < |v.role| == |v.mem|
    ensures Settled(v, FreeFrame(u, f)) && Returned(v, FreeFrame(u, f), pd)
  {
  }

  /** Nothing is passed. */
  lemma NoneLeaving(w: World, v: World, pd: nat, s: Todo, t: Todo)
    requires Dropping(w, v, pd, s) && Later(s, t)
    requires forall g: nat {:trigger RoleOf(v, g)} :: !Leaves(RoleOf(v, g), pd, t)
    ensures Dropping(w, Pass(v, pd, t), pd, t)
  {
    hide Kept, Pool, Mapped;
    var u := Pass(v, pd, t);
    forall g: nat {:trigger LeavesAt(v, u, pd, t, g)} ensures LeavesAt(v, u, pd, t, g) { assert !Leaves(RoleOf(v, g), pd, t); }
    LeaveInv(v, u, pd, t);
    KeptTwice(w, v, u, pd);
    forall g: nat {:trigger ReturnedAt(w, u, pd, g)} ensures ReturnedAt(w, u, pd, g) { assert ReturnedAt(w, v, pd, g); }
    forall g: nat {:trigger RoleOf(u, g)} | RoleOf(u, g) == Held ensures RoleOf(w, g) == Held { assert RoleOf(v, g) == Held; }
  }

  lemma DropPageInv(w: World, v: World, pd: nat, i0: Index, i1: Index)
    requires Dropping(w, v, pd, Todo(i0, i1)) && i0 > 0
    ensures Dropping(w, DropPage(v, pd, i0, i1), pd, Todo(i0, i1 + 1))
  {
    hide Kept, Pool, Settled, Returned;
    var x, t := Lookup(v, pd, i0, i1), Todo(i0, i1 + 1);
    forall g: nat {:trigger RoleOf(v, g)} | Leaves(RoleOf(v, g), pd, t)
      ensures Present(x) && g == x.frame
    {
      assert OwnedOk(v, g);
    }
    if Present(x) {
      assert PageOk(v, pd, i0, i1);
      FreeLeaving(w, v, Mark(Pass(v, pd, t), x.frame, Held), pd, Todo(i0, i1), t, x.frame);
    } else {
      NoneLeaving(w, v, pd, Todo(i0, i1), t);
    }
  }

  lemma {:induction false} DropRowInv(w: World, v: World, pd: nat, i0: Index, n: nat)
    requires Dropping(w, v, pd, Todo(i0, 0)) && i0 > 0 && n <= 1024
    ensures Dropping(w, DropRow(v, pd, i0, n), pd, Todo(i0, n))
  {
    hide Dropping, DropPage;
    if n == 0 {
      PassSame(w, v, pd, Todo(i0, 0));
    } else {
      DropRowInv(w, v, pd, i0, n - 1);
      DropPageInv(w, DropRow(v, pd, i0, n - 1), pd, i0, n - 1);
    }
  }

  lemma PassSame(w: World, v: World, pd: nat, t: Todo)
    requires Dropping(w, v, pd, t)
    ensures Pass(v, pd, t) == v
  {
    assert v.spaces[pd := t] == v.spaces;
  }

  lemma DropTableInv(w: World, v: World, pd: nat, i0: Index)
    requires Dropping(w, v, pd, Todo(i0, 0))
    ensures Dropping(w, DropTable(v, pd, i0), pd, Todo(i0 + 1, 0))
  {
    hide Kept, Pool, Settled, Returned, DropRow;
    var pde, t := At(v, pd)[i0], Todo(i0 + 1, 0);
    if !Present(pde) {
      forall g: nat {:trigger RoleOf(v, g)} ensures !Leaves(RoleOf(v, g), pd, t) { assert OwnedOk(v, g); }
      NoneLeaving(w, v, pd, Todo(i0, 0), t);
    } else if i0 > 0 {
      DropRowInv(w, v, pd, i0, 1024);
      LeaveTable(w, DropRow(v, pd, i0, 1024), pd, i0, 1024);
    } else {
      LeaveTable(w, v, pd, i0, 0);
    }
  }

  lemma LeaveTable(w: World, v: World, pd: nat, i0: Index, n: nat)
    requires Dropping(w, v, pd, Todo(i0, n)) && (n == 1024 || (i0 == 0 && n == 0)) && Present(At(v, pd)[i0])
    ensures var u := Mark(Pass(v, pd, Todo(i0 + 1, 0)), At(v, pd)[i0].frame, Held);
      Dropping(w, FreeFrame(u, At(v, pd)[i0].frame), pd, Todo(i0 + 1, 0))
  {
    hide Kept, Pool, Settled, Returned;
    var f, t := At(v, pd)[i0].frame, Todo(i0 + 1, 0);
    assert TableOk(v, pd, i0);
    forall g: nat {:trigger RoleOf(v, g)} | Leaves(RoleOf(v, g), pd, t)
      ensures g == f
    {
      assert OwnedOk(v, g);
    }
    FreeLeaving(w, v, Mark(Pass(v, pd, t), f, Held), pd, Todo(i0, n), t, f);
  }

  lemma {:induction false} DropTablesInv(w: World, pd: nat, m: nat)
    requires Inv(w) && Alive(w, pd) && m <= 1024
    ensures Dropping(w, DropTables(w, pd, m), pd, Todo(m, 0))
  {
    hide DropTable;
    if m == 0 {
      DirKept(w, pd);
    } else {
      DropTablesInv(w, pd, m - 1);
      DropTableInv(w, DropTables(w, pd, m - 1), pd, m - 1);
    }
  }

  /** Only the directory is left. */
  lemma LastFrame(v: World, pd: nat)
    requires Inv(v) && pd in v.spaces && v.spaces[pd] == Todo(1024, 0)
    ensures var u := Mark(v.(spaces := v.spaces - {pd}), pd, Held);
      Inv(u) && Kept(v, u, pd) && RoleOf(u, pd) == Held
      && (forall f: nat {:trigger RoleOf(v, f)} :: Owned(RoleOf(v, f)) && Owner(v, f) == pd ==> f == pd)
  {
    var u := Mark(v.(spaces := v.spaces - {pd}), pd, Held);
    assert DirOk(v, pd) && PoolOk(v, pd);
    forall f: nat {:trigger RoleOf(v, f)} | Owned(RoleOf(v, f)) && Owner(v, f) == pd ensures f == pd { assert OwnedOk(v, f); }
    PoolKept(v, u, pd, pd, Held);
    forall q: nat {:trigger DirOk(u, q)} ensures DirOk(u, q) { assert DirOk(v, q); }
    forall q: nat, j0: nat {:trigger TableOk(u, q, j0)} ensures TableOk(u, q, j0) { assert TableOk(v, q, j0); }
    forall q: nat, j0: nat, j1: nat {:trigger PageOk(u, q, j0, j1)} ensures PageOk(u, q, j0, j1) { assert PageOk(v, q, j0, j1); }
    forall g: nat {:trigger OwnedOk(u, g)} ensures OwnedOk(u, g) { assert OwnedOk(v, g) && RoleOf(v, g) == RoleOf(v, g); }
  }

  /** Destroying a space frees its directory, its tables and its pages, and no other frame: whatever
      it mapped to itself stays as it is, and so do the other spaces. */
  lemma DestroySpec(w: World, pd: nat)
    requires Inv(w) && Alive(w, pd)
    ensures var v := Destroy(w, pd);
      && Inv(v) && Kept(w, v, pd) && Settled(w, v) && pd !in v.spaces && v.panicked == w.panicked
      && (forall f: nat {:trigger RoleOf(v, f)} ::
            if Owned(RoleOf(w, f)) && Owner(w, f) == pd then RoleOf(v, f).Free? else RoleOf(v, f) == RoleOf(w, f))
  {
    hide DropTables, Kept, Pool, Mapped;
    DropTablesInv(w, pd, 1024);
    var v := DropTables(w, pd, 1024);
    LastFrame(v, pd);
    var u := Mark(v.(spaces := v.spaces - {pd}), pd, Held);
    var x := FreeFrame(u, pd);
    FreeInv(u, pd);
    OutsideKept(u, x, pd);
    KeptTwice(v, u, x, pd);
    KeptTwice(w, v, x, pd);
    DirKept(w, pd);
    InRange(v, pd);
    forall f: nat {:trigger RoleOf(x, f)}
      ensures if Owned(RoleOf(w, f)) && Owner(w, f) == pd then RoleOf(x, f).Free? else RoleOf(x, f) == RoleOf(w, f)
    {
      assert ReturnedAt(w, v, pd, f) && RoleOf(v, f) == RoleOf(v, f);
    }
  }
}
