/** exec: the upper half is unmapped and its frames go back to the pool. */
module VmmExec {
  import opened VmmModel
  import opened VmmTables
  import opened VmmSpaces
  import opened VmmFork

  /** A frame keeps its role, or belonged to pd and is free now. */
  predicate ReturnedAt(w: World, v: World, pd: nat, f: nat) {
    RoleOf(v, f) == RoleOf(w, f) || (Owned(RoleOf(w, f)) && Owner(w, f) == pd && RoleOf(v, f).Free?)
  }

  ghost predicate Returned(w: World, v: World, pd: nat) {
    forall f: nat {:trigger ReturnedAt(w, v, pd, f)} :: ReturnedAt(w, v, pd, f)
  }

  lemma ReturnedTwice(u: World, v: World, w: World, pd: nat)
    requires Returned(u, v, pd) && Returned(v, w, pd)
    ensures Returned(u, w, pd)
  {
    forall f: nat {:trigger ReturnedAt(u, w, pd, f)}
      ensures ReturnedAt(u, w, pd, f)
    {
      assert ReturnedAt(u, v, pd, f) && ReturnedAt(v, w, pd, f);
    }
  }

  // ---------------------------------------------------------------- exec

  /** One round of the inner loop. */
  function ExecPage(w: World, pd: nat, i0: Index, i1: Index): World {
    var x := Lookup(w, pd, i0, i1);
    if !Present(x) then w else FreeFrame(Remap(w, pd, i0, i1, ZERO, x.frame, Held), x.frame)
  }

  function ExecRow(w: World, pd: nat, i0: Index, n: nat): World
    requires n <= 1024
  {
    if n == 0 then w else ExecPage(ExecRow(w, pd, i0, n - 1), pd, i0, n - 1)
  }

  /** exec, for the tables 512 to m - 1. */
  function Exec(w: World, pd: nat, m: nat): World
    requires 512 <= m <= 1024
  {
    if m == 512 then w
    else
      var v := Exec(w, pd, m - 1);
      if Present(At(v, pd)[m - 1]) then ExecRow(v, pd, m - 1, 1024) else v
  }

  predicate ClearedAt(w: World, v: World, pd: nat, i0: Index, i1: Index, m: nat, n: nat) {
    Lookup(v, pd, i0, i1) == if i0 >= 512 && Before(i0, i1, m, n) then ZERO else Lookup(w, pd, i0, i1)
  }

  ghost predicate Cleared(w: World, v: World, pd: nat, m: nat, n: nat) {
    forall i0: Index, i1: Index {:trigger ClearedAt(w, v, pd, i0, i1, m, n)} :: ClearedAt(w, v, pd, i0, i1, m, n)
  }

  ghost predicate Clearing(w: World, v: World, pd: nat, m: nat, n: nat) {
    && Inv(v) && Kept(w, v, pd) && Alive(v, pd) && Settled(w, v) && Returned(w, v, pd) && v.panicked == w.panicked
    && At(v, pd) == At(w, pd) && Cleared(w, v, pd, m, n)
  }

  lemma ExecPageInv(w: World, pd: nat, i0: Index, i1: Index)
    requires Inv(w) && Alive(w, pd) && i0 >= 512
    ensures var v := ExecPage(w, pd, i0, i1);
      && Inv(v) && Kept(w, v, pd) && Alive(v, pd) && Settled(w, v) && Returned(w, v, pd) && v.panicked == w.panicked
      && At(v, pd) == At(w, pd) && OneMapped(w, v, pd, i0, i1, ZERO)
  {
    var x := Lookup(w, pd, i0, i1);
    if Present(x) {
      var u := Remap(w, pd, i0, i1, ZERO, x.frame, Held);
      RemapInv(w, pd, i0, i1, ZERO, x.frame, Held);
      FreeMaps(u, pd, i0, i1, x.frame, w);
      ExecRoles(w, pd, i0, i1);
    }
  }

  lemma FreeMaps(u: World, pd: nat, i0: Index, i1: Index, f: nat, w: World)
    requires Inv(u) && RoleOf(u, f) == Held && Kept(w, u, pd) && Alive(w, pd) && Alive(u, pd) && OneMapped(w, u, pd, i0, i1, ZERO)
    ensures var v := FreeFrame(u, f);
      Inv(v) && Kept(w, v, pd) && Alive(v, pd) && OneMapped(w, v, pd, i0, i1, ZERO)
  {
    hide Lookup, Inv;
    var v := FreeFrame(u, f);
    FreeInv(u, f);
    OutsideKept(u, v, pd);
    KeptTwice(w, u, v, pd);
    OutsideMaps(u, v);
    forall q: nat, j0: Index, j1: Index {:trigger Lookup(v, q, j0, j1)} | Due(w, q, j0)
      ensures Lookup(v, q, j0, j1) == if q == pd && j0 == i0 && j1 == i1 then ZERO else Lookup(w, q, j0, j1)
    {
      assert Due(u, q, j0) && Lookup(v, q, j0, j1) == Lookup(u, q, j0, j1);
    }
  }

  lemma ExecRoles(w: World, pd: nat, i0: Index, i1: Index)
    requires Inv(w) && Alive(w, pd) && i0 >= 512 && Present(Lookup(w, pd, i0, i1))
    ensures var v := ExecPage(w, pd, i0, i1);
      Settled(w, v) && Returned(w, v, pd) && v.panicked == w.panicked && At(v, pd) == At(w, pd)
  {
    var x := Lookup(w, pd, i0, i1);
    assert PageOk(w, pd, i0, i1) && PoolOk(w, x.frame) && DirOk(w, pd) && TableOk(w, pd, i0);
  }

  lemma ExecStep(w: World, v: World, pd: nat, m: Index, n: Index)
    requires Clearing(w, v, pd, m, n) && m >= 512 && Alive(w, pd)
    ensures Clearing(w, ExecPage(v, pd, m, n), pd, m, n + 1)
  {
    hide Inv, Kept, Lookup, Settled, Returned, ExecPage;
    var u := ExecPage(v, pd, m, n);
    ExecPageInv(v, pd, m, n);
    KeptTwice(w, v, u, pd);
    SettledTwice(w, v, u);
    ReturnedTwice(w, v, u, pd);
    forall i0: Index, i1: Index {:trigger ClearedAt(w, u, pd, i0, i1, m, n + 1)}
      ensures ClearedAt(w, u, pd, i0, i1, m, n + 1)
    {
      assert ClearedAt(w, v, pd, i0, i1, m, n);
      assert Due(v, pd, i0) && Lookup(u, pd, i0, i1) == if i0 == m && i1 == n then ZERO else Lookup(v, pd, i0, i1);
    }
  }

  lemma {:induction false} ExecRowInv(w: World, v: World, pd: nat, m: Index, n: nat)
    requires Clearing(w, v, pd, m, 0) && m >= 512 && n <= 1024 && Alive(w, pd)
    ensures Clearing(w, ExecRow(v, pd, m, n), pd, m, n)
  {
    hide Clearing, ExecPage;
    if n > 0 {
      ExecRowInv(w, v, pd, m, n - 1);
      ExecStep(w, ExecRow(v, pd, m, n - 1), pd, m, n - 1);
    }
  }

  lemma ExecNextRow(w: World, v: World, pd: nat, m: Index, n: nat)
    requires Clearing(w, v, pd, m, n) && (n == 1024 || (n == 0 && !Present(At(v, pd)[m])))
    ensures Clearing(w, v, pd, m + 1, 0)
  {
    hide Inv, Kept, Settled, Returned;
    forall i0: Index, i1: Index {:trigger ClearedAt(w, v, pd, i0, i1, m + 1, 0)}
      ensures ClearedAt(w, v, pd, i0, i1, m + 1, 0)
    {
      assert ClearedAt(w, v, pd, i0, i1, m, n);
    }
  }

  lemma ExecStart(w: World, pd: nat)
    requires Inv(w) && Alive(w, pd)
    ensures Clearing(w, w, pd, 512, 0)
  {
  }

  lemma {:induction false} ExecRows(w: World, pd: nat, m: nat)
    requires Inv(w) && Alive(w, pd) && 512 <= m <= 1024
    ensures Clearing(w, Exec(w, pd, m), pd, m, 0)
  {
    hide Clearing, ExecRow;
    if m == 512 {
      ExecStart(w, pd);
    } else {
      ExecRows(w, pd, m - 1);
      var v := Exec(w, pd, m - 1);
      if Present(At(v, pd)[m - 1]) {
        ExecRowInv(w, v, pd, m - 1, 1024);
        ExecNextRow(w, ExecRow(v, pd, m - 1, 1024), pd, m - 1, 1024);
      } else {
        ExecNextRow(w, v, pd, m - 1, 0);
      }
    }
  }

  predicate UpperPage(r: Role, pd: nat) {
    r.Page? && r.pd == pd && r.i0 >= 512
  }

  /** After exec the upper half of the space maps nothing, the lower half is as before, exactly the
      frames of the upper half are free, and the other spaces are as before. */
  lemma ExecSpec(w: World, pd: nat)
    requires Inv(w) && Alive(w, pd)
    ensures var v := Exec(w, pd, 1024);
      && Inv(v) && Kept(w, v, pd) && Alive(v, pd) && Settled(w, v) && v.panicked == w.panicked
      && (forall i0: Index, i1: Index {:trigger Lookup(v, pd, i0, i1)} :: Lookup(v, pd, i0, i1) == if i0 >= 512 then ZERO else Lookup(w, pd, i0, i1))
      && (forall f: nat {:trigger RoleOf(v, f)} :: if UpperPage(RoleOf(w, f), pd) then RoleOf(v, f).Free? else RoleOf(v, f) == RoleOf(w, f))
  {
    hide Exec, Lookup;
    ExecRows(w, pd, 1024);
    var v := Exec(w, pd, 1024);
    forall i0: Index, i1: Index {:trigger Lookup(v, pd, i0, i1)}
      ensures Lookup(v, pd, i0, i1) == if i0 >= 512 then ZERO else Lookup(w, pd, i0, i1)
    {
      assert ClearedAt(w, v, pd, i0, i1, 1024, 0);
    }
    forall f: nat {:trigger RoleOf(v, f)}
      ensures if UpperPage(RoleOf(w, f), pd) then RoleOf(v, f).Free? else RoleOf(v, f) == RoleOf(w, f)
    {
      ExecFrame(w, v, pd, f);
    }
  }

  lemma ExecFrame(w: World, v: World, pd: nat, f: nat)
    requires Inv(w) && Alive(w, pd) && Clearing(w, v, pd, 1024, 0)
    ensures if UpperPage(RoleOf(w, f), pd) then RoleOf(v, f).Free? else RoleOf(v, f) == RoleOf(w, f)
  {
    hide Kept, Pool, Settled;
    var r := RoleOf(w, f);
    assert ReturnedAt(w, v, pd, f) && OwnedOk(v, f) && OwnedOk(w, f);
    if UpperPage(r, pd) { UpperGone(w, v, pd, f); }
    if RoleOf(v, f) != r && !UpperPage(r, pd) {
      StaysMapped(w, v, pd, f);
    }
  }

  lemma UpperGone(w: World, v: World, pd: nat, f: nat)
    requires Inv(w) && Alive(w, pd) && Clearing(w, v, pd, 1024, 0) && UpperPage(RoleOf(w, f), pd)
    ensures RoleOf(v, f) != RoleOf(w, f)
  {
    hide Kept, Pool, Settled;
    var r := RoleOf(w, f);
    assert OwnedOk(v, f) && OwnedOk(w, f);
    assert ClearedAt(w, v, pd, r.i0, r.i1, 1024, 0);
  }

  /** A frame that backs the directory, a table or a page of the lower half is still in use. */
  lemma StaysMapped(w: World, v: World, pd: nat, f: nat)
    requires Inv(w) && Alive(w, pd) && Clearing(w, v, pd, 1024, 0)
    requires Owned(RoleOf(w, f)) && Owner(w, f) == pd && !UpperPage(RoleOf(w, f), pd)
    ensures RoleOf(v, f) == RoleOf(w, f)
  {
    hide Kept, Pool, Settled;
    assert OwnedOk(w, f);
    match RoleOf(w, f)
    case Directory =>
      assert DirOk(v, pd);
    case Table(_, i0) =>
      assert TableOk(v, pd, i0);
    case Page(_, i0, i1) =>
      assert ClearedAt(w, v, pd, i0, i1, 1024, 0) && PageOk(v, pd, i0, i1);
    case _ =>
  }
}
