/** fork: the child gets the parent's upper half, page by page, in frames of its own. */
module VmmFork {
  import opened VmmModel
  import opened VmmTables
  import opened VmmSpaces

  /** One round of the inner loop. */
  function ForkPage(w: World, parent: nat, child: nat, i0: Index, i1: Index): World {
    var x := Lookup(w, parent, i0, i1);
    if w.panicked || !Present(x) then w else MapNew(w, child, i0, i1, At(w, x.frame))
  }

  /** The first n rounds of the inner loop for table i0. */
  function ForkRow(w: World, parent: nat, child: nat, i0: Index, n: nat): World
    requires n <= 1024
  {
    if n == 0 then w else ForkPage(ForkRow(w, parent, child, i0, n - 1), parent, child, i0, n - 1)
  }

  /** The rounds of the outer loop for tables 512 to m - 1. */
  function Fork(w: World, parent: nat, child: nat, m: nat): World
    requires 512 <= m <= 1024
  {
    if m == 512 then w
    else
      var v := Fork(w, parent, child, m - 1);
      if Present(At(v, parent)[m - 1]) then ForkRow(v, parent, child, m - 1, 1024) else v
  }

  // ---------------------------------------------------------------- what has been copied

  predicate Before(i0: nat, i1: nat, m: nat, n: nat) {
    i0 < m || (i0 == m && i1 < n)
  }

  /** Page (i0, i1) of the child when all pages before (m, n) have been copied: a frame with the
      parent's bytes where the parent has the page, what it was before otherwise. */
  predicate CopiedAt(w: World, v: World, parent: nat, child: nat, i0: Index, i1: Index, m: nat, n: nat) {
    var x, y := Lookup(w, parent, i0, i1), Lookup(v, child, i0, i1);
    if i0 >= 512 && Before(i0, i1, m, n) && Present(x) then
      y.low == 7 && At(v, y.frame) == At(w, x.frame) && RoleOf(v, y.frame) == Page(child, i0, i1)
    else y == Lookup(w, child, i0, i1)
  }

  ghost predicate Copied(w: World, v: World, parent: nat, child: nat, m: nat, n: nat) {
    forall i0: Index, i1: Index {:trigger CopiedAt(w, v, parent, child, i0, i1, m, n)} :: CopiedAt(w, v, parent, child, i0, i1, m, n)
  }

  /** Tables that the child gets before (m, n). */
  predicate TableThere(w: World, v: World, parent: nat, child: nat, i0: Index, m: nat, n: nat) {
    Present(At(v, child)[i0]) <==> (i0 < 512 && Present(At(w, child)[i0])) || (i0 >= 512 && RowNeed(w, parent, i0, if i0 < m then 1024 else if i0 == m && n <= 1024 then n else 0) > 0)
  }

  ghost predicate TablesThere(w: World, v: World, parent: nat, child: nat, m: nat, n: nat) {
    forall i0: Index {:trigger TableThere(w, v, parent, child, i0, m, n)} :: TableThere(w, v, parent, child, i0, m, n)
  }

  /** Frames taken by the first n pages of a table: one a page, and one for the table itself. */
  function RowNeed(w: World, parent: nat, i0: Index, n: nat): nat
    requires n <= 1024
  {
    if n == 0 then 0
    else RowNeed(w, parent, i0, n - 1) + (if !Present(Lookup(w, parent, i0, n - 1)) then 0 else if RowNeed(w, parent, i0, n - 1) == 0 then 2 else 1)
  }

  function Need(w: World, parent: nat, m: nat): nat
    requires 512 <= m <= 1024
  {
    if m == 512 then 0 else Need(w, parent, m - 1) + RowNeed(w, parent, m - 1, 1024)
  }

  /** A child as its constructor leaves it. */
  ghost predicate Ready(w: World, parent: nat, child: nat) {
    && Inv(w) && Alive(w, parent) && Alive(w, child) && parent != child
    && forall j0: Index {:trigger At(w, child)[j0]} :: j0 >= 512 ==> !Present(At(w, child)[j0])
  }

  /** The state of affairs in the loops. */
  ghost predicate Copying(w: World, v: World, parent: nat, child: nat, m: nat, n: nat, used: nat) {
    && Inv(v) && Kept(w, v, child) && Alive(v, child) && Settled(w, v)
    && Copied(w, v, parent, child, m, n) && TablesThere(w, v, parent, child, m, n) && Available(v) == Available(w) - used
  }

  lemma CopyStart(w: World, parent: nat, child: nat)
    requires Ready(w, parent, child)
    ensures Copying(w, w, parent, child, 512, 0, 0)
  {
    forall i0: Index {:trigger TableThere(w, w, parent, child, i0, 512, 0)}
      ensures TableThere(w, w, parent, child, i0, 512, 0)
    {
      assert i0 >= 512 ==> !Present(At(w, child)[i0]);
    }
  }

  /** The parent during the loops. */
  lemma ParentSame(w: World, v: World, parent: nat, child: nat, i0: Index, i1: Index)
    requires Ready(w, parent, child) && Kept(w, v, child)
    ensures At(v, parent) == At(w, parent) && Lookup(v, parent, i0, i1) == Lookup(w, parent, i0, i1)
    ensures i0 > 0 && Present(Lookup(w, parent, i0, i1)) ==> At(v, Lookup(v, parent, i0, i1).frame) == At(w, Lookup(w, parent, i0, i1).frame)
  {
    SpaceKept(w, v, child, parent, i0, i1);
  }

  lemma ForkPageInv(w: World, v: World, parent: nat, child: nat, m: Index, n: Index, used: nat)
    requires Ready(w, parent, child) && Copying(w, v, parent, child, m, n, used) && !v.panicked && m >= 512
    ensures var u := ForkPage(v, parent, child, m, n);
      var cost := if !Present(Lookup(w, parent, m, n)) then 0 else if RowNeed(w, parent, m, n) == 0 then 2 else 1;
      && (u.panicked <==> Available(v) < cost)
      && Inv(u) && Kept(w, u, child)
      && (!u.panicked ==> Copying(w, u, parent, child, m, n + 1, used + cost))
  {
    hide Inv, Kept, Lookup, Copied, TablesThere, Alloc, Available, MapNew, Settled;
    ParentSame(w, v, parent, child, m, n);
    AvailableNat(v);
    var x := Lookup(w, parent, m, n);
    assert TableThere(w, v, parent, child, m, m, n) by { ThereAt(w, v, parent, child, m, m, n); }
    if Present(x) {
      var s := At(v, x.frame);
      NotYet(w, v, parent, child, m, n);
      MapNewInv(v, child, m, n, s);
      var u := MapNew(v, child, m, n, s);
      KeptTwice(w, v, u, child);
      if !u.panicked {
        ForkMapped(w, v, u, parent, child, m, n);
        SettledTwice(w, v, u);
      }
    } else {
      ForkSkipped(w, v, parent, child, m, n);
    }
  }

  lemma SettledTwice(u: World, v: World, w: World)
    requires Settled(u, v) && Settled(v, w)
    ensures Settled(u, w)
  {
  }

  lemma AvailableNat(w: World)
    requires Inv(w)
    ensures Available(w) >= 0
  {
  }

  lemma ThereAt(w: World, v: World, parent: nat, child: nat, i0: Index, m: nat, n: nat)
    requires TablesThere(w, v, parent, child, m, n)
    ensures TableThere(w, v, parent, child, i0, m, n)
  {
  }

  lemma NotYet(w: World, v: World, parent: nat, child: nat, m: Index, n: Index)
    requires Ready(w, parent, child) && Copied(w, v, parent, child, m, n) && m >= 512
    ensures !Present(Lookup(v, child, m, n))
  {
    assert CopiedAt(w, v, parent, child, m, n, m, n);
    assert !Present(At(w, child)[m]);
  }

  lemma ForkSkipped(w: World, v: World, parent: nat, child: nat, m: Index, n: Index)
    requires Copied(w, v, parent, child, m, n) && TablesThere(w, v, parent, child, m, n) && !Present(Lookup(w, parent, m, n))
    ensures Copied(w, v, parent, child, m, n + 1) && TablesThere(w, v, parent, child, m, n + 1)
  {
    hide Lookup;
    forall i0: Index, i1: Index {:trigger CopiedAt(w, v, parent, child, i0, i1, m, n + 1)}
      ensures CopiedAt(w, v, parent, child, i0, i1, m, n + 1)
    {
      assert CopiedAt(w, v, parent, child, i0, i1, m, n);
    }
    forall i0: Index {:trigger TableThere(w, v, parent, child, i0, m, n + 1)}
      ensures TableThere(w, v, parent, child, i0, m, n + 1)
    {
      assert TableThere(w, v, parent, child, i0, m, n);
    }
  }

  lemma ForkMapped(w: World, v: World, u: World, parent: nat, child: nat, m: Index, n: Index)
    requires Ready(w, parent, child) && Kept(w, v, child) && Alive(v, child) && m >= 512
    requires Copied(w, v, parent, child, m, n) && TablesThere(w, v, parent, child, m, n) && Present(Lookup(w, parent, m, n))
    requires NewPage(v, u, child, m, n, At(v, Lookup(w, parent, m, n).frame))
    ensures Copied(w, u, parent, child, m, n + 1) && TablesThere(w, u, parent, child, m, n + 1)
  {
    hide Lookup, Inv, Kept;
    ParentSame(w, v, parent, child, m, n);
    forall i0: Index, i1: Index {:trigger CopiedAt(w, u, parent, child, i0, i1, m, n + 1)}
      ensures CopiedAt(w, u, parent, child, i0, i1, m, n + 1)
    {
      assert CopiedAt(w, v, parent, child, i0, i1, m, n);
      assert Due(v, child, i0);
      if i0 != m || i1 != n {
        assert Lookup(u, child, i0, i1) == Lookup(v, child, i0, i1);
      }
    }
    forall i0: Index {:trigger TableThere(w, u, parent, child, i0, m, n + 1)}
      ensures TableThere(w, u, parent, child, i0, m, n + 1)
    {
      assert TableThere(w, v, parent, child, i0, m, n);
      assert i0 != m ==> At(u, child)[i0] == At(v, child)[i0];
    }
  }

  // ---------------------------------------------------------------- the loops

  lemma {:induction false} ForkRowInv(w: World, v: World, parent: nat, child: nat, m: Index, n: nat, used: nat)
    requires Ready(w, parent, child) && Copying(w, v, parent, child, m, 0, used) && !v.panicked && m >= 512 && n <= 1024
    ensures var u := ForkRow(v, parent, child, m, n);
      && (u.panicked <==> Available(v) < RowNeed(w, parent, m, n))
      && Inv(u) && Kept(w, u, child)
      && (!u.panicked ==> Copying(w, u, parent, child, m, n, used + RowNeed(w, parent, m, n)))
  {
    hide Inv, Kept, Ready, Copied, TablesThere, Lookup, ForkPage, Settled;
    AvailableNat(v);
    if n > 0 {
      ForkRowInv(w, v, parent, child, m, n - 1, used);
      var u := ForkRow(v, parent, child, m, n - 1);
      if !u.panicked {
        AvailableNat(u);
        ForkPageInv(w, u, parent, child, m, n - 1, used + RowNeed(w, parent, m, n - 1));
      } else {
        assert ForkPage(u, parent, child, m, n - 1) == u by { ForkPanicked(u, parent, child, m, n - 1); }
      }
    }
  }

  lemma ForkPanicked(u: World, parent: nat, child: nat, i0: Index, i1: Index)
    requires u.panicked
    ensures ForkPage(u, parent, child, i0, i1) == u
  {
  }

  lemma NextRow(w: World, v: World, parent: nat, child: nat, m: Index)
    requires Copied(w, v, parent, child, m, 1024) && TablesThere(w, v, parent, child, m, 1024)
    ensures Copied(w, v, parent, child, m + 1, 0) && TablesThere(w, v, parent, child, m + 1, 0)
  {
    hide Lookup;
    forall i0: Index, i1: Index {:trigger CopiedAt(w, v, parent, child, i0, i1, m + 1, 0)}
      ensures CopiedAt(w, v, parent, child, i0, i1, m + 1, 0)
    {
      assert CopiedAt(w, v, parent, child, i0, i1, m, 1024);
    }
    forall i0: Index {:trigger TableThere(w, v, parent, child, i0, m + 1, 0)}
      ensures TableThere(w, v, parent, child, i0, m + 1, 0)
    {
      assert TableThere(w, v, parent, child, i0, m, 1024);
    }
  }

  /** A table the parent does not have. */
  lemma {:induction false} EmptyRow(w: World, parent: nat, i0: Index, n: nat)
    requires !Present(At(w, parent)[i0]) && n <= 1024
    ensures RowNeed(w, parent, i0, n) == 0
  {
    if n > 0 { EmptyRow(w, parent, i0, n - 1); }
  }

  lemma SkippedRow(w: World, v: World, parent: nat, child: nat, m: Index)
    requires Copied(w, v, parent, child, m, 0) && TablesThere(w, v, parent, child, m, 0) && !Present(At(w, parent)[m])
    ensures Copied(w, v, parent, child, m + 1, 0) && TablesThere(w, v, parent, child, m + 1, 0)
  {
    EmptyRow(w, parent, m, 1024);
    forall i0: Index, i1: Index {:trigger CopiedAt(w, v, parent, child, i0, i1, m + 1, 0)}
      ensures CopiedAt(w, v, parent, child, i0, i1, m + 1, 0)
    {
      assert CopiedAt(w, v, parent, child, i0, i1, m, 0);
    }
    forall i0: Index {:trigger TableThere(w, v, parent, child, i0, m + 1, 0)}
      ensures TableThere(w, v, parent, child, i0, m + 1, 0)
    {
      assert TableThere(w, v, parent, child, i0, m, 0);
    }
  }

  /** fork fails exactly when the frames do not suffice for the pages and tables of the parent's
      upper half. Otherwise the child maps the same pages of the upper half with the same bytes, in
      frames that are its own; the parent and every other space are as before. */
  lemma {:induction false} ForkSpec(w: World, parent: nat, child: nat, m: nat)
    requires Ready(w, parent, child) && !w.panicked && 512 <= m <= 1024
    ensures var v := Fork(w, parent, child, m);
      && (v.panicked <==> Available(w) < Need(w, parent, m))
      && Inv(v) && Kept(w, v, child)
      && (!v.panicked ==> Copying(w, v, parent, child, m, 0, Need(w, parent, m)))
  {
    hide Inv, Kept, Copied, TablesThere, Lookup, ForkRow, Settled, Alive, RowNeed;
    AvailableNat(w);
    if m == 512 {
      CopyStart(w, parent, child);
    } else {
      ForkSpec(w, parent, child, m - 1);
      var v := Fork(w, parent, child, m - 1);
      AvailableNat(v);
      ParentSame(w, v, parent, child, m - 1, 0);
      if !Present(At(v, parent)[m - 1]) {
        EmptyRow(w, parent, m - 1, 1024);
        if !v.panicked { SkippedRow(w, v, parent, child, m - 1); }
      } else if v.panicked {
        RowPanicked(v, parent, child, m - 1, 1024);
      } else {
        ForkRowInv(w, v, parent, child, m - 1, 1024, Need(w, parent, m - 1));
        var u := ForkRow(v, parent, child, m - 1, 1024);
        AvailableNat(u);
        if !u.panicked { NextRow(w, u, parent, child, m - 1); }
      }
    }
  }

  lemma {:induction false} RowPanicked(u: World, parent: nat, child: nat, i0: Index, n: nat)
    requires u.panicked && n <= 1024
    ensures ForkRow(u, parent, child, i0, n) == u
  {
    if n > 0 { RowPanicked(u, parent, child, i0, n - 1); }
  }
}
