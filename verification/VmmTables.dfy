/** Two-level tables against flat maps: what getPTE, pmap and punmap do to every mapping. */
module VmmTables {
  import opened VmmModel

  /** The tables of a space in use, or what is left of one being destroyed. */
  predicate Due(w: World, q: nat, j0: nat) {
    q in w.spaces && TableDue(w.spaces[q], j0)
  }

  /** Every mapping is the same. */
  ghost predicate SameMaps(w: World, v: World) {
    forall q: nat, j0: Index, j1: Index {:trigger Lookup(v, q, j0, j1)} :: Due(w, q, j0) ==> Lookup(v, q, j0, j1) == Lookup(w, q, j0, j1)
  }

  /** Every mapping is the same except that page (i0, i1) of pd is now x. */
  ghost predicate OneMapped(w: World, v: World, pd: nat, i0: Index, i1: Index, x: Word) {
    forall q: nat, j0: Index, j1: Index {:trigger Lookup(v, q, j0, j1)} :: Due(w, q, j0) ==>
      Lookup(v, q, j0, j1) == if q == pd && j0 == i0 && j1 == i1 then x else Lookup(w, q, j0, j1)
  }

  // ---------------------------------------------------------------- changes of tables

  /** Two tables, or two directories, or a table and a directory, are different frames. */
  lemma TablesApart(w: World, pd: nat, i0: Index, q: nat, j0: Index)
    requires Inv(w) && Due(w, pd, i0) && Present(At(w, pd)[i0]) && Due(w, q, j0)
    ensures q != At(w, pd)[i0].frame
    ensures Present(At(w, q)[j0]) && (q != pd || j0 != i0) ==> At(w, q)[j0].frame != At(w, pd)[i0].frame
  {
    assert DirOk(w, q) && DirOk(w, pd) && TableOk(w, pd, i0) && TableOk(w, q, j0);
  }

  /** A store into a table changes one page of one space. */
  lemma SetEntryMaps(w: World, pd: nat, i0: Index, i1: Index, x: Word)
    requires Inv(w) && Due(w, pd, i0) && Present(At(w, pd)[i0])
    ensures OneMapped(w, SetEntry(w, pd, i0, i1, x), pd, i0, i1, if Present(x) then x else ZERO)
  {
    var v := SetEntry(w, pd, i0, i1, x);
    assert TableOk(w, pd, i0) && PoolOk(w, At(w, pd)[i0].frame);
    forall q: nat, j0: Index, j1: Index {:trigger Lookup(v, q, j0, j1)} | Due(w, q, j0)
      ensures Lookup(v, q, j0, j1) == if q == pd && j0 == i0 && j1 == i1 then (if Present(x) then x else ZERO) else Lookup(w, q, j0, j1)
    {
      TablesApart(w, pd, i0, q, j0);
    }
  }

  /** A new table maps nothing. */
  lemma InstallMaps(w: World, pd: nat, i0: Index, f: nat)
    requires Inv(w) && Due(w, pd, i0) && !Present(At(w, pd)[i0]) && RoleOf(w, f) == Held && At(w, f) == Blank()
    ensures SameMaps(w, InstallTable(w, pd, i0, f))
  {
    var v := InstallTable(w, pd, i0, f);
    assert DirOk(w, pd) && PoolOk(w, pd) && PoolOk(w, f);
    forall q: nat, j0: Index, j1: Index {:trigger Lookup(v, q, j0, j1)} | Due(w, q, j0)
      ensures Lookup(v, q, j0, j1) == Lookup(w, q, j0, j1)
    {
      assert DirOk(w, q) && TableOk(w, q, j0);
      assert At(v, f) == At(w, f);
    }
  }

  /** The pool does not see a change in a frame that belongs to a space, nor a change of role among
      the frames in use. */
  lemma PoolKept(w: World, v: World, t: nat, f: nat, r: Role)
    requires Pool(w) && !RoleOf(w, t).Free? && v.mem == Put(w, t, At(v, t)).mem
    requires (RoleOf(w, f) == Held || Owned(RoleOf(w, f))) && (r == Held || Owned(r)) && v.role == w.role[f := r]
    requires v.first == w.first && v.avail == w.avail && v.limit == w.limit && v.start == w.start && v.free == w.free
    ensures Pool(v)
  {
    forall g: nat {:trigger PoolOk(v, g)} ensures PoolOk(v, g) { assert PoolOk(w, g); }
    forall k: nat {:trigger FreeOk(v, k)} ensures FreeOk(v, k) { assert FreeOk(w, k); }
  }

  lemma InstallInv(w: World, pd: nat, i0: Index, f: nat)
    requires Inv(w) && Alive(w, pd) && !Present(At(w, pd)[i0]) && RoleOf(w, f) == Held && At(w, f) == Blank()
    ensures var v := InstallTable(w, pd, i0, f); Inv(v) && Kept(w, v, pd) && SameMaps(w, v)
  {
    var v := InstallTable(w, pd, i0, f);
    assert DirOk(w, pd) && PoolOk(w, pd) && PoolOk(w, f);
    PoolKept(w, v, pd, f, Table(pd, i0));
    InstallMaps(w, pd, i0, f);
    forall q: nat {:trigger DirOk(v, q)} ensures DirOk(v, q) { assert DirOk(w, q); }
    forall q: nat, j0: nat {:trigger TableOk(v, q, j0)}
      ensures TableOk(v, q, j0)
    {
      assert DirOk(w, q) && TableOk(w, q, j0);
    }
    forall q: nat, j0: nat, j1: nat {:trigger PageOk(v, q, j0, j1)}
      ensures PageOk(v, q, j0, j1)
    {
      assert PageOk(w, q, j0, j1);
    }
    forall g: nat {:trigger OwnedOk(v, g)}
      ensures OwnedOk(v, g)
    {
      InstallOwned(w, pd, i0, f, g);
    }
  }

  lemma InstallOwned(w: World, pd: nat, i0: Index, f: nat, g: nat)
    requires Inv(w) && Alive(w, pd) && !Present(At(w, pd)[i0]) && RoleOf(w, f) == Held && At(w, f) == Blank()
    ensures OwnedOk(InstallTable(w, pd, i0, f), g)
  {
    var v := InstallTable(w, pd, i0, f);
    assert DirOk(w, pd) && PoolOk(w, pd) && PoolOk(w, f) && OwnedOk(w, g);
    InstallMaps(w, pd, i0, f);
    match RoleOf(w, g)
    case Table(q, j0) => assert DirOk(w, q);
    case Page(q, j0, j1) => assert Due(w, q, j0) && Lookup(v, q, j0, j1) == Lookup(w, q, j0, j1);
    case _ =>
  }

  /** A change of one table entry together with the ledger of the frame it maps or mapped. */
  function Remap(w: World, pd: nat, i0: Index, i1: Index, x: Word, f: nat, r: Role): World {
    Mark(SetEntry(w, pd, i0, i1, x), f, r)
  }

  lemma RemapInv(w: World, pd: nat, i0: Index, i1: Index, x: Word, f: nat, r: Role)
    requires Inv(w) && Alive(w, pd) && Present(At(w, pd)[i0]) && i0 > 0
    requires
      || (Present(x) && x.frame == f && (i0 >= 512 ==> x.low == 7) && !Present(Lookup(w, pd, i0, i1)) && RoleOf(w, f) == Held && r == Page(pd, i0, i1))
      || (x == ZERO && Present(Lookup(w, pd, i0, i1)) && Lookup(w, pd, i0, i1).frame == f && r == Held)
    ensures var v := Remap(w, pd, i0, i1, x, f, r);
      Inv(v) && Kept(w, v, pd) && OneMapped(w, v, pd, i0, i1, x) && At(v, f) == At(w, f) && RoleOf(v, f) == r
  {
    var v := Remap(w, pd, i0, i1, x, f, r);
    var t := At(w, pd)[i0].frame;
    assert DirOk(w, pd) && TableOk(w, pd, i0) && PageOk(w, pd, i0, i1) && PoolOk(w, t) && PoolOk(w, f);
    PoolKept(w, v, t, f, r);
    SetEntryMaps(w, pd, i0, i1, x);
    assert OneMapped(w, v, pd, i0, i1, x) by {
      forall q: nat, j0: Index, j1: Index {:trigger Lookup(v, q, j0, j1)}
        ensures Lookup(v, q, j0, j1) == Lookup(SetEntry(w, pd, i0, i1, x), q, j0, j1)
      {
      }
    }
    RemapMapped(w, pd, i0, i1, x, f, r);
  }

  lemma RemapMapped(w: World, pd: nat, i0: Index, i1: Index, x: Word, f: nat, r: Role)
    requires Inv(w) && Alive(w, pd) && Present(At(w, pd)[i0]) && i0 > 0
    requires
      || (Present(x) && x.frame == f && (i0 >= 512 ==> x.low == 7) && !Present(Lookup(w, pd, i0, i1)) && RoleOf(w, f) == Held && r == Page(pd, i0, i1))
      || (x == ZERO && Present(Lookup(w, pd, i0, i1)) && Lookup(w, pd, i0, i1).frame == f && r == Held)
    requires var v := Remap(w, pd, i0, i1, x, f, r); OneMapped(w, v, pd, i0, i1, x)
    ensures Mapped(Remap(w, pd, i0, i1, x, f, r))
  {
    var v := Remap(w, pd, i0, i1, x, f, r);
    var t := At(w, pd)[i0].frame;
    assert DirOk(w, pd) && TableOk(w, pd, i0) && PageOk(w, pd, i0, i1) && PoolOk(w, t) && PoolOk(w, f);
    forall q: nat {:trigger DirOk(v, q)} ensures DirOk(v, q) { assert DirOk(w, q); }
    forall q: nat, j0: nat {:trigger TableOk(v, q, j0)}
      ensures TableOk(v, q, j0)
    {
      assert DirOk(w, q) && TableOk(w, q, j0);
    }
    forall q: nat, j0: nat, j1: nat {:trigger PageOk(v, q, j0, j1)}
      ensures PageOk(v, q, j0, j1)
    {
      assert DirOk(w, q) && PageOk(w, q, j0, j1);
    }
    forall g: nat {:trigger OwnedOk(v, g)}
      ensures OwnedOk(v, g)
    {
      assert OwnedOk(w, g);
      match RoleOf(w, g)
      case Table(q, j0) => assert DirOk(w, q);
      case Page(q, j0, j1) => assert Due(w, q, j0);
      case _ =>
    }
  }

  /** An entry of table 0 that maps a page to itself. */
  lemma IdentityInv(w: World, pd: nat, i1: Index)
    requires Inv(w) && Alive(w, pd) && Present(At(w, pd)[0])
    ensures var v := SetEntry(w, pd, 0, i1, Word(i1, 3));
      Inv(v) && Kept(w, v, pd) && OneMapped(w, v, pd, 0, i1, Word(i1, 3))
  {
    var v := SetEntry(w, pd, 0, i1, Word(i1, 3));
    var t := At(w, pd)[0].frame;
    assert DirOk(w, pd) && TableOk(w, pd, 0) && PoolOk(w, t);
    assert v.role == w.role[t := Table(pd, 0)];
    PoolKept(w, v, t, t, Table(pd, 0));
    SetEntryMaps(w, pd, 0, i1, Word(i1, 3));
    forall q: nat {:trigger DirOk(v, q)} ensures DirOk(v, q) { assert DirOk(w, q); }
    forall q: nat, j0: nat {:trigger TableOk(v, q, j0)}
      ensures TableOk(v, q, j0)
    {
      assert DirOk(w, q) && TableOk(w, q, j0);
    }
    forall q: nat, j0: nat, j1: nat {:trigger PageOk(v, q, j0, j1)}
      ensures PageOk(v, q, j0, j1)
    {
      assert PageOk(w, q, j0, j1);
    }
    forall g: nat {:trigger OwnedOk(v, g)}
      ensures OwnedOk(v, g)
    {
      assert OwnedOk(w, g);
      match RoleOf(w, g)
      case Table(q, j0) => assert DirOk(w, q);
      case Page(q, j0, j1) => assert Due(w, q, j0);
      case _ =>
    }
  }

  // ---------------------------------------------------------------- getPTE, pmap, punmap

  predicate NoFrame(w: World) {
    w.free == [] && w.avail == w.limit
  }

  /** getPTE provides the table without changing any mapping; it panics exactly when a table is
      missing and there is no frame for it. */
  lemma NeedTableInv(w: World, pd: nat, i0: Index)
    requires Inv(w) && Alive(w, pd) && !w.panicked
    ensures var v := NeedTable(w, pd, i0);
      && (v.panicked <==> !Present(At(w, pd)[i0]) && NoFrame(w))
      && Inv(v) && Kept(w, v, pd) && Alive(v, pd) && SameMaps(w, v)
      && (!v.panicked ==> Present(At(v, pd)[i0]))
      && (forall f: nat {:trigger RoleOf(v, f)} {:trigger At(v, f)} :: RoleOf(w, f) == Held || RoleOf(w, f).Page? ==> RoleOf(v, f) == RoleOf(w, f) && At(v, f) == At(w, f))
  {
    if !Present(At(w, pd)[i0]) {
      AllocInv(w);
      var (u, f) := Alloc(w);
      if !u.panicked {
        OutsideKept(w, u, pd);
        assert DirOk(w, pd) && DirOk(u, pd) && PoolOk(u, pd) && PoolOk(u, f);
        InstallInv(u, pd, i0, f);
        KeptTwice(w, u, NeedTable(w, pd, i0), pd);
        OutsideMaps(w, u);
      } else {
        PanicInv(w);
      }
    }
  }

  lemma PanicInv(w: World)
    requires Inv(w)
    ensures Inv(w.(panicked := true)) && SameMaps(w, w.(panicked := true))
    ensures forall pd {:trigger Kept(w, w.(panicked := true), pd)} :: Kept(w, w.(panicked := true), pd)
  {
    var v := w.(panicked := true);
    forall g: nat {:trigger PoolOk(v, g)} ensures PoolOk(v, g) { assert PoolOk(w, g); }
    forall k: nat {:trigger FreeOk(v, k)} ensures FreeOk(v, k) { assert FreeOk(w, k); }
    assert Outside(w, v);
    OutsideMapped(w, v);
    OutsideMaps(w, v);
    forall pd {:trigger Kept(w, v, pd)} ensures Kept(w, v, pd) { OutsideKept(w, v, pd); }
  }

  lemma OutsideMaps(w: World, v: World)
    requires Inv(w) && Outside(w, v)
    ensures SameMaps(w, v)
  {
    forall q: nat, j0: Index, j1: Index {:trigger Lookup(v, q, j0, j1)} | Due(w, q, j0)
      ensures Lookup(v, q, j0, j1) == Lookup(w, q, j0, j1)
    {
      assert DirOk(w, q) && TableOk(w, q, j0);
    }
  }

  /** pmap refines an update of the flat map, for every page, frame and permission: the page now
      maps to the frame, every other page of every space is as before. */
  lemma PmapRefines(w: World, pd: nat, i0: Index, i1: Index, f: nat, forUser: bool, forWrite: bool)
    requires Inv(w) && Alive(w, pd) && !w.panicked
    ensures var v := Pmap(w, pd, i0, i1, f, Flags(forUser, forWrite));
      && (v.panicked <==> !Present(At(w, pd)[i0]) && NoFrame(w))
      && (!v.panicked ==> OneMapped(w, v, pd, i0, i1, Word(f, Flags(forUser, forWrite))))
  {
    var low := Flags(forUser, forWrite);
    NeedTableInv(w, pd, i0);
    var u := NeedTable(w, pd, i0);
    if !u.panicked {
      SetEntryMaps(u, pd, i0, i1, Word(f, low));
      MapsThen(w, u, Pmap(w, pd, i0, i1, f, low), pd, i0, i1, Word(f, low));
    }
  }

  /** punmap removes the page from the flat map. It costs a frame if and only if the table is
      missing, that is, when there was nothing to remove; otherwise the pool is unchanged. */
  lemma PunmapRefines(w: World, pd: nat, i0: Index, i1: Index)
    requires Inv(w) && Alive(w, pd) && !w.panicked
    ensures var v := Punmap(w, pd, i0, i1);
      && (v.panicked <==> !Present(At(w, pd)[i0]) && NoFrame(w))
      && (!v.panicked ==> OneMapped(w, v, pd, i0, i1, ZERO))
      && (!v.panicked ==> |v.free| + (v.limit - v.avail) == |w.free| + (w.limit - w.avail) - (if Present(At(w, pd)[i0]) then 0 else 1))
      && (!Present(At(w, pd)[i0]) ==> Lookup(w, pd, i0, i1) == ZERO)
  {
    NeedTableInv(w, pd, i0);
    var u := NeedTable(w, pd, i0);
    if !u.panicked {
      AllocInv(w);
      SetEntryMaps(u, pd, i0, i1, ZERO);
      MapsThen(w, u, Punmap(w, pd, i0, i1), pd, i0, i1, ZERO);
    }
  }

  lemma MapsThen(w: World, u: World, v: World, pd: nat, i0: Index, i1: Index, x: Word)
    requires SameMaps(w, u) && Due(w, pd, i0)
    requires forall q: nat {:trigger q in w.spaces} :: q in w.spaces ==> q in u.spaces && u.spaces[q] == w.spaces[q]
    requires v.mem == SetEntry(u, pd, i0, i1, x).mem
    requires OneMapped(u, SetEntry(u, pd, i0, i1, x), pd, i0, i1, if Present(x) then x else ZERO) && (Present(x) || x == ZERO)
    ensures OneMapped(w, v, pd, i0, i1, x)
  {
    var s := SetEntry(u, pd, i0, i1, x);
    forall q: nat, j0: Index, j1: Index {:trigger Lookup(v, q, j0, j1)} | Due(w, q, j0)
      ensures Lookup(v, q, j0, j1) == if q == pd && j0 == i0 && j1 == i1 then x else Lookup(w, q, j0, j1)
    {
      assert Due(u, q, j0) && Lookup(v, q, j0, j1) == Lookup(s, q, j0, j1) && Lookup(u, q, j0, j1) == Lookup(w, q, j0, j1);
    }
  }
}
