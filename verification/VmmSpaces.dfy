/** The operations of an address space: creation, page faults, fork, exec, destruction. */
module VmmSpaces {
  import opened VmmModel
  import opened VmmTables

  /** Frames that alloc can still hand out. */
  function Available(w: World): int {
    |w.free| + (w.limit - w.avail)
  }

  /** No frame is left allocated and unmapped. */
  ghost predicate Settled(w: World, v: World) {
    forall f: nat {:trigger RoleOf(v, f)} :: RoleOf(v, f) == Held ==> RoleOf(w, f) == Held
  }

  /** Pages keep their frames and what is in them. */
  ghost predicate PagesSame(w: World, v: World) {
    forall f: nat {:trigger RoleOf(v, f)} {:trigger At(v, f)} :: RoleOf(w, f).Page? ==> RoleOf(v, f) == RoleOf(w, f) && At(v, f) == At(w, f)
  }

  /** An operation on pd that went well: the invariant holds, the other spaces are as they were, and
      so are the pages pd already had. */
  ghost predicate Fine(w: World, v: World, pd: nat) {
    Inv(v) && Kept(w, v, pd) && Alive(v, pd) && Settled(w, v) && PagesSame(w, v)
  }

  lemma FineTwice(u: World, v: World, w: World, pd: nat)
    requires Fine(u, v, pd) && Fine(v, w, pd)
    ensures Fine(u, w, pd)
  {
    KeptTwice(u, v, w, pd);
  }

  // ---------------------------------------------------------------- a new frame for a page

  /** A frame is allocated, filled with s, and mapped for the user with write access. */
  function MapNew(w: World, pd: nat, i0: Index, i1: Index, s: Frame): World {
    var a := Alloc(w);
    if a.0.panicked then a.0 else Pmap(Put(a.0, a.1, s), pd, i0, i1, a.1, Flags(true, true))
  }

  /** Frames that mapping one page takes: one, and one more if the table is missing. */
  function Cost(w: World, pd: nat, i0: Index): nat {
    if Present(At(w, pd)[i0]) then 1 else 2
  }

  ghost predicate NewPage(w: World, v: World, pd: nat, i0: Index, i1: Index, s: Frame) {
    var x := Lookup(v, pd, i0, i1);
    && Fine(w, v, pd)
    && OneMapped(w, v, pd, i0, i1, x) && x.low == 7 && At(v, x.frame) == s && RoleOf(v, x.frame) == Page(pd, i0, i1)
    && (forall j0: Index {:trigger At(v, pd)[j0]} :: j0 != i0 ==> At(v, pd)[j0] == At(w, pd)[j0])
    && Present(At(v, pd)[i0]) && Available(v) == Available(w) - Cost(w, pd, i0)
  }

  lemma MapNewInv(w: World, pd: nat, i0: Index, i1: Index, s: Frame)
    requires Inv(w) && Alive(w, pd) && !w.panicked && i0 > 0 && !Present(Lookup(w, pd, i0, i1))
    ensures var v := MapNew(w, pd, i0, i1, s);
      && (v.panicked <==> Available(w) < Cost(w, pd, i0))
      && Inv(v) && Kept(w, v, pd)
      && (!v.panicked ==> NewPage(w, v, pd, i0, i1, s))
  {
    AllocInv(w);
    var (a, f) := Alloc(w);
    if a.panicked {
      PanicInv(w);
    } else {
      MapFilled(w, a, f, pd, i0, i1, s);
    }
  }

  /** w and b differ by one frame that b has allocated and filled with s. */
  ghost predicate InHand(w: World, b: World, f: nat, s: Frame) {
    && Outside(w, b) && b.start == w.start && b.limit == w.limit && !b.panicked
    && RoleOf(b, f) == Held && At(b, f) == s && Available(b) == Available(w) - 1 && PagesSame(w, b)
    && forall g: nat {:trigger RoleOf(b, g)} :: g != f && RoleOf(b, g) == Held ==> RoleOf(w, g) == Held
  }

  /** The same with the frame in hand. */
  lemma MapFilled(w: World, a: World, f: nat, pd: nat, i0: Index, i1: Index, s: Frame)
    requires Inv(w) && Alive(w, pd) && !w.panicked && i0 > 0 && !Present(Lookup(w, pd, i0, i1))
    requires !a.panicked && Inv(a) && Outside(w, a) && a.start == w.start && a.limit == w.limit
    requires (RoleOf(w, f).Free? || RoleOf(w, f).Untouched?) && RoleOf(a, f) == Held && a.role == w.role[f := Held] && a.mem == w.mem[f := Blank()]
    requires Available(a) == Available(w) - 1
    ensures var v := Pmap(Put(a, f, s), pd, i0, i1, f, 7);
      && (v.panicked <==> Available(w) < Cost(w, pd, i0))
      && Inv(v) && Kept(w, v, pd)
      && (!v.panicked ==> NewPage(w, v, pd, i0, i1, s))
  {
    var b := Put(a, f, s);
    assert PoolOk(a, f) && DirOk(w, pd);
    WriteInv(a, f, s);
    assert InHand(w, b, f, s);
    MapInHand(w, b, f, pd, i0, i1, s);
  }

  lemma MapInHand(w: World, b: World, f: nat, pd: nat, i0: Index, i1: Index, s: Frame)
    requires Inv(w) && Alive(w, pd) && i0 > 0 && !Present(Lookup(w, pd, i0, i1))
    requires Inv(b) && InHand(w, b, f, s) && Alive(b, pd) && At(b, pd) == At(w, pd)
    ensures var v := Pmap(b, pd, i0, i1, f, 7);
      && (v.panicked <==> Available(w) < Cost(w, pd, i0))
      && Inv(v) && Kept(w, v, pd)
      && (!v.panicked ==> NewPage(w, v, pd, i0, i1, s))
  {
    hide Inv, Kept, Lookup, Mapped, OneMapped, SameMaps, Outside;
    OutsideMaps(w, b);
    OutsideKept(w, b, pd);
    var c := NeedTable(b, pd, i0);
    NeedTableInv(b, pd, i0);
    NeedTableCost(b, pd, i0);
    PoolBounds(b);
    KeptTwice(w, b, c, pd);
    if !c.panicked {
      var v := Remap(c, pd, i0, i1, Word(f, 7), f, Page(pd, i0, i1));
      MapsAgain(w, b, c, pd, i0, i1);
      MapOne(c, pd, i0, i1, f);
      KeptTwice(w, c, v, pd);
      RemapFits(w, b, c, v, pd, i0, i1, Word(f, 7));
    }
  }

  /** A frame in hand is mapped as page (i0, i1). */
  lemma MapOne(c: World, pd: nat, i0: Index, i1: Index, f: nat)
    requires Inv(c) && Alive(c, pd) && Present(At(c, pd)[i0]) && i0 > 0 && !Present(Lookup(c, pd, i0, i1)) && RoleOf(c, f) == Held
    ensures var v := Remap(c, pd, i0, i1, Word(f, 7), f, Page(pd, i0, i1));
      && Inv(v) && Kept(c, v, pd) && Alive(v, pd) && OneMapped(c, v, pd, i0, i1, Word(f, 7))
      && At(v, f) == At(c, f) && RoleOf(v, f) == Page(pd, i0, i1)
      && PagesSame(c, v) && At(v, pd) == At(c, pd) && Available(v) == Available(c) && Settled(c, v) && v.panicked == c.panicked
  {
    hide Inv, Kept, Lookup, OneMapped;
    RemapInv(c, pd, i0, i1, Word(f, 7), f, Page(pd, i0, i1));
    RemapPages(c, pd, i0, i1, Word(f, 7), f, Page(pd, i0, i1));
  }

  lemma PoolBounds(w: World)
    requires Inv(w)
    ensures Available(w) >= 0 && (NoFrame(w) <==> Available(w) == 0)
  {
  }

  lemma MapsAgain(w: World, b: World, c: World, pd: nat, i0: Index, i1: Index)
    requires Alive(w, pd) && Alive(b, pd) && SameMaps(w, b) && SameMaps(b, c)
    ensures Lookup(c, pd, i0, i1) == Lookup(w, pd, i0, i1)
  {
    hide Lookup;
    assert Due(w, pd, i0) && Due(b, pd, i0);
    assert Lookup(c, pd, i0, i1) == Lookup(b, pd, i0, i1);
  }

  lemma RemapFits(w: World, b: World, c: World, v: World, pd: nat, i0: Index, i1: Index, x: Word)
    requires Alive(w, pd) && Outside(w, b) && SameMaps(w, b) && Kept(b, c, pd) && Alive(c, pd) && SameMaps(b, c) && OneMapped(c, v, pd, i0, i1, x)
    ensures OneMapped(w, v, pd, i0, i1, x) && Lookup(v, pd, i0, i1) == x
  {
    hide Lookup;
    forall q: nat, j0: Index, j1: Index {:trigger Lookup(v, q, j0, j1)} | Due(w, q, j0)
      ensures Lookup(v, q, j0, j1) == if q == pd && j0 == i0 && j1 == i1 then x else Lookup(w, q, j0, j1)
    {
      assert Due(b, q, j0) && Due(c, q, j0) && Lookup(c, q, j0, j1) == Lookup(b, q, j0, j1) && Lookup(b, q, j0, j1) == Lookup(w, q, j0, j1);
    }
    assert Due(w, pd, i0) && Lookup(v, pd, i0, i1) == x;
  }

  /** What getPTE does to the pool and to the directory. */
  lemma NeedTableCost(w: World, pd: nat, i0: Index)
    requires Inv(w) && Alive(w, pd) && !w.panicked
    ensures var v := NeedTable(w, pd, i0);
      !v.panicked ==>
        && Available(v) == Available(w) - (Cost(w, pd, i0) - 1) && Settled(w, v)
        && (forall j0: Index {:trigger At(v, pd)[j0]} :: j0 != i0 ==> At(v, pd)[j0] == At(w, pd)[j0])
  {
    if !Present(At(w, pd)[i0]) {
      AllocInv(w);
      var (a, f) := Alloc(w);
      if !a.panicked {
        assert DirOk(w, pd) && DirOk(a, pd) && PoolOk(a, pd) && PoolOk(a, f);
        assert At(a, pd) == At(w, pd);
      }
    }
  }

  lemma RemapPages(w: World, pd: nat, i0: Index, i1: Index, x: Word, f: nat, r: Role)
    requires Inv(w) && Alive(w, pd) && Present(At(w, pd)[i0]) && RoleOf(w, f) == Held && r.Page?
    ensures var v := Remap(w, pd, i0, i1, x, f, r);
      && PagesSame(w, v) && At(v, pd) == At(w, pd) && Available(v) == Available(w) && Settled(w, v) && v.panicked == w.panicked
  {
    assert DirOk(w, pd) && TableOk(w, pd, i0) && PoolOk(w, f);
  }

  // ---------------------------------------------------------------- creation

  /** A directory without tables. */
  function NewSpace(w: World, pd: nat): World {
    Mark(w, pd, Directory).(spaces := w.spaces[pd := ALIVE])
  }

  /** Pages 1 to n - 1 mapped to themselves, not for the user, writable. */
  function MapIdentity(w: World, pd: nat, n: nat): World {
    if n <= 1 then w
    else
      var v := MapIdentity(w, pd, n - 1);
      if v.panicked then v else Pmap(v, pd, (n - 1) / 1024 % 1024, (n - 1) % 1024, n - 1, Flags(false, true))
  }

  /** The constructor of an address space. */
  function Create(w: World): (World, nat) {
    var a := Alloc(w);
    if a.0.panicked then a else (MapIdentity(NewSpace(a.0, a.1), a.1, w.limit), a.1)
  }

  lemma NewSpaceInv(w: World, pd: nat)
    requires Inv(w) && RoleOf(w, pd) == Held && At(w, pd) == Blank()
    ensures var v := NewSpace(w, pd);
      && Inv(v) && Kept(w, v, pd) && Alive(v, pd) && pd !in w.spaces && Settled(w, v) && PagesSame(w, v)
      && (forall j0: Index, j1: Index {:trigger Lookup(v, pd, j0, j1)} :: Lookup(v, pd, j0, j1) == ZERO)
  {
    var v := NewSpace(w, pd);
    assert PoolOk(w, pd) && DirOk(w, pd);
    PoolKept(w, v, pd, pd, Directory);
    forall q: nat {:trigger DirOk(v, q)} ensures DirOk(v, q) { assert DirOk(w, q); }
    forall q: nat, j0: nat {:trigger TableOk(v, q, j0)} ensures TableOk(v, q, j0) { assert TableOk(w, q, j0) && DirOk(w, q); }
    forall q: nat, j0: nat, j1: nat {:trigger PageOk(v, q, j0, j1)} ensures PageOk(v, q, j0, j1) { assert PageOk(w, q, j0, j1) && DirOk(w, q); }
    forall g: nat {:trigger OwnedOk(v, g)}
      ensures OwnedOk(v, g)
    {
      assert OwnedOk(w, g);
    }
  }

  /** The mapping of a new space: its first n pages, without page 0, map to themselves. */
  ghost predicate Identity(v: World, pd: nat, n: nat) {
    forall j0: Index, j1: Index {:trigger Lookup(v, pd, j0, j1)} :: Lookup(v, pd, j0, j1) == if j0 == 0 && 0 < j1 < n then Word(j1, 3) else ZERO
  }

  ghost predicate OnlyTableZero(v: World, pd: nat) {
    forall j0: Index {:trigger At(v, pd)[j0]} :: j0 > 0 ==> !Present(At(v, pd)[j0])
  }

  lemma {:induction false} MapIdentityInv(w: World, pd: nat, n: nat)
    requires Inv(w) && Alive(w, pd) && !w.panicked && n <= 1024
    requires Identity(w, pd, 1) && OnlyTableZero(w, pd) && At(w, pd)[0] == ZERO
    ensures var v := MapIdentity(w, pd, n);
      && (v.panicked <==> n > 1 && NoFrame(w))
      && Inv(v) && Kept(w, v, pd)
      && (!v.panicked && n > 1 ==>
            Fine(w, v, pd) && Identity(v, pd, n) && OnlyTableZero(v, pd) && Present(At(v, pd)[0]) && Available(v) == Available(w) - 1)
      && (n <= 1 ==> v == w)
  {
    hide Inv, Kept, Fine, Identity, OnlyTableZero, Pmap, NoFrame, Available, Alive;
    KeptSelf(w, pd);
    if n > 1 {
      MapIdentityInv(w, pd, n - 1);
      var u := MapIdentity(w, pd, n - 1);
      if !u.panicked {
        if n > 2 { FineInv(w, u, pd); }
        IdentityStep(u, pd, n - 1);
        var v := MapIdentity(w, pd, n);
        KeptTwice(w, u, v, pd);
        if !v.panicked && n > 2 { FineTwice(w, u, v, pd); }
      }
    }
  }

  lemma KeptSelf(w: World, pd: nat)
    ensures Kept(w, w, pd)
  {
  }

  lemma FineInv(w: World, v: World, pd: nat)
    requires Fine(w, v, pd)
    ensures Inv(v) && Alive(v, pd) && Kept(w, v, pd)
  {
  }

  lemma IdentityStep(u: World, pd: nat, i1: Index)
    requires Inv(u) && Alive(u, pd) && !u.panicked && i1 > 0 && Identity(u, pd, i1) && OnlyTableZero(u, pd)
    ensures var v := Pmap(u, pd, i1 / 1024 % 1024, i1 % 1024, i1, Flags(false, true));
      && (v.panicked <==> !Present(At(u, pd)[0]) && NoFrame(u))
      && Inv(v) && Kept(u, v, pd)
      && (!v.panicked ==>
            && Fine(u, v, pd) && Identity(v, pd, i1 + 1) && OnlyTableZero(v, pd)
            && Present(At(v, pd)[0]) && Available(v) == Available(u) - (Cost(u, pd, 0) - 1))
  {
    hide Inv, Kept, NoFrame, Pool, Mapped, NeedTable;
    var z: Index := 0;
    NeedTableInv(u, pd, z);
    NeedTableCost(u, pd, z);
    PmapRefines(u, pd, z, i1, i1, false, true);
    var a := NeedTable(u, pd, z);
    var v := Pmap(u, pd, z, i1, i1, 3);
    if !a.panicked {
      IdentityInv(a, pd, i1);
      KeptTwice(u, a, v, pd);
      SetEntryDirs(a, pd, z, i1, Word(i1, 3));
    }
  }

  lemma SetEntryDirs(w: World, pd: nat, i0: Index, i1: Index, x: Word)
    requires Inv(w) && Alive(w, pd) && Present(At(w, pd)[i0])
    ensures var v := SetEntry(w, pd, i0, i1, x); At(v, pd) == At(w, pd) && PagesSame(w, v) && Settled(w, v) && Available(v) == Available(w)
  {
    assert DirOk(w, pd) && TableOk(w, pd, i0);
  }

  /** A new address space takes two frames, maps every page from 1 to the end of memory to itself
      and nothing else, and disturbs no other space; it fails exactly when fewer than two frames
      are left. */
  lemma CreateSpec(w: World)
    requires Inv(w) && !w.panicked
    ensures var (v, pd) := Create(w);
      && (v.panicked <==> Available(w) < 2)
      && (!v.panicked ==>
            && pd !in w.spaces && Fine(w, v, pd)
            && Identity(v, pd, w.limit) && OnlyTableZero(v, pd) && Available(v) == Available(w) - 2)
  {
    AllocInv(w);
    var (a, pd) := Alloc(w);
    if !a.panicked {
      OutsideKept(w, a, pd);
      NewSpaceInv(a, pd);
      var b := NewSpace(a, pd);
      KeptTwice(w, a, b, pd);
      assert PoolOk(a, pd);
      CreateTables(w, b, pd);
    }
  }

  lemma CreateTables(w: World, b: World, pd: nat)
    requires Fine(w, b, pd) && !b.panicked && 1 < b.limit <= 1024
    requires Identity(b, pd, 1) && OnlyTableZero(b, pd) && At(b, pd)[0] == ZERO
    ensures var v := MapIdentity(b, pd, b.limit);
      && (v.panicked <==> NoFrame(b))
      && (!v.panicked ==>
            && Fine(w, v, pd)
            && Identity(v, pd, b.limit) && OnlyTableZero(v, pd) && Available(v) == Available(b) - 1)
  {
    hide Fine, Inv, Kept, Identity, OnlyTableZero, NoFrame, Available, MapIdentity;
    FineInv(w, b, pd);
    MapIdentityInv(b, pd, b.limit);
    if !MapIdentity(b, pd, b.limit).panicked { FineTwice(w, b, MapIdentity(b, pd, b.limit), pd); }
  }

  // ---------------------------------------------------------------- page faults

  function I0(va: nat): Index { va / 4194304 % 1024 }

  function I1(va: nat): Index { va / 4096 % 1024 }

  /** Page (i0, i1) is the one that address va lies in. */
  predicate PageOf(i0: Index, i1: Index, va: nat) {
    i0 * 0x40_0000 + i1 * 0x1000 <= va < i0 * 0x40_0000 + i1 * 0x1000 + 0x1000
  }

  /** The two indices that the code computes from an address are those of the page that contains it,
      and of no other. */
  lemma PageContains(va: nat)
    requires va < 0x1_0000_0000
    ensures PageOf(I0(va), I1(va), va)
    ensures forall i0: Index, i1: Index {:trigger PageOf(i0, i1, va)} :: PageOf(i0, i1, va) ==> i0 == I0(va) && i1 == I1(va)
  {
    forall i0: Index, i1: Index {:trigger PageOf(i0, i1, va)} | PageOf(i0, i1, va)
      ensures i0 == I0(va) && i1 == I1(va)
    {
      assert va / 0x40_0000 == i0 && va / 0x1000 == i0 * 1024 + i1;
    }
  }

  datatype Outcome = Served | Killed

  /** handlePageFault. */
  function Fault(w: World, pd: nat, va: nat): (World, Outcome) {
    if va < 0x1000 then (w, Killed)
    else if va >= 0x8000_0000 then
      var a := Alloc(w);
      if a.0.panicked then (a.0, Served) else (Pmap(a.0, pd, I0(va), I1(va), a.1, Flags(true, true)), Served)
    else (w.(panicked := true), Served)
  }

  /** A fault in the upper half, where the page of the address is not mapped, gets a cleared frame of
      its own for that page; it fails exactly when the frames do not suffice for it and for a missing
      table. */
  lemma FaultSpec(w: World, pd: nat, va: nat)
    requires Inv(w) && Alive(w, pd) && !w.panicked && 0x8000_0000 <= va < 0x1_0000_0000
    requires !Present(Lookup(w, pd, I0(va), I1(va)))
    ensures var v := Fault(w, pd, va).0;
      && I0(va) >= 512
      && (v.panicked <==> Available(w) < Cost(w, pd, I0(va)))
      && Inv(v) && Kept(w, v, pd)
      && (!v.panicked ==> NewPage(w, v, pd, I0(va), I1(va), Blank()))
      && (!v.panicked ==> forall i0: Index, i1: Index {:trigger PageOf(i0, i1, va)} :: PageOf(i0, i1, va) ==> NewPage(w, v, pd, i0, i1, Blank()) && Present(Lookup(v, pd, i0, i1)))
  {
    hide Inv, Kept, Available, Cost, Pmap;
    PageContains(va);
    MapNewInv(w, pd, I0(va), I1(va), Blank());
    AllocBlank(w);
  }

  /** The frame alloc hands out needs no clearing. */
  lemma AllocBlank(w: World)
    requires Inv(w) && !w.panicked
    ensures var a := Alloc(w); !a.0.panicked ==> Put(a.0, a.1, Blank()) == a.0
  {
    AllocInv(w);
    var (a, f) := Alloc(w);
    assert !a.panicked ==> Put(a, f, Blank()).mem == a.mem;
  }

  // ---------------------------------------------------------------- writes by user code

  /** A user store of word k of a page; only pages with user and write access can be hit. */
  function Store(w: World, pd: nat, i0: Index, i1: Index, k: Index, x: Word): World {
    var e := Lookup(w, pd, i0, i1);
    if Present(e) && e.low == 7 then Put(w, e.frame, At(w, e.frame)[k := x]) else w
  }

  /** A store is seen by the space that did it, and by nobody else. */
  lemma StoreSpec(w: World, pd: nat, i0: Index, i1: Index, k: Index, x: Word)
    requires Inv(w) && Alive(w, pd) && i0 >= 512 && Present(Lookup(w, pd, i0, i1))
    ensures var v := Store(w, pd, i0, i1, k, x);
      && Inv(v) && Kept(w, v, pd) && Alive(v, pd) && Settled(w, v) && SameMaps(w, v) && v.panicked == w.panicked
      && At(v, Lookup(v, pd, i0, i1).frame) == At(w, Lookup(w, pd, i0, i1).frame)[k := x]
  {
    var e := Lookup(w, pd, i0, i1);
    var v := Store(w, pd, i0, i1, k, x);
    assert PageOk(w, pd, i0, i1) && PoolOk(w, e.frame);
    WriteInv(w, e.frame, At(w, e.frame)[k := x]);
    forall q: nat, j0: Index, j1: Index {:trigger Lookup(v, q, j0, j1)} | Due(w, q, j0)
      ensures Lookup(v, q, j0, j1) == Lookup(w, q, j0, j1)
    {
      assert DirOk(w, q) && TableOk(w, q, j0);
    }
    assert Due(w, pd, i0);
  }
}
