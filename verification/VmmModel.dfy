/** Physical frames and two-level page tables. Directories, tables, user pages and the nodes of the
    free list are all frames of one memory; a ledger says what each frame is used for. */
module VmmModel {

  // ---------------------------------------------------------------- memory

  type Index = i: nat | i < 1024

  /** A 32-bit word, as its upper 20 and its lower 12 bits. */
  datatype Word = Word(frame: nat, low: nat)

  const ZERO := Word(0, 0)

  type Frame = s: seq<Word> | |s| == 1024 witness seq(1024, _ => Word(0, 0))

  function Blank(): Frame {
    seq(1024, _ => ZERO)
  }

  /** The P bit. */
  predicate Present(x: Word) {
    x.low % 2 == 1
  }

  /** What a frame is used for. Free(k) is the k-th frame of the free list, counted from its end;
      Held is a frame that has been allocated and is not mapped. */
  datatype Role =
    | Kernel | Untouched | Free(k: nat) | Held
    | Directory | Table(pd: nat, i0: nat) | Page(pd: nat, i0: nat, i1: nat)

  /** The first table and entry that the destructor of an address space has not passed; (0, 0) for a
      space that is in use. */
  datatype Todo = Todo(i0: nat, i1: nat)

  const ALIVE := Todo(0, 0)

  /** Frame numbers stand for addresses, 0 for the null pointer. `start`, `free`, `role` and
      `spaces` are the ledger; no operation depends on them. */
  datatype World = World(
    mem: seq<Frame>, first: nat, avail: nat, limit: nat, panicked: bool,
    start: nat, free: seq<nat>, role: seq<Role>, spaces: map<nat, Todo>)

  function At(w: World, f: nat): Frame {
    if f < |w.mem| then w.mem[f] else Blank()
  }

  function Put(w: World, f: nat, s: Frame): World {
    if f < |w.mem| then w.(mem := w.mem[f := s]) else w
  }

  function RoleOf(w: World, f: nat): Role {
    if f < |w.role| then w.role[f] else Kernel
  }

  function Mark(w: World, f: nat, r: Role): World {
    if f < |w.role| then w.(role := w.role[f := r]) else w
  }

  /** The entry of page (i0, i1), when its table is present. */
  function Entry(w: World, pd: nat, i0: Index, i1: Index): Word {
    At(w, At(w, pd)[i0].frame)[i1]
  }

  /** What the processor finds for page (i0, i1) in the two levels; ZERO if it is not mapped. */
  function Lookup(w: World, pd: nat, i0: Index, i1: Index): Word {
    if Present(At(w, pd)[i0]) && Present(Entry(w, pd, i0, i1)) then Entry(w, pd, i0, i1) else ZERO
  }

  // ---------------------------------------------------------------- operations

  function Popped(w: World): World {
    w.(first := At(w, w.first)[0].frame, free := if w.free == [] then [] else w.free[..|w.free| - 1])
  }

  /** PhysMem::alloc. */
  function Alloc(w: World): (World, nat) {
    if w.first != 0 then (Mark(Put(Popped(w), w.first, Blank()), w.first, Held), w.first)
    else if w.avail == w.limit then (w.(panicked := true), 0)
    else (Mark(Put(w.(avail := w.avail + 1), w.avail, Blank()), w.avail, Held), w.avail)
  }

  /** PhysMem::free. */
  function FreeFrame(w: World, p: nat): World {
    Mark(Put(w, p, At(w, p)[0 := Word(w.first, 0)]), p, Free(|w.free|)).(first := p, free := w.free + [p])
  }

  function SetEntry(w: World, pd: nat, i0: Index, i1: Index, x: Word): World {
    var t := At(w, pd)[i0].frame;
    Put(w, t, At(w, t)[i1 := x])
  }

  /** A present table entry: user, write, present. */
  function InstallTable(w: World, pd: nat, i0: Index, f: nat): World {
    Mark(Put(w, pd, At(w, pd)[i0 := Word(f, 7)]), f, Table(pd, i0))
  }

  /** The first half of getPTE: a missing table is allocated. */
  function NeedTable(w: World, pd: nat, i0: Index): World {
    if Present(At(w, pd)[i0]) then w
    else
      var a := Alloc(w);
      if a.0.panicked then a.0 else InstallTable(a.0, pd, i0, a.1)
  }

  function Flags(forUser: bool, forWrite: bool): nat {
    (if forUser then 4 else 0) + (if forWrite then 2 else 0) + 1
  }

  /** pmap. A frame mapped outside table 0 is on record as that page. */
  function Pmap(w: World, pd: nat, i0: Index, i1: Index, f: nat, low: nat): World {
    var v := NeedTable(w, pd, i0);
    if v.panicked then v
    else
      var mapped := SetEntry(v, pd, i0, i1, Word(f, low));
      if i0 > 0 then Mark(mapped, f, Page(pd, i0, i1)) else mapped
  }

  /** punmap; a frame that was mapped outside table 0 is left to the caller. */
  function Punmap(w: World, pd: nat, i0: Index, i1: Index): World {
    var v := NeedTable(w, pd, i0);
    if v.panicked then v
    else
      var x := Lookup(v, pd, i0, i1);
      var cleared := SetEntry(v, pd, i0, i1, ZERO);
      if i0 > 0 && Present(x) then Mark(cleared, x.frame, Held) else cleared
  }

  // ---------------------------------------------------------------- invariant: the pool

  predicate PoolOk(w: World, f: nat) {
    match RoleOf(w, f)
    case Kernel => f < w.start || f >= w.limit
    case Untouched => w.avail <= f < w.limit
    case Free(k) => w.start <= f < w.avail && k < |w.free| && w.free[k] == f
    case _ => w.start <= f < w.avail
  }

  predicate FreeOk(w: World, k: nat) {
    k < |w.free| ==>
      && RoleOf(w, w.free[k]) == Free(k)
      && At(w, w.free[k])[0] == Word(if k == 0 then 0 else w.free[k - 1], 0)
  }

  /** The pool of frames from start to limit: first heads the list of the free frames, threaded
      through their first words, and everything from avail on is untouched. */
  ghost predicate Pool(w: World) {
    && 0 < w.start <= w.avail <= w.limit <= 1024 && |w.mem| == w.limit == |w.role|
    && w.first == (if w.free == [] then 0 else w.free[|w.free| - 1])
    && (forall f: nat {:trigger PoolOk(w, f)} :: PoolOk(w, f))
    && (forall k: nat {:trigger FreeOk(w, k)} :: FreeOk(w, k))
  }

  // ---------------------------------------------------------------- invariant: the address spaces

  predicate TableDue(t: Todo, i0: nat) {
    t.i0 <= i0
  }

  predicate PageDue(t: Todo, i0: nat, i1: nat) {
    t.i0 < i0 || (t.i0 == i0 && t.i1 <= i1)
  }

  predicate DirOk(w: World, pd: nat) {
    pd in w.spaces ==> RoleOf(w, pd) == Directory
  }

  /** A present directory entry points at a frame that is exactly this table. */
  predicate TableOk(w: World, pd: nat, i0: nat) {
    pd in w.spaces && i0 < 1024 && TableDue(w.spaces[pd], i0) && Present(At(w, pd)[i0]) ==>
      RoleOf(w, At(w, pd)[i0].frame) == Table(pd, i0)
  }

  /** A present table entry maps a page of table 0 to itself, and points at a frame that is exactly
      this page otherwise, with user and write access in the upper half. */
  predicate PageOk(w: World, pd: nat, i0: nat, i1: nat) {
    pd in w.spaces && i0 < 1024 && i1 < 1024 && PageDue(w.spaces[pd], i0, i1) && Present(Lookup(w, pd, i0, i1)) ==>
      var x := Lookup(w, pd, i0, i1);
      if i0 == 0 then x == Word(i1, 3) else RoleOf(w, x.frame) == Page(pd, i0, i1) && (i0 >= 512 ==> x.low == 7)
  }

  /** A frame on record as directory, table or page is in use as that. */
  predicate OwnedOk(w: World, f: nat) {
    match RoleOf(w, f)
    case Directory => f in w.spaces
    case Table(pd, i0) =>
      && pd in w.spaces && i0 < 1024 && TableDue(w.spaces[pd], i0)
      && Present(At(w, pd)[i0]) && At(w, pd)[i0].frame == f
    case Page(pd, i0, i1) =>
      && pd in w.spaces && 0 < i0 < 1024 && i1 < 1024 && PageDue(w.spaces[pd], i0, i1)
      && Present(Lookup(w, pd, i0, i1)) && Lookup(w, pd, i0, i1).frame == f
    case _ => true
  }

  ghost predicate Mapped(w: World) {
    && (forall pd: nat {:trigger DirOk(w, pd)} :: DirOk(w, pd))
    && (forall pd: nat, i0: nat {:trigger TableOk(w, pd, i0)} :: TableOk(w, pd, i0))
    && (forall pd: nat, i0: nat, i1: nat {:trigger PageOk(w, pd, i0, i1)} :: PageOk(w, pd, i0, i1))
    && (forall f: nat {:trigger OwnedOk(w, f)} :: OwnedOk(w, f))
  }

  ghost predicate Inv(w: World) {
    Pool(w) && Mapped(w)
  }

  // ---------------------------------------------------------------- what belongs to a space

  predicate Owned(r: Role) {
    r.Directory? || r.Table? || r.Page?
  }

  /** The directory a frame belongs to. */
  function Owner(w: World, f: nat): nat
    requires Owned(RoleOf(w, f))
  {
    match RoleOf(w, f)
    case Directory => f
    case Table(pd, _) => pd
    case Page(pd, _, _) => pd
  }

  predicate FrameKept(w: World, v: World, pd: nat, f: nat) {
    Owned(RoleOf(w, f)) && Owner(w, f) != pd ==> RoleOf(v, f) == RoleOf(w, f) && At(v, f) == At(w, f)
  }

  /** Every space other than pd keeps its frames, what is in them, and its place in the ledger. */
  ghost predicate Kept(w: World, v: World, pd: nat) {
    && (forall f: nat {:trigger FrameKept(w, v, pd, f)} :: FrameKept(w, v, pd, f))
    && (forall q: nat {:trigger q in v.spaces} {:trigger q in w.spaces} :: q != pd ==> (q in w.spaces <==> q in v.spaces) && (q in w.spaces ==> v.spaces[q] == w.spaces[q]))
    && v.start == w.start && v.limit == w.limit
  }

  lemma KeptTwice(u: World, v: World, w: World, pd: nat)
    requires Kept(u, v, pd) && Kept(v, w, pd)
    ensures Kept(u, w, pd)
  {
    forall f: nat {:trigger FrameKept(u, w, pd, f)}
      ensures FrameKept(u, w, pd, f)
    {
      assert FrameKept(u, v, pd, f) && FrameKept(v, w, pd, f);
    }
  }

  /** A space in use, with its tables and pages. */
  predicate Alive(w: World, pd: nat) {
    pd in w.spaces && w.spaces[pd] == ALIVE
  }

  /** A kept space has the same mapping and the same bytes in every page of its own. */
  lemma SpaceKept(w: World, v: World, pd: nat, q: nat, i0: Index, i1: Index)
    requires Inv(w) && Kept(w, v, pd) && q != pd && Alive(w, q)
    ensures Alive(v, q) && At(v, q) == At(w, q)
    ensures Lookup(v, q, i0, i1) == Lookup(w, q, i0, i1)
    ensures i0 > 0 && Present(Lookup(w, q, i0, i1)) ==> At(v, Lookup(v, q, i0, i1).frame) == At(w, Lookup(w, q, i0, i1).frame)
  {
    assert DirOk(w, q) && FrameKept(w, v, pd, q);
    assert TableOk(w, q, i0) && PageOk(w, q, i0, i1);
    assert FrameKept(w, v, pd, At(w, q)[i0].frame);
    assert FrameKept(w, v, pd, Lookup(w, q, i0, i1).frame);
  }

  // ---------------------------------------------------------------- frames that belong to no space

  /** A change of memory and roles outside the spaces. */
  ghost predicate Outside(w: World, v: World) {
    && v.spaces == w.spaces
    && (forall f: nat {:trigger RoleOf(v, f)} {:trigger At(v, f)} :: Owned(RoleOf(w, f)) || Owned(RoleOf(v, f)) ==> RoleOf(v, f) == RoleOf(w, f) && At(v, f) == At(w, f))
  }

  lemma OutsideMapped(w: World, v: World)
    requires Mapped(w) && Outside(w, v)
    ensures Mapped(v)
  {
    forall pd: nat {:trigger DirOk(v, pd)}
      ensures DirOk(v, pd)
    {
      assert DirOk(w, pd);
    }
    forall pd: nat, i0: nat {:trigger TableOk(v, pd, i0)}
      ensures TableOk(v, pd, i0)
    {
      assert DirOk(w, pd) && TableOk(w, pd, i0);
    }
    forall pd: nat, i0: nat, i1: nat {:trigger PageOk(v, pd, i0, i1)}
      ensures PageOk(v, pd, i0, i1)
    {
      assert DirOk(w, pd) && TableOk(w, pd, i0) && PageOk(w, pd, i0, i1);
    }
    forall f: nat {:trigger OwnedOk(v, f)}
      ensures OwnedOk(v, f)
    {
      OutsideOwned(w, v, f);
    }
  }

  lemma OutsideOwned(w: World, v: World, f: nat)
    requires Mapped(w) && Outside(w, v)
    ensures OwnedOk(v, f)
  {
    assert OwnedOk(w, f);
    match RoleOf(v, f)
    case Table(pd, i0) =>
      assert DirOk(w, pd);
    case Page(pd, i0, i1) =>
      assert DirOk(w, pd) && TableOk(w, pd, i0);
    case _ =>
  }

  lemma OutsideKept(w: World, v: World, pd: nat)
    requires Outside(w, v) && v.start == w.start && v.limit == w.limit
    ensures Kept(w, v, pd)
  {
  }

  /** alloc: the last frame freed, or the first untouched one, or a panic exactly when there is
      neither; the frame is cleared and everything else is as it was. */
  lemma AllocInv(w: World)
    requires Inv(w) && !w.panicked
    ensures var (v, f) := Alloc(w);
      if w.free == [] && w.avail == w.limit then v == w.(panicked := true)
      else
        && !v.panicked && Inv(v) && Outside(w, v) && v.start == w.start && v.limit == w.limit
        && (RoleOf(w, f).Free? || RoleOf(w, f).Untouched?)
        && RoleOf(v, f) == Held && At(v, f) == Blank() && v.role == w.role[f := Held] && v.mem == w.mem[f := Blank()]
        && |v.free| + (v.limit - v.avail) == |w.free| + (w.limit - w.avail) - 1
  {
    var (v, f) := Alloc(w);
    if w.free != [] {
      var last := |w.free| - 1;
      assert FreeOk(w, last) && PoolOk(w, w.first);
      forall g: nat {:trigger PoolOk(v, g)} ensures PoolOk(v, g) { assert PoolOk(w, g); }
      forall k: nat {:trigger FreeOk(v, k)} ensures FreeOk(v, k) { assert FreeOk(w, k); }
      assert last > 0 ==> FreeOk(w, last - 1) && PoolOk(w, w.free[last - 1]);
      OutsideMapped(w, v);
    } else if w.avail < w.limit {
      assert PoolOk(w, w.avail);
      forall g: nat {:trigger PoolOk(v, g)} ensures PoolOk(v, g) { assert PoolOk(w, g); }
      forall k: nat {:trigger FreeOk(v, k)} ensures FreeOk(v, k) { assert FreeOk(w, k); }
      OutsideMapped(w, v);
    }
  }

  /** free of a frame that nobody uses: it becomes the head of the free list. */
  lemma FreeInv(w: World, p: nat)
    requires Inv(w) && RoleOf(w, p) == Held
    ensures var v := FreeFrame(w, p);
      && Inv(v) && Outside(w, v) && v.start == w.start && v.limit == w.limit && v.panicked == w.panicked
      && v.role == w.role[p := Free(|w.free|)]
      && (forall f: nat {:trigger At(v, f)} :: f != p ==> At(v, f) == At(w, f))
      && |v.free| + (v.limit - v.avail) == |w.free| + (w.limit - w.avail) + 1
  {
    var v := FreeFrame(w, p);
    assert PoolOk(w, p);
    forall g: nat {:trigger PoolOk(v, g)} ensures PoolOk(v, g) { assert PoolOk(w, g); }
    forall k: nat {:trigger FreeOk(v, k)}
      ensures FreeOk(v, k)
    {
      assert FreeOk(w, k);
      assert k > 0 ==> FreeOk(w, k - 1);
    }
    OutsideMapped(w, v);
  }

  /** Writing to a frame that is neither directory nor table nor free. */
  lemma WriteInv(w: World, f: nat, s: Frame)
    requires Inv(w) && (RoleOf(w, f) == Held || RoleOf(w, f).Page?)
    ensures Inv(Put(w, f, s))
  {
    var v := Put(w, f, s);
    forall g: nat {:trigger PoolOk(v, g)} ensures PoolOk(v, g) { assert PoolOk(w, g); }
    forall k: nat {:trigger FreeOk(v, k)} ensures FreeOk(v, k) { assert FreeOk(w, k); }
    forall pd: nat {:trigger DirOk(v, pd)} ensures DirOk(v, pd) { assert DirOk(w, pd); }
    forall pd: nat, i0: nat {:trigger TableOk(v, pd, i0)}
      ensures TableOk(v, pd, i0)
    {
      assert DirOk(w, pd) && TableOk(w, pd, i0);
    }
    forall pd: nat, i0: nat, i1: nat {:trigger PageOk(v, pd, i0, i1)}
      ensures PageOk(v, pd, i0, i1)
    {
      assert DirOk(w, pd) && TableOk(w, pd, i0) && PageOk(w, pd, i0, i1);
    }
    forall g: nat {:trigger OwnedOk(v, g)}
      ensures OwnedOk(v, g)
    {
      WriteOwned(w, f, s, g);
    }
  }

  lemma WriteOwned(w: World, f: nat, s: Frame, g: nat)
    requires Inv(w) && (RoleOf(w, f) == Held || RoleOf(w, f).Page?)
    ensures OwnedOk(Put(w, f, s), g)
  {
    assert OwnedOk(w, g);
    match RoleOf(w, g)
    case Table(pd, i0) =>
      assert DirOk(w, pd);
    case Page(pd, i0, i1) =>
      assert DirOk(w, pd) && TableOk(w, pd, i0);
    case _ =>
  }
}
