/** Whole runs: every frame is in one place, and no space sees what another does. */
module VmmRuns {
  import opened VmmModel
  import opened VmmTables
  import opened VmmSpaces
  import opened VmmFork
  import opened VmmExec
  import opened VmmDestroy

  // ---------------------------------------------------------------- one frame, one place

  /** No frame is in flight. */
  ghost predicate NoneHeld(w: World) {
    forall f: nat {:trigger RoleOf(w, f)} :: RoleOf(w, f) != Held
  }

  ghost predicate Sound(w: World) {
    Inv(w) && NoneHeld(w) && forall pd: nat {:trigger pd in w.spaces} :: pd in w.spaces ==> Alive(w, pd)
  }

  predicate OnFreeList(w: World, f: nat) {
    f in w.free
  }

  predicate InTable(w: World, f: nat, pd: nat, i0: Index) {
    Alive(w, pd) && Present(At(w, pd)[i0]) && At(w, pd)[i0].frame == f
  }

  predicate InPage(w: World, f: nat, pd: nat, i0: Index, i1: Index) {
    Alive(w, pd) && i0 > 0 && Present(Lookup(w, pd, i0, i1)) && Lookup(w, pd, i0, i1).frame == f
  }

  /** Every frame of the pool is untouched, on the free list, a directory, a table or a page. */
  lemma SomePlace(w: World, f: nat)
    requires Sound(w) && w.start <= f < w.limit
    ensures
      || f >= w.avail || OnFreeList(w, f) || Alive(w, f)
      || (exists pd: nat, i0: Index {:trigger InTable(w, f, pd, i0)} :: InTable(w, f, pd, i0))
      || (exists pd: nat, i0: Index, i1: Index {:trigger InPage(w, f, pd, i0, i1)} :: InPage(w, f, pd, i0, i1))
  {
    assert PoolOk(w, f) && OwnedOk(w, f);
    match RoleOf(w, f)
    case Table(pd, i0) => assert InTable(w, f, pd, i0);
    case Page(pd, i0, i1) => assert InPage(w, f, pd, i0, i1);
    case _ =>
  }

  lemma FreeRole(w: World, f: nat)
    requires Inv(w) && OnFreeList(w, f)
    ensures RoleOf(w, f).Free? && w.start <= f < w.avail
  {
    var k :| 0 <= k < |w.free| && w.free[k] == f;
    assert FreeOk(w, k) && PoolOk(w, f);
  }

  /** And in one of these places only: frames from avail on are nowhere else, nor are free frames,
      directories, tables, pages; and two table or page entries never name the same frame. */
  lemma OnePlace(w: World, f: nat, pd: nat, i0: Index, i1: Index, q: nat, j0: Index, j1: Index)
    requires Sound(w)
    ensures OnFreeList(w, f) ==> w.start <= f < w.avail && !Alive(w, f) && !InTable(w, f, pd, i0) && !InPage(w, f, pd, i0, i1)
    ensures Alive(w, f) ==> w.start <= f < w.avail && !InTable(w, f, pd, i0) && !InPage(w, f, pd, i0, i1)
    ensures InTable(w, f, pd, i0) ==> w.start <= f < w.avail && !InPage(w, f, q, j0, j1)
    ensures InTable(w, f, pd, i0) && InTable(w, f, q, j0) ==> pd == q && i0 == j0
    ensures InPage(w, f, pd, i0, i1) ==> w.start <= f < w.avail
    ensures InPage(w, f, pd, i0, i1) && InPage(w, f, q, j0, j1) ==> pd == q && i0 == j0 && i1 == j1
  {
    hide Lookup;
    assert PoolOk(w, f) && DirOk(w, f);
    assert TableOk(w, pd, i0) && TableOk(w, q, j0) && PageOk(w, pd, i0, i1) && PageOk(w, q, j0, j1);
    if OnFreeList(w, f) { FreeRole(w, f); }
  }

  // ---------------------------------------------------------------- fork as a whole

  /** The child's address space is constructed, then filled. */
  function ForkSpace(w: World, parent: nat): (World, nat) {
    var a := Create(w);
    if a.0.panicked then a else (Fork(a.0, parent, a.1, 1024), a.1)
  }

  lemma {:induction false} RowNeedSame(w: World, v: World, parent: nat, i0: Index, n: nat)
    requires n <= 1024 && forall i1: Index {:trigger Lookup(v, parent, i0, i1)} :: Lookup(v, parent, i0, i1) == Lookup(w, parent, i0, i1)
    ensures RowNeed(v, parent, i0, n) == RowNeed(w, parent, i0, n)
  {
    hide Lookup;
    if n > 0 {
      RowNeedSame(w, v, parent, i0, n - 1);
      assert Lookup(v, parent, i0, n - 1) == Lookup(w, parent, i0, n - 1);
    }
  }

  lemma {:induction false} NeedSame(w: World, v: World, parent: nat, m: nat)
    requires 512 <= m <= 1024
    requires forall i0: Index, i1: Index {:trigger Lookup(v, parent, i0, i1)} :: Lookup(v, parent, i0, i1) == Lookup(w, parent, i0, i1)
    ensures Need(v, parent, m) == Need(w, parent, m)
  {
    hide Lookup;
    if m > 512 {
      NeedSame(w, v, parent, m - 1);
      RowNeedSame(w, v, parent, m - 1, 1024);
    }
  }

  /** A page of parent and child after fork. */
  predicate TwinAt(w: World, v: World, parent: nat, child: nat, i0: Index, i1: Index) {
    var x, y, p := Lookup(w, parent, i0, i1), Lookup(v, child, i0, i1), Lookup(v, parent, i0, i1);
    && p == x && (i0 > 0 && Present(x) ==> At(v, p.frame) == At(w, x.frame))
    && (i0 >= 512 ==>
          if Present(x) then y.low == x.low && y.frame != x.frame && At(v, y.frame) == At(w, x.frame) else y == ZERO)
    && (i0 < 512 ==> y == if i0 == 0 && 0 < i1 < w.limit then Word(i1, 3) else ZERO)
  }

  /** fork fails exactly when the frames do not suffice for a new space and the parent's upper half.
      Otherwise the child has the parent's upper half with the same permissions and bytes, in other
      frames, and the lower half of every space; the parent and everybody else are unchanged. */
  lemma ForkSpaceSpec(w: World, parent: nat)
    requires Inv(w) && Alive(w, parent) && !w.panicked
    ensures var (v, child) := ForkSpace(w, parent);
      && (v.panicked <==> Available(w) < 2 + Need(w, parent, 1024))
      && (!v.panicked ==>
            && Inv(v) && Alive(v, child) && child !in w.spaces && Kept(w, v, child) && Settled(w, v)
            && forall i0: Index, i1: Index {:trigger TwinAt(w, v, parent, child, i0, i1)} :: TwinAt(w, v, parent, child, i0, i1))
  {
    hide Create, Lookup, Pool, Mapped, Available, Need, Fork, Kept;
    CreateSpec(w);
    var (a, child) := Create(w);
    AvailableNat(w);
    if !a.panicked {
      AvailableNat(a);
      ParentCreated(w, a, parent, child);
      ForkSpec(a, parent, child, 1024);
      var v := Fork(a, parent, child, 1024);
      KeptTwice(w, a, v, child);
      if !v.panicked {
        SettledTwice(w, a, v);
        forall i0: Index, i1: Index {:trigger TwinAt(w, v, parent, child, i0, i1)}
          ensures TwinAt(w, v, parent, child, i0, i1)
        {
          Twin(w, a, v, parent, child, i0, i1, Need(a, parent, 1024));
        }
      }
    }
  }

  lemma ParentCreated(w: World, a: World, parent: nat, child: nat)
    requires Inv(w) && Alive(w, parent) && child !in w.spaces && Fine(w, a, child) && OnlyTableZero(a, child)
    ensures Ready(a, parent, child) && Need(a, parent, 1024) == Need(w, parent, 1024)
  {
    hide Lookup, Inv, Kept;
    SpaceKept(w, a, child, parent, 0, 0);
    forall i0: Index, i1: Index {:trigger Lookup(a, parent, i0, i1)}
      ensures Lookup(a, parent, i0, i1) == Lookup(w, parent, i0, i1)
    {
      SpaceKept(w, a, child, parent, i0, i1);
    }
    NeedSame(w, a, parent, 1024);
  }

  lemma Twin(w: World, a: World, v: World, parent: nat, child: nat, i0: Index, i1: Index, used: nat)
    requires Inv(w) && Alive(w, parent) && child !in w.spaces && Fine(w, a, child) && Identity(a, child, w.limit)
    requires Ready(a, parent, child) && Copying(a, v, parent, child, 1024, 0, used)
    ensures TwinAt(w, v, parent, child, i0, i1)
  {
    hide Lookup, Kept, Pool, TablesThere, Available, Settled;
    SpaceKept(w, a, child, parent, i0, i1);
    ParentSame(a, v, parent, child, i0, i1);
    assert CopiedAt(a, v, parent, child, i0, i1, 1024, 0);
    assert PageOk(a, parent, i0, i1) && PageOk(v, parent, i0, i1);
    SpaceKept(a, v, child, parent, i0, i1);
  }

  // ---------------------------------------------------------------- runs

  datatype Op =
    | OpCreate
    | OpFault(pd: nat, va: nat)
    | OpFork(parent: nat)
    | OpExec(pd: nat)
    | OpDestroy(pd: nat)
    | OpStore(pd: nat, i0: Index, i1: Index, k: Index, x: Word)

  /** Operations are on spaces in use; the processor reports a fault in the upper half only for a
      page that is not mapped, and performs a store only on one that is. */
  predicate Legal(w: World, op: Op) {
    match op
    case OpCreate => true
    case OpFault(pd, va) => Alive(w, pd) && va < 0x1_0000_0000 && (va >= 0x8000_0000 ==> !Present(Lookup(w, pd, I0(va), I1(va))))
    case OpFork(parent) => Alive(w, parent)
    case OpExec(pd) => Alive(w, pd)
    case OpDestroy(pd) => Alive(w, pd)
    case OpStore(pd, i0, i1, _, _) => Alive(w, pd) && i0 >= 512 && Present(Lookup(w, pd, i0, i1))
  }

  function Do(w: World, op: Op): World {
    match op
    case OpCreate => Create(w).0
    case OpFault(pd, va) => Fault(w, pd, va).0
    case OpFork(parent) => ForkSpace(w, parent).0
    case OpExec(pd) => Exec(w, pd, 1024)
    case OpDestroy(pd) => Destroy(w, pd)
    case OpStore(pd, i0, i1, k, x) => Store(w, pd, i0, i1, k, x)
  }

  /** The space an operation works on; for create and fork, the new one. */
  function Target(w: World, op: Op): nat {
    match op
    case OpCreate => Create(w).1
    case OpFault(pd, _) => pd
    case OpFork(parent) => ForkSpace(w, parent).1
    case OpExec(pd) => pd
    case OpDestroy(pd) => pd
    case OpStore(pd, _, _, _, _) => pd
  }

  predicate MakesNew(op: Op) {
    op.OpCreate? || op.OpFork?
  }

  lemma OpKeeps(w: World, op: Op)
    requires Inv(w) && !w.panicked && Legal(w, op) && !Do(w, op).panicked
    ensures var v := Do(w, op); Inv(v) && Kept(w, v, Target(w, op)) && Settled(w, v) && (MakesNew(op) ==> Target(w, op) !in w.spaces)
  {
    hide Create, Exec, Destroy, ForkSpace, Inv, Kept, Settled, Pmap, Store, Lookup;
    match op {
      case OpCreate => CreateSpec(w);
      case OpFault(pd, va) => if va >= 0x8000_0000 { FaultSpec(w, pd, va); } else { KeptSelf(w, pd); SettledSelf(w); }
      case OpFork(parent) => ForkSpaceSpec(w, parent);
      case OpExec(pd) => ExecSpec(w, pd);
      case OpDestroy(pd) => DestroySpec(w, pd);
      case OpStore(pd, i0, i1, k, x) => StoreSpec(w, pd, i0, i1, k, x);
    }
  }

  lemma SettledSelf(w: World)
    ensures Settled(w, w)
  {
  }

  /** What each call achieves when it does not panic. */
  ghost predicate Achieved(w: World, op: Op, v: World) {
    match op
    case OpCreate => exists pd: nat {:trigger Identity(v, pd, w.limit)} :: pd !in w.spaces && Alive(v, pd) && Identity(v, pd, w.limit) && Kept(w, v, pd)
    case OpFault(pd, va) =>
      if va < 0x1000 then v == w
      else va >= 0x8000_0000 && forall i0: Index, i1: Index {:trigger PageOf(i0, i1, va)} :: PageOf(i0, i1, va) ==> NewPage(w, v, pd, i0, i1, Blank())
    case OpFork(parent) =>
      exists child: nat {:trigger Alive(v, child)} :: child !in w.spaces && Alive(v, child) && Kept(w, v, child)
        && forall i0: Index, i1: Index {:trigger TwinAt(w, v, parent, child, i0, i1)} :: TwinAt(w, v, parent, child, i0, i1)
    case OpExec(pd) =>
      && Alive(v, pd) && Kept(w, v, pd)
      && (forall i0: Index, i1: Index {:trigger Lookup(v, pd, i0, i1)} :: Lookup(v, pd, i0, i1) == if i0 >= 512 then ZERO else Lookup(w, pd, i0, i1))
      && (forall f: nat {:trigger RoleOf(v, f)} :: if UpperPage(RoleOf(w, f), pd) then RoleOf(v, f).Free? else RoleOf(v, f) == RoleOf(w, f))
    case OpDestroy(pd) =>
      && pd !in v.spaces && Kept(w, v, pd)
      && (forall f: nat {:trigger RoleOf(v, f)} :: if Owned(RoleOf(w, f)) && Owner(w, f) == pd then RoleOf(v, f).Free? else RoleOf(v, f) == RoleOf(w, f))
    case OpStore(pd, i0, i1, k, x) =>
      && Alive(v, pd) && Kept(w, v, pd) && SameMaps(w, v)
      && At(v, Lookup(v, pd, i0, i1).frame) == At(w, Lookup(w, pd, i0, i1).frame)[k := x]
  }

  /** Every call that goes well achieves its purpose. */
  lemma OpAchieves(w: World, op: Op)
    requires Inv(w) && !w.panicked && Legal(w, op) && !Do(w, op).panicked
    ensures Achieved(w, op, Do(w, op))
  {
    hide Create, Exec, Destroy, ForkSpace, Inv, Kept, Settled, Pmap, Store, Lookup, Identity, NewPage, TwinAt;
    match op {
      case OpCreate => CreateSpec(w);
      case OpFault(pd, va) => if va >= 0x8000_0000 { FaultSpec(w, pd, va); }
      case OpFork(parent) => ForkSpaceSpec(w, parent);
      case OpExec(pd) => ExecSpec(w, pd);
      case OpDestroy(pd) => DestroySpec(w, pd);
      case OpStore(pd, i0, i1, k, x) => StoreSpec(w, pd, i0, i1, k, x);
    }
  }

  /** A step of the kernel. */
  lemma OpSound(w: World, op: Op)
    requires Sound(w) && !w.panicked && Legal(w, op) && !Do(w, op).panicked
    ensures Sound(Do(w, op))
  {
    hide Do, Inv, Target, Lookup;
    OpKeeps(w, op);
    OpAlive(w, op);
    var v := Do(w, op);
    forall f: nat {:trigger RoleOf(v, f)} ensures RoleOf(v, f) != Held { assert RoleOf(v, f) == Held ==> RoleOf(w, f) == Held; }
  }

  lemma OpAlive(w: World, op: Op)
    requires Inv(w) && !w.panicked && Legal(w, op) && !Do(w, op).panicked
    ensures var (v, pd) := (Do(w, op), Target(w, op)); pd in v.spaces ==> Alive(v, pd)
  {
    hide Create, Exec, Destroy, ForkSpace, Inv, Kept, Settled, Pmap, Store, Lookup;
    match op {
      case OpCreate => CreateSpec(w);
      case OpFault(pd, va) => if va >= 0x8000_0000 { FaultSpec(w, pd, va); }
      case OpFork(parent) => ForkSpaceSpec(w, parent);
      case OpExec(pd) => ExecSpec(w, pd);
      case OpDestroy(pd) => DestroySpec(w, pd);
      case OpStore(pd, i0, i1, k, x) => StoreSpec(w, pd, i0, i1, k, x);
    }
  }

  /** After PhysMem::init: the frames below start belong to the kernel, the rest is untouched. */
  ghost predicate Fresh(w: World) {
    && 0 < w.start <= w.limit <= 1024 && |w.mem| == w.limit == |w.role| && w.avail == w.start && w.first == 0 && w.free == []
    && w.spaces == map[] && !w.panicked
    && forall f: nat {:trigger RoleOf(w, f)} :: f < w.limit ==> RoleOf(w, f) == if f < w.start then Kernel else Untouched
  }

  lemma FreshSound(w: World)
    requires Fresh(w)
    ensures Sound(w)
  {
    forall f: nat {:trigger PoolOk(w, f)} ensures PoolOk(w, f) { assert RoleOf(w, f) == RoleOf(w, f); }
    forall f: nat {:trigger OwnedOk(w, f)} ensures OwnedOk(w, f) { assert RoleOf(w, f) == RoleOf(w, f); }
  }

  /** A run, up to a panic; an operation that is not legal when its turn comes is passed over. */
  function Run(w: World, ops: seq<Op>): World
    decreases |ops|
  {
    if ops == [] || w.panicked then w else Run(if Legal(w, ops[0]) then Do(w, ops[0]) else w, ops[1..])
  }

  /** In every state that a run can reach without a panic, every frame is in one place. */
  lemma {:induction false} RunSound(w: World, ops: seq<Op>)
    requires Sound(w) && !w.panicked
    ensures Run(w, ops).panicked || Sound(Run(w, ops))
    decreases |ops|
  {
    hide Sound, Do, Legal;
    if ops != [] {
      if !Legal(w, ops[0]) {
        RunSound(w, ops[1..]);
      } else if !Do(w, ops[0]).panicked {
        OpSound(w, ops[0]);
        RunSound(Do(w, ops[0]), ops[1..]);
      }
    }
  }

  // ---------------------------------------------------------------- isolation

  /** Space q sees the same in w and v: the same mapping and the same bytes. */
  predicate SeesSameAt(w: World, v: World, q: nat, i0: Index, i1: Index) {
    && Lookup(v, q, i0, i1) == Lookup(w, q, i0, i1)
    && (i0 > 0 && Present(Lookup(w, q, i0, i1)) ==> At(v, Lookup(v, q, i0, i1).frame) == At(w, Lookup(w, q, i0, i1).frame))
  }

  ghost predicate SeesSame(w: World, v: World, q: nat) {
    Alive(v, q) && forall i0: Index, i1: Index {:trigger SeesSameAt(w, v, q, i0, i1)} :: SeesSameAt(w, v, q, i0, i1)
  }

  lemma OpIsolates(w: World, op: Op, q: nat)
    requires Inv(w) && Alive(w, q) && !w.panicked && Legal(w, op) && !Do(w, op).panicked
    requires Touches(op, q) ==> MakesNew(op)
    ensures Inv(Do(w, op)) && SeesSame(w, Do(w, op), q)
  {
    hide Do, Inv, Lookup, Kept;
    OpKeeps(w, op);
    assert Target(w, op) != q;
    var v := Do(w, op);
    SpaceKept(w, v, Target(w, op), q, 0, 0);
    forall i0: Index, i1: Index {:trigger SeesSameAt(w, v, q, i0, i1)}
      ensures SeesSameAt(w, v, q, i0, i1)
    {
      SpaceKept(w, v, Target(w, op), q, i0, i1);
    }
  }

  /** The operations of space q's own process; fork only reads its space. */
  predicate Touches(op: Op, q: nat) {
    match op
    case OpCreate => false
    case OpFault(pd, _) => pd == q
    case OpFork(parent) => parent == q
    case OpExec(pd) => pd == q
    case OpDestroy(pd) => pd == q
    case OpStore(pd, _, _, _, _) => pd == q
  }

  lemma SeesTwice(u: World, v: World, w: World, q: nat)
    requires SeesSame(u, v, q) && SeesSame(v, w, q)
    ensures SeesSame(u, w, q)
  {
    hide Lookup;
    forall i0: Index, i1: Index {:trigger SeesSameAt(u, w, q, i0, i1)}
      ensures SeesSameAt(u, w, q, i0, i1)
    {
      assert SeesSameAt(u, v, q, i0, i1) && SeesSameAt(v, w, q, i0, i1);
    }
  }

  lemma SeesSelf(w: World, q: nat)
    requires Alive(w, q)
    ensures SeesSame(w, w, q)
  {
  }

  predicate LeavesAlone(ops: seq<Op>, q: nat) {
    forall k {:trigger ops[k]} :: 0 <= k < |ops| && Touches(ops[k], q) ==> MakesNew(ops[k])
  }

  /** Whatever the other processes do - faults, stores, fork, exec, exit - a space sees the same
      mapping and the same bytes. After a fork this holds for parent and child alike. */
  lemma {:induction false} RunIsolates(w: World, ops: seq<Op>, q: nat)
    requires Inv(w) && Alive(w, q) && !w.panicked && LeavesAlone(ops, q)
    ensures Run(w, ops).panicked || SeesSame(w, Run(w, ops), q)
    decreases |ops|
  {
    hide Inv, Do, Legal, SeesSame;
    SeesSelf(w, q);
    if ops != [] {
      var rest := ops[1..];
      assert LeavesAlone(rest, q) by {
        forall k {:trigger rest[k]} | 0 <= k < |rest| && Touches(rest[k], q) ensures MakesNew(rest[k]) { assert rest[k] == ops[k + 1]; }
      }
      if !Legal(w, ops[0]) {
        RunIsolates(w, rest, q);
      } else if !Do(w, ops[0]).panicked {
        var v := Do(w, ops[0]);
        assert Touches(ops[0], q) ==> MakesNew(ops[0]);
        OpIsolates(w, ops[0], q);
        StillAlive(w, v, q);
        RunIsolates(v, rest, q);
        if !Run(v, rest).panicked { SeesTwice(w, v, Run(v, rest), q); }
      }
    }
  }

  lemma StillAlive(w: World, v: World, q: nat)
    requires SeesSame(w, v, q)
    ensures Alive(v, q)
  {
  }
}
