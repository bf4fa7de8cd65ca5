/** Why memory must end at 4 MB: beyond, the destructor of an address space gives away the frames
    that its constructor has mapped to themselves. The pool may have any size here. */
module VmmSelf {
  import opened VmmModel
  import opened VmmTables
  import opened VmmSpaces
  import opened VmmDestroy

  // ---------------------------------------------------------------- the pool

  /** The k-th free frame lies in the pool and points at the one before. */
  predicate Node(w: World, k: nat) {
    k < |w.free| ==> w.start <= w.free[k] < w.avail && At(w, w.free[k])[0].frame == if k == 0 then 0 else w.free[k - 1]
  }

  ghost predicate Apart(s: seq<nat>) {
    forall j, k {:trigger s[j], s[k]} :: 0 <= j < k < |s| ==> s[j] != s[k]
  }

  /** What alloc needs; memory ends below 4 GB. */
  ghost predicate Chain(w: World) {
    && 0 < w.start <= w.avail <= w.limit < 0x10_0000 && |w.mem| == w.limit
    && w.first == (if w.free == [] then 0 else w.free[|w.free| - 1])
    && Apart(w.free) && forall k: nat {:trigger Node(w, k)} :: Node(w, k)
  }

  /** In every state of the runs, for which memory ends at 4 MB, the pool is one. */
  lemma PoolIsChain(w: World)
    requires Pool(w)
    ensures Chain(w)
  {
    forall k: nat {:trigger Node(w, k)} ensures Node(w, k) { assert FreeOk(w, k) && (k < |w.free| ==> PoolOk(w, w.free[k])); }
    forall j, k {:trigger w.free[j], w.free[k]} | 0 <= j < k < |w.free|
      ensures w.free[j] != w.free[k]
    {
      assert FreeOk(w, j) && FreeOk(w, k);
    }
  }

  /** A frame of the pool that is in use. */
  predicate Taken(w: World, f: nat) {
    w.start <= f < w.avail && f !in w.free
  }

  lemma ChainTaken(w: World, s: Frame, f: nat)
    requires Chain(w) && Taken(w, f)
    ensures Chain(Put(w, f, s))
  {
    var v := Put(w, f, s);
    forall k: nat {:trigger Node(v, k)} ensures Node(v, k) { assert Node(w, k); }
  }

  lemma ChainMarked(w: World, f: nat, r: Role)
    requires Chain(w)
    ensures Chain(Mark(w, f, r))
  {
    var v := Mark(w, f, r);
    forall k: nat {:trigger Node(v, k)} ensures Node(v, k) { assert Node(w, k); }
  }

  /** alloc for a chain: what it says of the frame that comes out. */
  ghost predicate Given(w: World, v: World, f: nat) {
    && v.panicked == w.panicked && Chain(v) && !Taken(w, f) && Taken(v, f) && At(v, f) == Blank() && v.limit == w.limit
    && Available(v) == Available(w) - 1
    && forall g: nat {:trigger Taken(w, g)} :: Taken(w, g) ==> Taken(v, g) && At(v, g) == At(w, g)
  }

  lemma AllocChain(w: World)
    requires Chain(w)
    ensures var (v, f) := Alloc(w); if Available(w) == 0 then v.panicked else Given(w, v, f)
  {
    if w.free != [] { AllocFreed(w); } else if w.avail < w.limit { AllocFresh(w); }
  }

  lemma AllocFreed(w: World)
    requires Chain(w) && w.free != []
    ensures var (v, f) := Alloc(w); Given(w, v, f)
  {
    hide Chain;
    var (v, f) := Alloc(w);
    PoppedChain(w, v);
    assert w.free == v.free + [f];
    forall g: nat {:trigger Taken(w, g)} | Taken(w, g) ensures Taken(v, g) && At(v, g) == At(w, g) { assert g !in v.free; }
  }

  lemma PoppedChain(w: World, v: World)
    requires Chain(w) && w.free != [] && v == Alloc(w).0
    ensures Chain(v) && |v.mem| == |w.mem| && w.start <= w.first < w.avail && w.first < |w.mem| && w.first == w.free[|w.free| - 1] && w.first !in v.free && w.first > 0
  {
    var last := |w.free| - 1;
    assert Node(w, last) && (last > 0 ==> Node(w, last - 1));
    forall k: nat {:trigger Node(v, k)} ensures Node(v, k) { assert Node(w, k); }
  }

  lemma AllocFresh(w: World)
    requires Chain(w) && w.free == [] && w.avail < w.limit
    ensures var (v, f) := Alloc(w); Given(w, v, f)
  {
    var (v, f) := Alloc(w);
    forall k: nat {:trigger Node(v, k)} ensures Node(v, k) {}
  }

  // ---------------------------------------------------------------- construction

  /** The tables for pages 1 to n - 1. */
  function Tables(n: nat): nat {
    if n <= 1 then 0 else (n - 1) / 1024 + 1
  }

  /** The entry of page number p when pages 1 to n - 1 are mapped to themselves. */
  function SelfEntry(p: nat, n: nat): Word {
    if 0 < p < n then Word(p, 3) else ZERO
  }

  predicate TableAt(v: World, pd: nat, n: nat, ts: seq<nat>, i0: nat) {
    i0 < |ts| ==> Taken(v, ts[i0]) && ts[i0] != pd && forall i1: Index {:trigger At(v, ts[i0])[i1]} :: At(v, ts[i0])[i1] == SelfEntry(i0 * 1024 + i1, n)
  }

  predicate DirAt(v: World, pd: nat, ts: seq<nat>, i0: Index) {
    At(v, pd)[i0] == if i0 < |ts| then Word(ts[i0], 7) else ZERO
  }

  /** Directory pd with its tables ts, when pages 1 to n - 1 are mapped to themselves. */
  ghost predicate Built(v: World, pd: nat, n: nat, ts: seq<nat>) {
    && Chain(v) && Taken(v, pd) && Apart(ts) && |ts| <= 1024
    && (forall i0: Index {:trigger DirAt(v, pd, ts, i0)} :: DirAt(v, pd, ts, i0))
    && (forall i0: nat {:trigger TableAt(v, pd, n, ts, i0)} :: TableAt(v, pd, n, ts, i0))
  }

  /** A present table entry for page number n. */
  lemma BuiltEntry(v: World, pd: nat, n: nat, ts: seq<nat>)
    requires Built(v, pd, n, ts) && 0 < n < 0x10_0000 && n / 1024 < |ts|
    ensures var u := SetEntry(v, pd, n / 1024, n % 1024, Word(n, 3)); Built(u, pd, n + 1, ts) && u == v.(mem := u.mem)
  {
    var i0: Index, i1: Index := n / 1024, n % 1024;
    assert DirAt(v, pd, ts, i0) && TableAt(v, pd, n, ts, i0);
    var u := SetEntry(v, pd, i0, i1, Word(n, 3));
    ChainTaken(v, At(v, ts[i0])[i1 := Word(n, 3)], ts[i0]);
    forall j0: Index {:trigger DirAt(u, pd, ts, j0)} ensures DirAt(u, pd, ts, j0) { assert DirAt(v, pd, ts, j0); }
    forall j0: nat {:trigger TableAt(u, pd, n + 1, ts, j0)} ensures TableAt(u, pd, n + 1, ts, j0) { TableEntry(v, u, pd, n, ts, j0); }
  }

  lemma TableEntry(v: World, u: World, pd: nat, n: nat, ts: seq<nat>, j0: nat)
    requires Built(v, pd, n, ts) && 0 < n < 0x10_0000 && n / 1024 < |ts|
    requires u == Put(v, ts[n / 1024], At(v, ts[n / 1024])[n % 1024 := Word(n, 3)])
    ensures TableAt(u, pd, n + 1, ts, j0)
  {
    assert TableAt(v, pd, n, ts, j0) && TableAt(v, pd, n, ts, n / 1024);
    if j0 < |ts| {
      forall j1: Index {:trigger At(u, ts[j0])[j1]}
        ensures At(u, ts[j0])[j1] == SelfEntry(j0 * 1024 + j1, n + 1)
      {
        assert At(v, ts[j0])[j1] == SelfEntry(j0 * 1024 + j1, n);
      }
    }
  }

  /** Page number n is the first of a table that is not there yet. */
  predicate Opens(n: nat, ts: seq<nat>) {
    0 < n < 0x10_0000 && |ts| == n / 1024 && (n == 1 || n % 1024 == 0)
  }

  lemma NewTable(v: World, a: World, t: nat, pd: nat, n: nat, ts: seq<nat>)
    requires Built(v, pd, n, ts) && Opens(n, ts) && Chain(a) && !Taken(v, t) && Taken(a, t) && At(a, t) == Blank()
    requires forall g: nat {:trigger Taken(v, g)} :: Taken(v, g) ==> Taken(a, g) && At(a, g) == At(v, g)
    ensures Built(InstallTable(a, pd, n / 1024, t), pd, n, ts + [t])
  {
    var i0: Index := n / 1024;
    assert Taken(v, pd);
    var u := InstallTable(a, pd, i0, t);
    var b := Put(a, pd, At(a, pd)[i0 := Word(t, 7)]);
    ChainTaken(a, At(a, pd)[i0 := Word(t, 7)], pd);
    ChainMarked(b, t, Table(pd, i0));
    forall j0: Index {:trigger DirAt(u, pd, ts + [t], j0)} ensures DirAt(u, pd, ts + [t], j0) { assert DirAt(v, pd, ts, j0); }
    forall j0: nat {:trigger TableAt(u, pd, n, ts + [t], j0)}
      ensures TableAt(u, pd, n, ts + [t], j0)
    {
      assert TableAt(v, pd, n, ts, j0);
      assert j0 < |ts| ==> (ts + [t])[j0] == ts[j0] && Taken(v, ts[j0]);
    }
    forall j, k {:trigger (ts + [t])[j], (ts + [t])[k]} | 0 <= j < k < |ts + [t]|
      ensures (ts + [t])[j] != (ts + [t])[k]
    {
      assert TableAt(v, pd, n, ts, j);
    }
  }

  lemma BuiltTable(v: World, pd: nat, n: nat, ts: seq<nat>) returns (us: seq<nat>)
    requires Built(v, pd, n, ts) && Opens(n, ts) && !v.panicked
    ensures Available(v) >= 0
    ensures var u := NeedTable(v, pd, n / 1024);
      if Available(v) == 0 then u.panicked
      else !u.panicked && u.limit == v.limit && Available(u) == Available(v) - 1 && Built(u, pd, n, us) && |us| == |ts| + 1
  {
    var i0: Index := n / 1024;
    assert DirAt(v, pd, ts, i0);
    AllocChain(v);
    var (a, t) := Alloc(v);
    us := ts + [t];
    if Available(v) != 0 { NewTable(v, a, t, pd, n, ts); }
  }

  /** One round of the constructor's loop: page number n is mapped to itself. */
  lemma BuiltStep(v: World, pd: nat, n: nat, ts: seq<nat>) returns (us: seq<nat>)
    requires Built(v, pd, n, ts) && !v.panicked && 0 < n < 0x10_0000 && |ts| == Tables(n)
    ensures var u := Pmap(v, pd, n / 1024 % 1024, n % 1024, n, Flags(false, true));
      && (u.panicked <==> Available(v) < Tables(n + 1) - Tables(n))
      && (!u.panicked ==> u.limit == v.limit && Available(u) == Available(v) - (Tables(n + 1) - Tables(n)) && Built(u, pd, n + 1, us) && |us| == Tables(n + 1))
  {
    hide Built, NeedTable, Chain;
    var i0: Index := n / 1024;
    us := ts;
    if Opens(n, ts) {
      us := BuiltTable(v, pd, n, ts);
    } else {
      TableThere(v, pd, n, ts);
    }
    var b := NeedTable(v, pd, i0);
    if !b.panicked { BuiltMapped(b, pd, n, us); }
  }

  lemma TableThere(v: World, pd: nat, n: nat, ts: seq<nat>)
    requires Built(v, pd, n, ts) && 0 < n < 0x10_0000 && n / 1024 < |ts|
    ensures NeedTable(v, pd, n / 1024) == v && Available(v) >= 0
  {
    assert DirAt(v, pd, ts, n / 1024);
  }

  lemma BuiltMapped(b: World, pd: nat, n: nat, ts: seq<nat>)
    requires Built(b, pd, n, ts) && 0 < n < 0x10_0000 && n / 1024 < |ts|
    ensures var m := SetEntry(b, pd, n / 1024, n % 1024, Word(n, 3));
      var u := if n / 1024 > 0 then Mark(m, n, Page(pd, n / 1024, n % 1024)) else m;
      Built(u, pd, n + 1, ts) && u.panicked == b.panicked && u.limit == b.limit && Available(u) == Available(b)
  {
    BuiltEntry(b, pd, n, ts);
    BuiltMarked(SetEntry(b, pd, n / 1024, n % 1024, Word(n, 3)), pd, n + 1, ts, n, Page(pd, n / 1024, n % 1024));
  }

  lemma BuiltMarked(v: World, pd: nat, n: nat, ts: seq<nat>, f: nat, r: Role)
    requires Built(v, pd, n, ts)
    ensures Built(Mark(v, f, r), pd, n, ts)
  {
    var u := Mark(v, f, r);
    ChainMarked(v, f, r);
    forall j0: Index {:trigger DirAt(u, pd, ts, j0)} ensures DirAt(u, pd, ts, j0) { assert DirAt(v, pd, ts, j0); }
    forall j0: nat {:trigger TableAt(u, pd, n, ts, j0)}
      ensures TableAt(u, pd, n, ts, j0)
    {
      assert TableAt(v, pd, n, ts, j0);
      if j0 < |ts| { assert At(u, ts[j0]) == At(v, ts[j0]) && Taken(u, ts[j0]) == Taken(v, ts[j0]); }
    }
  }

  lemma {:induction false} BuiltAll(v: World, pd: nat, n: nat) returns (ts: seq<nat>)
    requires Built(v, pd, 1, []) && !v.panicked && n <= v.limit
    ensures var u := MapIdentity(v, pd, n);
      && (u.panicked <==> Available(v) < Tables(n))
      && (!u.panicked ==> u.limit == v.limit && Available(u) == Available(v) - Tables(n) && Built(u, pd, if n == 0 then 1 else n, ts) && |ts| == Tables(n))
  {
    hide Pmap;
    ts := [];
    if n > 1 {
      ts := BuiltAll(v, pd, n - 1);
      var u := MapIdentity(v, pd, n - 1);
      if !u.panicked { ts := BuiltStep(u, pd, n - 1, ts); }
    }
  }

  lemma BuiltBlank(a: World, pd: nat)
    requires Chain(a) && Taken(a, pd) && At(a, pd) == Blank()
    ensures Built(NewSpace(a, pd), pd, 1, [])
  {
    hide Chain;
    var v := NewSpace(a, pd);
    ChainRecorded(a, pd);
    forall j0: Index {:trigger DirAt(v, pd, [], j0)} ensures DirAt(v, pd, [], j0) {}
  }

  lemma ChainRecorded(a: World, pd: nat)
    requires Chain(a)
    ensures Chain(NewSpace(a, pd))
  {
    var v := NewSpace(a, pd);
    forall k: nat {:trigger Node(v, k)} ensures Node(v, k) { assert Node(a, k); }
  }

  lemma BuiltNew(w: World)
    requires Chain(w) && Available(w) > 0
    ensures var (a, pd) := Alloc(w); Built(NewSpace(a, pd), pd, 1, [])
  {
    hide Alloc;
    AllocChain(w);
    var (a, pd) := Alloc(w);
    BuiltBlank(a, pd);
  }

  /** The constructor for a memory of any size: it takes a frame for the directory and one for each
      4 MB that memory reaches into, and fails exactly if there are fewer. */
  lemma CreateAny(w: World) returns (ts: seq<nat>)
    requires Chain(w) && !w.panicked
    ensures var (u, pd) := Create(w);
      && (u.panicked <==> Available(w) < 1 + Tables(w.limit))
      && (!u.panicked ==> u.limit == w.limit && Available(u) == Available(w) - 1 - Tables(w.limit) && Built(u, pd, w.limit, ts) && |ts| == Tables(w.limit))
  {
    hide Built, MapIdentity;
    ts := [];
    AllocChain(w);
    if Available(w) > 0 {
      BuiltNew(w);
      var (a, pd) := Alloc(w);
      ts := BuiltAll(NewSpace(a, pd), pd, w.limit);
    }
  }

  // ---------------------------------------------------------------- destruction

  /** Whatever is freed changes in its first word only. */
  ghost predicate Words(u: World, v: World) {
    |v.mem| == |u.mem| && forall f: nat, k: Index {:trigger At(v, f)[k]} :: k > 0 ==> At(v, f)[k] == At(u, f)[k]
  }

  lemma WordsTwice(u: World, v: World, w: World)
    requires Words(u, v) && Words(v, w)
    ensures Words(u, w)
  {
    forall f: nat, k: Index {:trigger At(w, f)[k]} | k > 0 ensures At(w, f)[k] == At(u, f)[k] { assert At(w, f)[k] == At(v, f)[k]; }
  }

  /** How often frame p has been freed and not allocated again. */
  function Count(w: World, p: nat): nat {
    multiset(w.free)[p]
  }

  lemma CountPush(s: seq<nat>, f: nat, p: nat)
    ensures multiset(s + [f])[p] == multiset(s)[p] + (if p == f then 1 else 0)
  {
  }

  lemma DropPageFrees(v: World, pd: nat, i0: Index, i1: Index, p: nat)
    ensures var u, x := DropPage(v, pd, i0, i1), Lookup(v, pd, i0, i1);
      Words(v, u) && Count(u, p) == Count(v, p) + (if Present(x) && x.frame == p then 1 else 0)
  {
    hide Lookup;
    CountPush(v.free, Lookup(v, pd, i0, i1).frame, p);
  }

  /** Pages that are still mapped to themselves when the destructor comes to them: the first of a
      table may have been overwritten, when the table was freed as such a page. */
  predicate Whole(v: World, t: nat, i0: nat, limit: nat, first: bool) {
    forall i1: Index {:trigger At(v, t)[i1]} :: i1 > 0 || first ==> At(v, t)[i1] == SelfEntry(i0 * 1024 + i1, limit)
  }

  predicate PassedBy(p: nat, i0: nat, n: nat, limit: nat, first: bool) {
    i0 * 1024 <= p < i0 * 1024 + n && p < limit && (p % 1024 != 0 || first)
  }

  lemma {:induction false} DropRowFrees(v: World, pd: nat, i0: Index, n: nat, t: nat, limit: nat, first: bool, p: nat)
    requires n <= 1024 && i0 > 0 && At(v, pd)[i0] == Word(t, 7) && Whole(v, t, i0, limit, first)
    ensures var u := DropRow(v, pd, i0, n);
      Words(v, u) && Count(u, p) >= Count(v, p) + (if PassedBy(p, i0, n, limit, first) then 1 else 0)
  {
    hide DropPage, Words, Count, Whole, PassedBy;
    if n == 0 {
      NonePassed(v, Pass(v, pd, Todo(i0, 0)), p, i0, limit, first);
    } else {
      var b := DropRow(v, pd, i0, n - 1);
      DropRowFrees(v, pd, i0, n - 1, t, limit, first, p);
      DropPageFrees(b, pd, i0, n - 1, p);
      WordsTwice(v, b, DropRow(v, pd, i0, n));
      if PassedBy(p, i0, n, limit, first) && !PassedBy(p, i0, n - 1, limit, first) {
        StillMapped(v, b, pd, i0, n - 1, t, limit, first, p);
      }
    }
  }

  lemma NonePassed(v: World, u: World, p: nat, i0: Index, limit: nat, first: bool)
    requires u.mem == v.mem && u.free == v.free
    ensures Words(v, u) && Count(u, p) == Count(v, p) && !PassedBy(p, i0, 0, limit, first)
  {
  }

  lemma StillMapped(v: World, b: World, pd: nat, i0: Index, i1: Index, t: nat, limit: nat, first: bool, p: nat)
    requires i0 > 0 && At(v, pd)[i0] == Word(t, 7) && Whole(v, t, i0, limit, first) && Words(v, b) && b == DropRow(v, pd, i0, i1)
    requires PassedBy(p, i0, i1 + 1, limit, first) && !PassedBy(p, i0, i1, limit, first)
    ensures Lookup(b, pd, i0, i1) == Word(p, 3)
  {
    assert p == i0 * 1024 + i1;
    assert At(b, pd)[i0] == At(v, pd)[i0];
    assert At(b, t)[i1] == At(v, t)[i1];
  }

  // ---------------------------------------------------------------- the tables

  /** Frames before number m * 1024 that are freed because they are mapped to themselves outside
      table 0. Frame numbers divisible by 1024 are left out, but for 1024 itself. */
  predicate Again(p: nat, m: nat, limit: nat) {
    1024 <= p < m * 1024 && p < limit && (p % 1024 != 0 || p == 1024)
  }

  function Front(ts: seq<nat>, m: nat): seq<nat> {
    if m < |ts| then ts[..m] else ts
  }

  function Known(ts: seq<nat>, m: nat, limit: nat, p: nat): nat {
    (if p in Front(ts, m) then 1 else 0) + (if Again(p, m, limit) then 1 else 0)
  }

  /** Freeing table 0. */
  lemma DropFirst(u: World, pd: nat, ts: seq<nat>)
    requires Built(u, pd, u.limit, ts)
    ensures var v := DropTables(u, pd, 1);
      && Words(u, v) && v.limit == u.limit && v.free == u.free + Front(ts, 1)
      && forall f: nat {:trigger At(v, f)} :: ts == [] || f != ts[0] ==> At(v, f) == At(u, f)
  {
    assert DirAt(u, pd, ts, 0);
    assert DropTables(u, pd, 1) == DropTable(DropTables(u, pd, 0), pd, 0);
  }

  /** Freeing table m, with what it maps. */
  lemma DropOne(u: World, v: World, pd: nat, ts: seq<nat>, m: Index, p: nat)
    requires Built(u, pd, u.limit, ts) && m > 0 && Words(u, v) && |ts| == Tables(u.limit)
    requires m == 1 && |ts| > 1 ==> At(v, ts[1]) == At(u, ts[1])
    requires Count(v, p) >= Count(u, p) + Known(ts, m, u.limit, p)
    ensures var w := DropTable(v, pd, m);
      && Words(u, w) && (m >= |ts| ==> w.free == v.free) && Count(w, p) >= Count(u, p) + Known(ts, m + 1, u.limit, p)
  {
    hide Built, Chain, DropRow, Count;
    EntryThere(u, v, pd, ts, m);
    if m < |ts| {
      var t := ts[m];
      WholeTable(u, v, pd, ts, m);
      DropRowFrees(v, pd, m, 1024, t, u.limit, m == 1, p);
      var r := DropRow(v, pd, m, 1024);
      var w := DropTable(v, pd, m);
      FreedTable(r, pd, m, t, p);
      WordsTwice(v, r, w);
      WordsTwice(u, v, w);
      assert Front(ts, m + 1) == Front(ts, m) + [t];
      assert Again(p, m + 1, u.limit) ==> Again(p, m, u.limit) || PassedBy(p, m, 1024, u.limit, m == 1);
      NotYetFreed(u, pd, ts, m);
    } else {
      PassedTable(v, pd, m, p);
      WordsTwice(u, v, DropTable(v, pd, m));
      assert Again(p, m + 1, u.limit) ==> Again(p, m, u.limit);
    }
  }

  lemma NotYetFreed(u: World, pd: nat, ts: seq<nat>, m: nat)
    requires Built(u, pd, u.limit, ts) && m < |ts|
    ensures ts[m] !in Front(ts, m)
  {
  }

  lemma EntryThere(u: World, v: World, pd: nat, ts: seq<nat>, m: Index)
    requires Built(u, pd, u.limit, ts) && m > 0 && Words(u, v)
    ensures At(v, pd)[m] == if m < |ts| then Word(ts[m], 7) else ZERO
  {
    assert DirAt(u, pd, ts, m);
    assert At(v, pd)[m] == At(u, pd)[m];
  }

  lemma WholeTable(u: World, v: World, pd: nat, ts: seq<nat>, m: Index)
    requires Built(u, pd, u.limit, ts) && 0 < m < |ts| && Words(u, v)
    requires m == 1 ==> At(v, ts[1]) == At(u, ts[1])
    ensures Whole(v, ts[m], m, u.limit, m == 1)
  {
    assert TableAt(u, pd, u.limit, ts, m);
    forall i1: Index {:trigger At(v, ts[m])[i1]} | i1 > 0 || m == 1
      ensures At(v, ts[m])[i1] == SelfEntry(m * 1024 + i1, u.limit)
    {
      assert At(v, ts[m])[i1] == At(u, ts[m])[i1];
    }
  }

  lemma FreedTable(r: World, pd: nat, m: Index, t: nat, p: nat)
    ensures var w := FreeFrame(Mark(Pass(r, pd, Todo(m + 1, 0)), t, Held), t);
      Words(r, w) && Count(w, p) == Count(r, p) + (if p == t then 1 else 0)
  {
    CountPush(r.free, t, p);
  }

  lemma PassedTable(v: World, pd: nat, m: Index, p: nat)
    requires !Present(At(v, pd)[m])
    ensures var w := DropTable(v, pd, m); Words(v, w) && w.free == v.free && Count(w, p) == Count(v, p)
  {
  }

  lemma {:induction false} DropAll(u: World, pd: nat, ts: seq<nat>, m: nat, p: nat)
    requires Built(u, pd, u.limit, ts) && |ts| == Tables(u.limit) && 0 < m <= 1024
    ensures var v := DropTables(u, pd, m);
      && Words(u, v) && (|ts| <= 1 ==> v.free == u.free + ts) && Count(v, p) >= Count(u, p) + Known(ts, m, u.limit, p)
  {
    hide Built, Chain, DropTable, Words, Known, Count;
    DropFirst(u, pd, ts);
    if m == 1 {
      FirstKnown(u, DropTables(u, pd, 1), ts, p);
    } else {
      DropAll(u, pd, ts, m - 1, p);
      var v := DropTables(u, pd, m - 1);
      SecondWhole(u, v, pd, ts, m - 1);
      DropOne(u, v, pd, ts, m - 1, p);
    }
  }

  lemma SecondWhole(u: World, v: World, pd: nat, ts: seq<nat>, m: nat)
    requires Built(u, pd, u.limit, ts) && 0 < m < 1024 && v == DropTables(u, pd, m)
    ensures m == 1 && |ts| > 1 ==> At(v, ts[1]) == At(u, ts[1])
  {
    DropFirst(u, pd, ts);
  }

  lemma FirstKnown(u: World, v: World, ts: seq<nat>, p: nat)
    requires v.free == u.free + Front(ts, 1)
    ensures Count(v, p) >= Count(u, p) + Known(ts, 1, u.limit, p)
  {
    if |ts| > 0 { CountPush(u.free, ts[0], p); }
  }

  /** The frames of a space: its directory and its tables. */
  predicate Owns(u: World, pd: nat, p: nat) {
    p == pd || exists i0: Index {:trigger At(u, pd)[i0]} :: Present(At(u, pd)[i0]) && At(u, pd)[i0].frame == p
  }

  /** What the destructor does to the number of times p is free. */
  function Gain(u: World, v: World, p: nat): int {
    Count(v, p) - Count(u, p)
  }

  lemma OwnsTables(u: World, pd: nat, ts: seq<nat>, p: nat)
    requires Built(u, pd, u.limit, ts)
    ensures Owns(u, pd, p) <==> p == pd || p in ts
    ensures pd !in ts
  {
    forall i0: Index {:trigger At(u, pd)[i0]} ensures At(u, pd)[i0] == if i0 < |ts| then Word(ts[i0], 7) else ZERO { assert DirAt(u, pd, ts, i0); }
    if p in ts {
      var j :| 0 <= j < |ts| && ts[j] == p;
      assert DirAt(u, pd, ts, j);
    }
    forall j | 0 <= j < |ts| ensures ts[j] != pd { assert TableAt(u, pd, u.limit, ts, j); }
  }

  /** The destructor of a space as the constructor leaves it gives back exactly the frames of the
      space, each once, if and only if memory ends at 4 MB or below. Beyond, frame 1024 and every
      further one, but perhaps some whose number 1024 divides, is freed once more than it should be,
      because it is mapped to itself outside table 0. */
  lemma DestroyFreesOwn(w: World)
    requires Chain(w) && !w.panicked && Available(w) >= 1 + Tables(w.limit)
    ensures var (u, pd) := Create(w);
      var v := Destroy(u, pd);
      && !u.panicked
      && ((forall p: nat {:trigger Gain(u, v, p)} :: Gain(u, v, p) == if Owns(u, pd, p) then 1 else 0) <==> w.limit <= 1024)
      && (w.limit > 1024 ==> Lookup(u, pd, 1, 0) == Word(1024, 3))
      && (forall p: nat {:trigger Gain(u, v, p)} :: Again(p, 1024, w.limit) ==> Gain(u, v, p) >= (if Owns(u, pd, p) then 2 else 1))
  {
    hide Chain, Built, Create, Destroy, DropTables;
    var ts := CreateAny(w);
    var (u, pd) := Create(w);
    var v := Destroy(u, pd);
    forall p: nat {:trigger Gain(u, v, p)}
      ensures Gain(u, v, p) >= (if Owns(u, pd, p) then 1 else 0) + (if Again(p, 1024, u.limit) then 1 else 0)
      ensures |ts| <= 1 ==> Gain(u, v, p) == if Owns(u, pd, p) then 1 else 0
    {
      GainAt(u, pd, ts, p);
    }
    if w.limit > 1024 {
      assert Gain(u, v, 1024) >= (if Owns(u, pd, 1024) then 2 else 1);
      SelfMapped(u, pd, ts);
    }
  }

  lemma SelfMapped(u: World, pd: nat, ts: seq<nat>)
    requires Built(u, pd, u.limit, ts) && |ts| == Tables(u.limit) && u.limit > 1024
    ensures Lookup(u, pd, 1, 0) == Word(1024, 3)
  {
    assert DirAt(u, pd, ts, 1) && TableAt(u, pd, u.limit, ts, 1);
    assert At(u, ts[1])[0] == SelfEntry(1024, u.limit);
  }

  lemma GainAt(u: World, pd: nat, ts: seq<nat>, p: nat)
    requires Built(u, pd, u.limit, ts) && |ts| == Tables(u.limit)
    ensures var v := Destroy(u, pd);
      && Gain(u, v, p) >= (if Owns(u, pd, p) then 1 else 0) + (if Again(p, 1024, u.limit) then 1 else 0)
      && (|ts| <= 1 ==> Gain(u, v, p) == if Owns(u, pd, p) then 1 else 0)
  {
    hide Chain, Built, DropTables, Owns;
    DropAll(u, pd, ts, 1024, p);
    OwnsTables(u, pd, ts, p);
    CountPush(DropTables(u, pd, 1024).free, pd, p);
    FewTables(u, pd, ts);
    if |ts| == 1 { CountPush(u.free, ts[0], p); assert ts == [ts[0]]; }
  }

  lemma FewTables(u: World, pd: nat, ts: seq<nat>)
    requires Built(u, pd, u.limit, ts)
    ensures |ts| <= 1024 && Front(ts, 1024) == ts
  {
  }
}
