/** What the caller sees: the heap as a set of live objects with their payloads, and the
    guarantees of malloc and free in those terms. */
module HeapObjects {
  import opened HeapModel
  import opened HeapSteps

  /** The words of the block at h between its two tags. */
  function Payload(a: seq<int>, h: int): seq<int> {
    if 0 <= h < |a| && h + 1 < Right(a, h) <= |a| then a[h + 1..Right(a, h) - 1] else []
  }

  ghost function Objects(s: Heap): map<int, seq<int>> {
    map h | h in Live(s) :: Payload(s.a, h)
  }

  /** b repeats every word of a's block at g. */
  ghost predicate SameBlock(a: seq<int>, b: seq<int>, g: int) {
    |a| == |b| && 0 <= g < |a| && g + 2 <= Right(a, g) <= |a|
    && forall x {:trigger b[x]} :: g <= x < Right(a, g) ==> b[x] == a[x]
  }

  lemma SameBlockSamePayload(a: seq<int>, b: seq<int>, g: int)
    requires SameBlock(a, b, g)
    ensures Payload(b, g) == Payload(a, g) && b[g] == a[g]
  {
    assert b[g] == a[g];
    forall i | 0 <= i < |Payload(a, g)|
      ensures Payload(b, g)[i] == Payload(a, g)[i]
    {
      assert b[g + 1 + i] == a[g + 1 + i];
    }
  }

  lemma SameBlockTransitive(a: seq<int>, b: seq<int>, c: seq<int>, g: int)
    requires SameBlock(a, b, g) && SameBlock(b, c, g)
    ensures SameBlock(a, c, g)
  {
    assert b[g] == a[g];
  }

  lemma DropSameBlock(s: Heap, except: set<int>, k: int, g: int)
    requires Threaded(s, except) && 0 <= k < |s.free| && g in s.headers && g !in s.free
    ensures SameBlock(s.a, DropAt(s, k).a, g)
  {
    assert Cell(s.a, s.headers, g);
    if 0 < k { NotInside(s, except, s.free[k - 1], 1, g); }
    if k + 1 < |s.free| { NotInside(s, except, s.free[k + 1], 2, g); }
  }

  /** A link word of a listed block is no word of an unlisted block. */
  lemma NotInside(s: Heap, except: set<int>, f: int, d: int, g: int)
    requires Threaded(s, except) && f in s.free && g in s.headers && g !in s.free && 1 <= d <= 2
    ensures 0 <= g < |s.a| && !(g <= f + d < Right(s.a, g))
  {
    ListedIsFree(s, except, f);
    assert Cell(s.a, s.headers, g);
    BlocksDisjoint(s.a, s.headers, f, g, f + d);
  }

  lemma InsertSameBlock(s: Heap, q: int, g: int)
    requires Threaded(s, {q}) && q in s.headers && Cell(s.a, s.headers, q) && 4 <= s.a[q] && 0 < q
    requires g in s.headers && g !in s.free && g != q
    ensures SameBlock(s.a, Insert(s, q).a, g)
  {
    assert Cell(s.a, s.headers, g);
    if s.free != [] { NotInside(s, {q}, s.free[0], 2, g); }
    BlocksDisjoint(s.a, s.headers, q, g, q + 1);
    BlocksDisjoint(s.a, s.headers, q, g, q + 2);
  }

  lemma OutsideSameBlock(a: seq<int>, b: seq<int>, hs: set<int>, lo: int, hi: int, g: int)
    requires Tiled(a, hs) && lo in hs && hi in hs && g in hs && !(lo <= g < hi)
    requires EqualOutside(a, b, lo, hi)
    ensures SameBlock(a, b, g)
  {
    assert Cell(a, hs, g);
    assert g < lo ==> Apart(a, g, lo);
  }

  // ---------------------------------------------------------------- malloc

  lemma CutInsertFrame(t: Heap, p: int, n: int, g: int)
    requires Pending(t, p) && 4 <= n && n + 4 <= t.a[p] && g in t.headers && g != p && g !in t.free
    ensures p + n + 4 <= |t.a| && Spaced(|t.a|, t.free)
    ensures SameBlock(t.a, Insert(CutHeap(t, p, n, t.a[p]), p + n).a, g)
  {
    var c := CutHeap(t, p, n, t.a[p]);
    CutKeepsThreaded(t, p, n);
    SplitOwnCells(t.a, t.headers, p, n);
    if p < g { assert Apart(t.a, p, g); }
    OutsideSameBlock(t.a, c.a, t.headers, p, Right(t.a, p), g);
    InsertSameBlock(c, p + n, g);
    SameBlockTransitive(t.a, c.a, Insert(c, p + n).a, g);
  }

  lemma TakeFrame(s: Heap, k: int, n: int, g: int)
    requires Valid(s) && 0 <= k < |s.free| && 4 <= n <= Size(s.a, s.free[k]) && g in s.headers && g !in s.free
    ensures SameBlock(s.a, Take(s, k, n).a, g)
  {
    var p, t := s.free[k], DropAt(s, k);
    TakeCases(s, k, n);
    DropSameBlock(s, {}, k, g);
    WithoutMembers(|s.a|, s.free, k, g);
    if t.a[p] - n >= 4 {
      CutInsertFrame(t, p, n, g);
    } else {
      var j := Join(t, p, Right(t.a, p), -t.a[p]);
      if p < g { assert Apart(t.a, p, g); }
      OutsideSameBlock(t.a, j.a, t.headers, p, Right(t.a, p), g);
    }
    SameBlockTransitive(s.a, t.a, Take(s, k, n).a, g);
  }

  /** What a block start of the new heap is: the taken block, the free rest, or an old block
      with its old tag. */
  ghost predicate TakenBlock(s: Heap, t: Heap, p: int, n: int, h: int) {
    0 <= h < |t.a| && |t.a| == |s.a| &&
    if h == p then n <= -t.a[h] <= n + 3 && s.a[h] > 0
    else if h in s.headers then t.a[h] == s.a[h]
    else h == p + n && t.a[h] > 0
  }

  lemma InsertTag(c: Heap, q: int, h: int)
    requires Threaded(c, {q}) && q in c.headers && Cell(c.a, c.headers, q) && 4 <= c.a[q] && 0 < q
    requires h in c.headers
    ensures 0 <= h < |c.a| && Insert(c, q).a[h] == c.a[h]
  {
    InsertTags(c, q);
    assert SameTag(c.a, Insert(c, q).a, h);
  }

  lemma CutInsertTag(t: Heap, p: int, n: int, h: int)
    requires Pending(t, p) && 4 <= n && n + 4 <= t.a[p] && h in t.headers + {p + n}
    ensures p + n + 4 <= |t.a| && Spaced(|t.a|, t.free) && 0 <= h < |t.a| && p + n !in t.headers
    ensures Insert(CutHeap(t, p, n, t.a[p]), p + n).a[h] ==
            if h == p then -n else if h == p + n then t.a[p] - n else t.a[h]
  {
    var c := CutHeap(t, p, n, t.a[p]);
    CutKeepsThreaded(t, p, n);
    SplitOwnCells(t.a, t.headers, p, n);
    InsertTag(c, p + n, h);
    assert p + n in t.headers ==> Apart(t.a, p, p + n);
    if h in t.headers && h != p {
      assert Cell(t.a, t.headers, h);
      BlocksDisjoint(t.a, t.headers, h, p, h);
    }
  }

  lemma TakeTags(s: Heap, k: int, n: int, h: int)
    requires Valid(s) && 0 <= k < |s.free| && 4 <= n <= Size(s.a, s.free[k]) && h in Take(s, k, n).headers
    ensures TakenBlock(s, Take(s, k, n), s.free[k], n, h)
    ensures s.headers <= Take(s, k, n).headers
  {
    var p, t := s.free[k], DropAt(s, k);
    TakeCases(s, k, n);
    ListedIsFree(s, {}, p);
    DropTags(s, {}, k);
    assert h in s.headers ==> SameTag(s.a, t.a, h);
    if t.a[p] - n >= 4 {
      CutInsertTag(t, p, n, h);
    } else {
      WholeTag(t, p, h);
    }
  }

  lemma WholeTag(t: Heap, p: int, h: int)
    requires Pending(t, p)
    ensures Join(t, p, Right(t.a, p), -t.a[p]).headers == t.headers
    ensures h in t.headers ==> 0 <= h < |t.a| && Join(t, p, Right(t.a, p), -t.a[p]).a[h] == if h == p then -t.a[p] else t.a[h]
  {
    var ks := Merged(t.headers, p, Right(t.a, p));
    forall g | g in t.headers
      ensures g in ks
    {
      assert p < g ==> Apart(t.a, p, g);
    }
    if h in t.headers && h != p {
      assert Cell(t.a, t.headers, h);
      BlocksDisjoint(t.a, t.headers, h, p, h);
    }
  }

  lemma TakeLive(s: Heap, k: int, n: int)
    requires Valid(s) && 0 <= k < |s.free| && 4 <= n <= Size(s.a, s.free[k])
    ensures Live(Take(s, k, n)) == Live(s) + {s.free[k]} && s.free[k] !in Live(s)
  {
    var p, t := s.free[k], Take(s, k, n);
    ListedIsFree(s, {}, p);
    TakeTags(s, k, n, p);
    forall h {:trigger h in Live(t)} {:trigger h in Live(s)}
      ensures h in Live(t) <==> h in Live(s) + {p}
    {
      if h in t.headers { TakeTags(s, k, n, h); }
    }
  }

  /** malloc hands out one new object of the requested size, at most three words larger, and
      changes no other object. */
  lemma TakeObjects(s: Heap, k: int, n: int)
    requires Valid(s) && 0 <= k < |s.free| && 4 <= n <= Size(s.a, s.free[k])
    ensures Valid(Take(s, k, n)) && s.free[k] !in Objects(s)
    ensures var p := s.free[k]; var handed := Payload(Take(s, k, n).a, p);
            n - 2 <= |handed| <= n + 1 && Objects(Take(s, k, n)) == Objects(s)[p := handed]
  {
    var p, t := s.free[k], Take(s, k, n);
    TakeKeepsValid(s, k, n);
    TakeLive(s, k, n);
    TakeTags(s, k, n, p);
    assert Cell(t.a, t.headers, p);
    forall h | h in Live(s)
      ensures Payload(t.a, h) == Payload(s.a, h)
    {
      LiveBlock(s, h);
      assert Sorted(s.a, s.free, {}, h);
      TakeFrame(s, k, n, h);
      SameBlockSamePayload(s.a, t.a, h);
    }
    assert Objects(t).Keys == Objects(s)[p := Payload(t.a, p)].Keys;
  }

  // ---------------------------------------------------------------- free

  lemma UnlistSameBlock(s: Heap, except: set<int>, x: int, g: int)
    requires Threaded(s, except) && x in s.headers && x !in except && g in s.headers && g !in s.free
    ensures 0 <= x < |s.a| && (s.a[x] > 0 ==> x in s.free)
    ensures SameBlock(s.a, Unlist(s, x).a, g) && g !in Unlist(s, x).free
  {
    UnlistKeepsThreaded(s, except, x);
    assert Cell(s.a, s.headers, g);
    if s.a[x] > 0 {
      DropSameBlock(s, except, Position(s.free, x), g);
      WithoutMembers(|s.a|, s.free, Position(s.free, x), g);
    }
  }

  lemma UnlistedSameBlock(s: Heap, h: int, g: int)
    requires Valid(s) && h in Live(s) && g in s.headers && g !in s.free
    ensures SameBlock(s.a, Unlisted(s, h).a, g) && g !in Unlisted(s, h).free
  {
    LiveBlock(s, h);
    var l, r := Left(s.a, h), Right(s.a, h);
    UnlistKeepsThreaded(s, {}, l);
    UnlistSameBlock(s, {}, l, g);
    var u := Unlist(s, l);
    assert SameTag(s.a, u.a, r);
    UnlistKeepsThreaded(u, {} + IfFree(s.a, l), r);
    UnlistSameBlock(u, {} + IfFree(s.a, l), r, g);
    SameBlockTransitive(s.a, u.a, Unlist(u, r).a, g);
  }

  lemma JoinInsertFrame(t: Heap, except: set<int>, lo: int, hi: int, g: int)
    requires ReadyToJoin(t, except, lo, hi) && g in t.headers && g !in t.free && !(lo <= g < hi)
    ensures SameBlock(t.a, JoinInsert(t, lo, hi).a, g)
  {
    var j := Join(t, lo, hi, hi - lo);
    JoinKeepsThreaded(t, except, lo, hi, hi - lo);
    JoinCell(t.a, t.headers, lo, hi, hi - lo, lo);
    OutsideSameBlock(t.a, j.a, t.headers, lo, hi, g);
    InsertSameBlock(j, lo, g);
    SameBlockTransitive(t.a, j.a, JoinInsert(t, lo, hi).a, g);
  }

  lemma JoinInsertTag(t: Heap, except: set<int>, lo: int, hi: int)
    requires ReadyToJoin(t, except, lo, hi)
    ensures JoinInsert(t, lo, hi).a[lo] == hi - lo
  {
    var j := Join(t, lo, hi, hi - lo);
    JoinKeepsThreaded(t, except, lo, hi, hi - lo);
    JoinCell(t.a, t.headers, lo, hi, hi - lo, lo);
    InsertTag(j, lo, lo);
  }

  /** A live block other than h lies outside the freed span and keeps every word. */
  lemma ReleaseFrame(s: Heap, h: int, g: int)
    requires Valid(s) && h in Live(s) && g in s.headers && g != h && 0 <= g < |s.a| && s.a[g] < 0
    ensures SameBlock(s.a, Release(s, h).a, g) && g in Release(s, h).headers
  {
    var t := Unlisted(s, h);
    UnlistedReady(s, h);
    assert Sorted(s.a, s.free, {}, g);
    UnlistedSameBlock(s, h, g);
    SpanHeaders(s, h, g);
    JoinInsertFrame(t, Neighbours(s, h), Lo(s.a, h), Hi(s.a, h), g);
    SameBlockTransitive(s.a, t.a, Release(s, h).a, g);
  }

  lemma ReleaseLive(s: Heap, h: int)
    requires Valid(s) && h in Live(s)
    ensures Live(Release(s, h)) == Live(s) - {h}
  {
    var t := Release(s, h);
    UnlistedReady(s, h);
    FreedSpan(s, h);
    JoinInsertTag(Unlisted(s, h), Neighbours(s, h), Lo(s.a, h), Hi(s.a, h));
    forall g | g in Live(t)
      ensures g in Live(s) && g != h
    {
      StillFree(s, h, g);
    }
    forall g | g in Live(s) && g != h
      ensures g in Live(t)
    {
      ReleaseFrame(s, h, g);
    }
  }

  /** Whatever is taken after the free was taken before it. */
  lemma StillFree(s: Heap, h: int, g: int)
    requires Valid(s) && h in Live(s) && g in Release(s, h).headers && 0 <= g < |s.a| && Release(s, h).a[g] < 0
    ensures g in s.headers && g != h && s.a[g] < 0
  {
    var t := Unlisted(s, h);
    UnlistedReady(s, h);
    UnlistedThreaded(s, h);
    var lo, hi := Lo(s.a, h), Hi(s.a, h);
    var j := Join(t, lo, hi, hi - lo);
    JoinKeepsThreaded(t, Neighbours(s, h), lo, hi, hi - lo);
    JoinCell(t.a, t.headers, lo, hi, hi - lo, lo);
    InsertTag(j, lo, g);
    assert SameTag(s.a, t.a, g);
  }

  /** free takes exactly one object away and changes no other. */
  lemma ReleaseObjects(s: Heap, h: int)
    requires Valid(s) && h in Objects(s)
    ensures Valid(Release(s, h)) && Objects(Release(s, h)) == Objects(s) - {h}
  {
    var t := Release(s, h);
    ReleaseKeepsValid(s, h);
    ReleaseLive(s, h);
    forall g | g in Live(s) && g != h
      ensures Payload(t.a, g) == Payload(s.a, g)
    {
      ReleaseFrame(s, h, g);
      SameBlockSamePayload(s.a, t.a, g);
    }
  }

  // ---------------------------------------------------------------- writing into a payload

  function Store(s: Heap, x: int, v: int): Heap
    requires 0 <= x < |s.a|
  {
    s.(a := s.a[x := v])
  }

  lemma StoreKeepsLinked(s: Heap, h: int, x: int, v: int)
    requires Valid(s) && h in Live(s) && h < x < Right(s.a, h) - 1 && x < |s.a|
    ensures Linked(Store(s, x, v).a, s.free)
  {
    LiveBlock(s, h);
    assert Sorted(s.a, s.free, {}, h);
    forall i {:trigger LinkedAt(Store(s, x, v).a, s.free, i)} | 0 <= i < |s.free|
      ensures LinkedAt(Store(s, x, v).a, s.free, i)
    {
      assert LinkedAt(s.a, s.free, i);
      assert s.free[i] in s.free;
      NotInside(s, {}, s.free[i], 1, h);
      NotInside(s, {}, s.free[i], 2, h);
    }
  }

  /** A write inside a live payload is invisible to the allocator and to every other object. */
  lemma StoreObjects(s: Heap, h: int, d: int, v: int)
    requires Valid(s) && h in Objects(s) && 0 <= d < |Objects(s)[h]|
    ensures 0 <= h + 1 + d < |s.a| && Valid(Store(s, h + 1 + d, v))
    ensures Objects(Store(s, h + 1 + d, v)) == Objects(s)[h := Objects(s)[h][d := v]]
  {
    LiveBlock(s, h);
    var x := h + 1 + d;
    var t := Store(s, x, v);
    forall g {:trigger SameTag(s.a, t.a, g)} | g in s.headers
      ensures SameTag(s.a, t.a, g)
    {
      assert Cell(s.a, s.headers, g);
      if g != h { BlocksDisjoint(s.a, s.headers, h, g, x); }
    }
    SameTagsKeepTiled(s.a, t.a, s.headers);
    SameTagsKeepCovers(s.a, t.a, s.headers, s.free, {});
    SameTagsKeepCoalesced(s.a, t.a, s.headers);
    StoreKeepsLinked(s, h, x, v);
    StorePayloads(s, h, d, v);
  }

  lemma StorePayload(s: Heap, h: int, x: int, v: int, g: int)
    requires Tiled(s.a, s.headers) && h in s.headers && g in s.headers && 0 <= h < x < |s.a| && x < Right(s.a, h) - 1
    ensures 0 <= g < |s.a| && Store(s, x, v).a[g] == s.a[g] && x - h - 1 < |Payload(s.a, h)|
    ensures Payload(Store(s, x, v).a, g) == if g == h then Payload(s.a, g)[x - h - 1 := v] else Payload(s.a, g)
  {
    assert Cell(s.a, s.headers, g) && Cell(s.a, s.headers, h);
    if g != h {
      BlocksDisjoint(s.a, s.headers, h, g, x);
      assert SameBlock(s.a, Store(s, x, v).a, g);
      SameBlockSamePayload(s.a, Store(s, x, v).a, g);
    }
  }

  lemma StorePayloads(s: Heap, h: int, d: int, v: int)
    requires Valid(s) && h in Objects(s) && 0 <= d < |Objects(s)[h]| && h + 1 + d < |s.a| && 0 <= h
    ensures Objects(Store(s, h + 1 + d, v)) == Objects(s)[h := Objects(s)[h][d := v]]
  {
    var x := h + 1 + d;
    var t := Store(s, x, v);
    forall g {:trigger Payload(t.a, g)} | g in s.headers
      ensures 0 <= g < |s.a| && t.a[g] == s.a[g]
      ensures Payload(t.a, g) == if g == h then Payload(s.a, g)[d := v] else Payload(s.a, g)
    {
      StorePayload(s, h, x, v, g);
    }
    assert Live(t) == Live(s) by {
      forall g {:trigger g in Live(t)} {:trigger g in Live(s)}
        ensures g in Live(t) <==> g in Live(s)
      {
        if g in s.headers { StorePayload(s, h, x, v, g); }
      }
    }
  }
}
