/** What one malloc, one free and one write into a payload do to the heap, and why the
    invariant survives each of them. */
module HeapSteps {
  import opened HeapModel

  // ---------------------------------------------------------------- link words and tags

  /** A link word of a block of four words or more is nobody's tag. */
  lemma LinkIsNoTag(a: seq<int>, hs: set<int>, g: int, d: int, h: int)
    requires Tiled(a, hs) && g in hs && h in hs && 1 <= d <= 2
    requires Cell(a, hs, g) && Cell(a, hs, h) && 4 <= Size(a, g)
    ensures h != g + d && Right(a, h) - 1 != g + d
  {
    if g != h { BlocksDisjoint(a, hs, g, h, g + d); }
  }

  ghost predicate LinkHolder(a: seq<int>, hs: set<int>, g: int) {
    g in hs && Cell(a, hs, g) && 4 <= Size(a, g)
  }

  lemma UnlinkSameTag(a: seq<int>, hs: set<int>, f: seq<int>, k: int, h: int)
    requires Tiled(a, hs) && Spaced(|a|, f) && 0 <= k < |f| && h in hs && Cell(a, hs, h)
    requires 0 < k ==> LinkHolder(a, hs, f[k - 1])
    requires k + 1 < |f| ==> LinkHolder(a, hs, f[k + 1])
    ensures SameTag(a, Unlink(a, f, k), h)
  {
    if 0 < k { LinkIsNoTag(a, hs, f[k - 1], 1, h); }
    if k + 1 < |f| { LinkIsNoTag(a, hs, f[k + 1], 2, h); }
  }

  lemma PushSameTag(a: seq<int>, hs: set<int>, f: seq<int>, q: int, h: int)
    requires Tiled(a, hs) && Spaced(|a|, f) && h in hs && Cell(a, hs, h)
    requires LinkHolder(a, hs, q) && 0 < q
    requires f != [] ==> LinkHolder(a, hs, f[0])
    ensures SameTag(a, Push(a, f, q), h)
  {
    LinkIsNoTag(a, hs, q, 1, h);
    LinkIsNoTag(a, hs, q, 2, h);
    if f != [] { LinkIsNoTag(a, hs, f[0], 2, h); }
  }

  /** Every listed block is a free block of at least four words. */
  lemma ListedIsFree(s: Heap, except: set<int>, h: int)
    requires Threaded(s, except) && h in s.free
    ensures h in s.headers && Cell(s.a, s.headers, h) && 4 <= s.a[h] && 0 < h && Right(s.a, h) <= |s.a| - 2
  {
    assert Cell(s.a, s.headers, h) && Sorted(s.a, s.free, except, h);
    assert Cell(s.a, s.headers, |s.a| - 2);
    assert h < |s.a| - 2 ==> Apart(s.a, h, |s.a| - 2);
  }

  lemma SameTagsKeepCovers(a: seq<int>, b: seq<int>, hs: set<int>, f: seq<int>, except: set<int>)
    requires Tiled(a, hs) && SameTags(a, b, hs) && Covers(a, hs, f, except)
    ensures Covers(b, hs, f, except)
  {
    forall h {:trigger Sorted(b, f, except, h)} | h in hs
      ensures Sorted(b, f, except, h)
    {
      assert Sorted(a, f, except, h);
      SameTagsKeepCell(a, b, hs, h);
    }
  }

  lemma SameTagsKeepCoalesced(a: seq<int>, b: seq<int>, hs: set<int>)
    requires Tiled(a, hs) && SameTags(a, b, hs) && Coalesced(a, hs)
    ensures Coalesced(b, hs)
  {
    forall h {:trigger Fenced(b, h)} | h in hs
      ensures Fenced(b, h)
    {
      assert Fenced(a, h);
      SameTagsKeepCell(a, b, hs, h);
      if a[h] > 0 { SameTagsKeepCell(a, b, hs, Right(a, h)); }
    }
  }

  // ---------------------------------------------------------------- off the list, on the list

  ghost function DropAt(s: Heap, k: int): Heap
    requires 0 <= k < |s.free| && Spaced(|s.a|, s.free)
  {
    Heap(Unlink(s.a, s.free, k), s.headers, WithoutAt(s.free, k))
  }

  ghost function Insert(s: Heap, q: int): (t: Heap)
    requires 0 < q && q + 4 <= |s.a| && Spaced(|s.a|, s.free)
    ensures |t.a| == |s.a|
  {
    Heap(Push(s.a, s.free, q), s.headers, [q] + s.free)
  }

  lemma DropTags(s: Heap, except: set<int>, k: int)
    requires Threaded(s, except) && 0 <= k < |s.free|
    ensures SameTags(s.a, DropAt(s, k).a, s.headers)
  {
    var b := Unlink(s.a, s.free, k);
    if 0 < k { ListedIsFree(s, except, s.free[k - 1]); }
    if k + 1 < |s.free| { ListedIsFree(s, except, s.free[k + 1]); }
    forall h {:trigger SameTag(s.a, b, h)} | h in s.headers
      ensures SameTag(s.a, b, h)
    {
      assert Cell(s.a, s.headers, h);
      UnlinkSameTag(s.a, s.headers, s.free, k, h);
    }
  }

  lemma WithoutMembers(n: int, f: seq<int>, k: int, h: int)
    requires Spaced(n, f) && 0 <= k < |f|
    ensures h in WithoutAt(f, k) <==> h in f && h != f[k]
  {
    var g := WithoutAt(f, k);
    if h in f && h != f[k] {
      var i :| 0 <= i < |f| && f[i] == h;
      assert g[if i < k then i else i - 1] == h;
    }
    if h in g {
      var i :| 0 <= i < |g| && g[i] == h;
      assert f[Skip(k, i)] == h;
    }
  }

  /** Removing the k-th node keeps the tiling and loses exactly that node from the list. */
  lemma DropKeepsThreaded(s: Heap, except: set<int>, k: int)
    requires Threaded(s, except) && 0 <= k < |s.free|
    ensures Threaded(DropAt(s, k), except + {s.free[k]})
    ensures SameTags(s.a, DropAt(s, k).a, s.headers)
    ensures Coalesced(s.a, s.headers) ==> Coalesced(DropAt(s, k).a, s.headers)
  {
    var t := DropAt(s, k);
    DropTags(s, except, k);
    SameTagsKeepTiled(s.a, t.a, s.headers);
    SameTagsKeepCovers(s.a, t.a, s.headers, s.free, except);
    UnlinkKeepsLinked(s.a, s.free, k);
    if Coalesced(s.a, s.headers) { SameTagsKeepCoalesced(s.a, t.a, s.headers); }
    DropCovers(s, except, k);
  }

  lemma DropCovers(s: Heap, except: set<int>, k: int)
    requires Spaced(|s.a|, s.free) && 0 <= k < |s.free|
    requires Covers(DropAt(s, k).a, s.headers, s.free, except)
    ensures Covers(DropAt(s, k).a, s.headers, DropAt(s, k).free, except + {s.free[k]})
  {
    var b, g := DropAt(s, k).a, DropAt(s, k).free;
    forall h {:trigger h in g} | h in g
      ensures h in s.headers
    {
      WithoutMembers(|s.a|, s.free, k, h);
    }
    forall h {:trigger Sorted(b, g, except + {s.free[k]}, h)} | h in s.headers
      ensures Sorted(b, g, except + {s.free[k]}, h)
    {
      assert Sorted(b, s.free, except, h);
      WithoutMembers(|s.a|, s.free, k, h);
    }
  }

  /** No node of f has a word in lo..hi. */
  ghost predicate Clear(f: seq<int>, lo: int, hi: int) {
    forall i {:trigger f[i]} :: 0 <= i < |f| ==> f[i] + 4 <= lo || hi <= f[i]
  }

  lemma InsertTags(s: Heap, q: int)
    requires Threaded(s, {q}) && q in s.headers && 0 < q && q + 4 <= |s.a| && s.a[q] > 0
    ensures SameTags(s.a, Insert(s, q).a, s.headers)
  {
    var b := Push(s.a, s.free, q);
    assert Cell(s.a, s.headers, q);
    if s.free != [] { ListedIsFree(s, {q}, s.free[0]); }
    forall h {:trigger SameTag(s.a, b, h)} | h in s.headers
      ensures SameTag(s.a, b, h)
    {
      assert Cell(s.a, s.headers, h);
      PushSameTag(s.a, s.headers, s.free, q, h);
    }
  }

  /** Listing the one free block that the list misses completes the list. */
  lemma InsertKeepsThreaded(s: Heap, q: int)
    requires Threaded(s, {q}) && q in s.headers && Cell(s.a, s.headers, q) && s.a[q] > 0 && 0 < q
    requires Clear(s.free, q, Right(s.a, q))
    ensures q + 4 <= |s.a|
    ensures Threaded(Insert(s, q), {})
    ensures SameTags(s.a, Insert(s, q).a, s.headers)
    ensures Coalesced(s.a, s.headers) ==> Coalesced(Insert(s, q).a, s.headers)
  {
    var t := Insert(s, q);
    InsertTags(s, q);
    SameTagsKeepTiled(s.a, t.a, s.headers);
    PushKeepsLinked(s.a, s.free, q);
    if Coalesced(s.a, s.headers) { SameTagsKeepCoalesced(s.a, t.a, s.headers); }
    InsertCovers(s, q);
  }

  lemma InsertCovers(s: Heap, q: int)
    requires Threaded(s, {q}) && q in s.headers && 0 < q && q + 4 <= |s.a| && s.a[q] > 0
    requires SameTags(s.a, Insert(s, q).a, s.headers)
    ensures Covers(Insert(s, q).a, s.headers, [q] + s.free, {})
  {
    var b, g := Insert(s, q).a, [q] + s.free;
    forall h {:trigger Sorted(b, g, {}, h)} | h in s.headers
      ensures Sorted(b, g, {}, h)
    {
      assert Sorted(s.a, s.free, {q}, h);
      SameTagsKeepCell(s.a, b, s.headers, h);
    }
  }

  // ---------------------------------------------------------------- retagging

  ghost predicate EqualOutside(a: seq<int>, b: seq<int>, lo: int, hi: int) {
    |a| == |b| && forall x {:trigger b[x]} :: 0 <= x < |a| && !(lo <= x < hi) ==> b[x] == a[x]
  }

  lemma OutsideKeepsLinked(a: seq<int>, b: seq<int>, f: seq<int>, lo: int, hi: int)
    requires Linked(a, f) && EqualOutside(a, b, lo, hi) && Clear(f, lo, hi)
    ensures Linked(b, f)
  {
    forall i {:trigger LinkedAt(b, f, i)} | 0 <= i < |f|
      ensures LinkedAt(b, f, i)
    {
      assert LinkedAt(a, f, i);
    }
  }

  /** A stretch of whole blocks none of which is listed is clear of the list. */
  lemma UnlistedIsClear(s: Heap, except: set<int>, lo: int, hi: int)
    requires Threaded(s, except) && lo in s.headers && hi in s.headers
    requires forall h {:trigger h in s.free} :: h in s.free ==> !(lo <= h < hi)
    ensures Clear(s.free, lo, hi)
  {
    forall i {:trigger s.free[i]} | 0 <= i < |s.free|
      ensures s.free[i] + 4 <= lo || hi <= s.free[i]
    {
      var h := s.free[i];
      assert h in s.free;
      ListedIsFree(s, except, h);
      assert h < lo ==> Apart(s.a, h, lo);
    }
  }

  /** The unlisted blocks from lo to hi become one block of size |v|, free iff v > 0. */
  ghost function Join(s: Heap, lo: int, hi: int, v: int): Heap
    requires 0 <= lo < hi <= |s.a|
  {
    Heap(Tag(s.a, lo, hi - lo, v), Merged(s.headers, lo, hi), s.free)
  }

  lemma JoinKeepsThreaded(s: Heap, except: set<int>, lo: int, hi: int, v: int)
    requires Threaded(s, except) && lo in s.headers && hi in s.headers
    requires 0 < lo && lo + 4 <= hi <= |s.a| - 2 && Abs(v) == hi - lo
    requires forall h {:trigger h in s.free} :: h in s.free ==> !(lo <= h < hi)
    requires forall h {:trigger h in except} :: h in except ==> lo <= h < hi
    ensures Threaded(Join(s, lo, hi, v), if v > 0 then {lo} else {})
    ensures Clear(s.free, lo, hi)
  {
    var b, ks := Tag(s.a, lo, hi - lo, v), Merged(s.headers, lo, hi);
    JoinKeepsTiled(s.a, s.headers, lo, hi, v);
    UnlistedIsClear(s, except, lo, hi);
    OutsideKeepsLinked(s.a, b, s.free, lo, hi);
    var left := if v > 0 then {lo} else {};
    forall h {:trigger Sorted(b, s.free, left, h)} | h in ks
      ensures Sorted(b, s.free, left, h)
    {
      assert Cell(s.a, s.headers, h) && Sorted(s.a, s.free, except, h);
    }
  }

  lemma JoinKeepsCoalesced(a: seq<int>, hs: set<int>, lo: int, hi: int, v: int)
    requires Tiled(a, hs) && Coalesced(a, hs) && lo in hs && hi in hs && 0 < lo && lo + 4 <= hi <= |a| - 2
    requires Abs(v) == hi - lo && a[hi] < 0
    requires Left(a, lo) in hs && 0 <= Left(a, lo) && (v > 0 ==> a[Left(a, lo)] < 0)
    ensures Coalesced(Tag(a, lo, hi - lo, v), Merged(hs, lo, hi))
  {
    var b, ks := Tag(a, lo, hi - lo, v), Merged(hs, lo, hi);
    JoinKeepsTiled(a, hs, lo, hi, v);
    forall h {:trigger Fenced(b, h)} | h in ks
      ensures Fenced(b, h)
    {
      JoinCoalescedAt(a, hs, lo, hi, v, h);
    }
  }

  lemma JoinCoalescedAt(a: seq<int>, hs: set<int>, lo: int, hi: int, v: int, h: int)
    requires Tiled(a, hs) && Coalesced(a, hs) && lo in hs && hi in hs && 0 < lo && lo + 4 <= hi <= |a| - 2
    requires Abs(v) == hi - lo && a[hi] < 0
    requires Left(a, lo) in hs && 0 <= Left(a, lo) && (v > 0 ==> a[Left(a, lo)] < 0)
    requires h in Merged(hs, lo, hi)
    ensures Fenced(Tag(a, lo, hi - lo, v), h)
  {
    assert Cell(a, hs, h) && Cell(a, hs, lo) && Fenced(a, h) && Fenced(a, lo);
    if h < lo {
      assert Apart(a, h, lo);
    }
  }

  // ---------------------------------------------------------------- malloc

  /** The first position from k on whose block has at least n words; |f| if there is none. */
  ghost function FirstFit(a: seq<int>, f: seq<int>, n: int, k: nat): (r: nat)
    requires k <= |f|
    requires forall i {:trigger f[i]} :: 0 <= i < |f| ==> 0 <= f[i] < |a|
    ensures k <= r <= |f|
    ensures r < |f| ==> n <= Size(a, f[r])
    ensures forall i {:trigger f[i]} :: k <= i < r ==> Size(a, f[i]) < n
    decreases |f| - k
  {
    if k == |f| || n <= Size(a, f[k]) then k else FirstFit(a, f, n, k + 1)
  }

  /** The k-th free block is taken; a rest of four words or more is cut off and becomes the
      new head of the list. */
  ghost function Take(s: Heap, k: int, n: int): (t: Heap)
    requires Valid(s) && 0 <= k < |s.free| && 4 <= n <= Size(s.a, s.free[k])
    ensures |t.a| == |s.a|
  {
    var p := s.free[k];
    ListedIsFree(s, {}, p);
    WithoutSpaced(|s.a|, s.free, k);
    var sz: int := Size(s.a, p);
    var t := DropAt(s, k);
    if sz - n >= 4 then Insert(CutHeap(t, p, n, sz), p + n) else Join(t, p, p + sz, -sz)
  }

  ghost function CutHeap(s: Heap, p: int, n: int, sz: int): Heap
    requires 0 <= p && 0 < n < sz && p + sz <= |s.a|
  {
    Heap(Cut(s.a, p, n, sz), s.headers + {p + n}, s.free)
  }

  lemma CutKeepsThreaded(s: Heap, p: int, n: int)
    requires Threaded(s, {p}) && p in s.headers && Cell(s.a, s.headers, p) && Right(s.a, p) in s.headers
    requires s.a[p] > 0 && 4 <= n && n + 4 <= s.a[p]
    ensures Threaded(CutHeap(s, p, n, s.a[p]), {p + n})
    ensures Clear(s.free, p + n, Right(s.a, p))
  {
    var b, ks := Cut(s.a, p, n, s.a[p]), s.headers + {p + n};
    SplitKeepsTiled(s.a, s.headers, p, n);
    assert Sorted(s.a, s.free, {p}, p);
    BlockUnlisted(s, {p}, p);
    UnlistedIsClear(s, {p}, p, Right(s.a, p));
    OutsideKeepsLinked(s.a, b, s.free, p, Right(s.a, p));
    forall h {:trigger Sorted(b, s.free, {p + n}, h)} | h in ks
      ensures Sorted(b, s.free, {p + n}, h)
    {
      assert h in s.headers ==> Cell(s.a, s.headers, h) && Sorted(s.a, s.free, {p}, h);
      if h in s.headers && h != p { BlocksDisjoint(s.a, s.headers, h, p, h); }
    }
  }

  /** If the block at p is not listed, no listed block starts inside it. */
  lemma BlockUnlisted(s: Heap, except: set<int>, p: int)
    requires Threaded(s, except) && p in s.headers && p !in s.free && 0 <= p < |s.a|
    ensures forall h {:trigger h in s.free} :: h in s.free ==> !(p <= h < Right(s.a, p))
  {
    forall h {:trigger h in s.free} | h in s.free
      ensures !(p <= h < Right(s.a, p))
    {
      ListedIsFree(s, except, h);
      if h > p { assert Apart(s.a, p, h); }
    }
  }

  lemma CutKeepsCoalesced(a: seq<int>, hs: set<int>, p: int, n: int)
    requires Tiled(a, hs) && Coalesced(a, hs) && p in hs && Cell(a, hs, p)
    requires a[p] > 0 && 4 <= n && n + 4 <= a[p]
    ensures Coalesced(Cut(a, p, n, a[p]), hs + {p + n})
  {
    var b, ks := Cut(a, p, n, a[p]), hs + {p + n};
    assert Fenced(a, p);
    forall h {:trigger Fenced(b, h)} | h in ks
      ensures Fenced(b, h)
    {
      if h in hs && h != p {
        assert Cell(a, hs, h) && Fenced(a, h);
        BlocksDisjoint(a, hs, h, p, h);
        if Right(a, h) != p && Right(a, h) < |a| {
          assert Cell(a, hs, Right(a, h));
          BlocksDisjoint(a, hs, Right(a, h), p, Right(a, h));
        }
      }
    }
  }

  /** p is the one free block that the list misses. */
  ghost predicate Pending(s: Heap, p: int) {
    && Threaded(s, {p}) && Coalesced(s.a, s.headers)
    && p in s.headers && Cell(s.a, s.headers, p) && s.a[p] >= 4 && 0 < p
    && Right(s.a, p) in s.headers && Right(s.a, p) <= |s.a| - 2
  }

  lemma DropIsPending(s: Heap, k: int)
    requires Valid(s) && 0 <= k < |s.free|
    ensures Pending(DropAt(s, k), s.free[k]) && DropAt(s, k).a[s.free[k]] == s.a[s.free[k]]
  {
    var p, t := s.free[k], DropAt(s, k);
    ListedIsFree(s, {}, p);
    DropKeepsThreaded(s, {}, k);
    assert {} + {p} == {p};
    SameTagsKeepCell(s.a, t.a, s.headers, p);
  }

  lemma CutInsertValid(t: Heap, p: int, n: int)
    requires Pending(t, p) && 4 <= n && n + 4 <= t.a[p]
    ensures p + n + 4 <= |t.a| && Valid(Insert(CutHeap(t, p, n, t.a[p]), p + n))
  {
    var c := CutHeap(t, p, n, t.a[p]);
    CutKeepsThreaded(t, p, n);
    CutKeepsCoalesced(t.a, t.headers, p, n);
    SplitOwnCells(t.a, t.headers, p, n);
    InsertKeepsThreaded(c, p + n);
  }

  lemma TakeWholeValid(t: Heap, p: int)
    requires Pending(t, p)
    ensures Valid(Join(t, p, Right(t.a, p), -t.a[p]))
  {
    assert Fenced(t.a, p) && Sorted(t.a, t.free, {p}, p);
    BlockUnlisted(t, {p}, p);
    JoinKeepsThreaded(t, {p}, p, Right(t.a, p), -t.a[p]);
    JoinKeepsCoalesced(t.a, t.headers, p, Right(t.a, p), -t.a[p]);
  }

  lemma TakeCases(s: Heap, k: int, n: int)
    requires Valid(s) && 0 <= k < |s.free| && 4 <= n <= Size(s.a, s.free[k])
    ensures Pending(DropAt(s, k), s.free[k]) && DropAt(s, k).a[s.free[k]] == s.a[s.free[k]]
    ensures var p, t := s.free[k], DropAt(s, k);
            Take(s, k, n) == if t.a[p] - n >= 4 then Insert(CutHeap(t, p, n, t.a[p]), p + n) else Join(t, p, Right(t.a, p), -t.a[p])
  {
    DropIsPending(s, k);
    ListedIsFree(s, {}, s.free[k]);
  }

  lemma TakeKeepsValid(s: Heap, k: int, n: int)
    requires Valid(s) && 0 <= k < |s.free| && 4 <= n <= Size(s.a, s.free[k])
    ensures Valid(Take(s, k, n))
  {
    TakeCases(s, k, n);
    var p, t := s.free[k], DropAt(s, k);
    hide Take, Insert, CutHeap, Join, DropAt, Threaded, Coalesced;
    if t.a[p] - n >= 4 {
      CutInsertValid(t, p, n);
    } else {
      TakeWholeValid(t, p);
    }
  }

  // ---------------------------------------------------------------- free

  function Position(f: seq<int>, x: int): (k: int)
    requires x in f
    ensures 0 <= k < |f| && f[k] == x
  {
    if f[0] == x then 0 else 1 + Position(f[1..], x)
  }

  /** x goes off the list if it is free. */
  ghost function Unlist(s: Heap, x: int): (t: Heap)
    requires 0 <= x < |s.a| && Spaced(|s.a|, s.free) && (s.a[x] > 0 ==> x in s.free)
    ensures Spaced(|t.a|, t.free) && |t.a| == |s.a| && t.headers == s.headers
  {
    if s.a[x] > 0 then
      WithoutSpaced(|s.a|, s.free, Position(s.free, x));
      DropAt(s, Position(s.free, x))
    else s
  }

  ghost function IfFree(a: seq<int>, x: int): set<int>
    requires 0 <= x < |a|
  {
    if a[x] > 0 then {x} else {}
  }

  lemma UnlistKeepsThreaded(s: Heap, except: set<int>, x: int)
    requires Threaded(s, except) && x in s.headers && x !in except
    ensures 0 <= x < |s.a| && (s.a[x] > 0 ==> x in s.free)
    ensures Threaded(Unlist(s, x), except + IfFree(s.a, x))
    ensures SameTags(s.a, Unlist(s, x).a, s.headers)
    ensures Coalesced(s.a, s.headers) ==> Coalesced(Unlist(s, x).a, s.headers)
  {
    assert Cell(s.a, s.headers, x) && Sorted(s.a, s.free, except, x);
    if s.a[x] > 0 {
      DropKeepsThreaded(s, except, Position(s.free, x));
    } else {
      assert except + IfFree(s.a, x) == except;
      forall h {:trigger SameTag(s.a, s.a, h)} | h in s.headers
        ensures SameTag(s.a, s.a, h)
      {
        assert Cell(s.a, s.headers, h);
      }
    }
  }

  ghost function Live(s: Heap): set<int> {
    set h | h in s.headers && h != 0 && h != |s.a| - 2 && 0 <= h < |s.a| && s.a[h] < 0
  }

  /** Start of the block that results from freeing h: its left neighbour if that is free. */
  function Lo(a: seq<int>, h: int): int
    requires 0 < h < |a| && 0 <= Left(a, h)
  {
    if a[Left(a, h)] > 0 then Left(a, h) else h
  }

  function Hi(a: seq<int>, h: int): int
    requires 0 <= h < |a| && Right(a, h) < |a|
  {
    if a[Right(a, h)] > 0 then Right(a, Right(a, h)) else Right(a, h)
  }

  lemma LiveBlock(s: Heap, h: int)
    requires Valid(s) && h in Live(s)
    ensures Cell(s.a, s.headers, h) && s.a[h] <= -4 && 0 < h
    ensures Left(s.a, h) in s.headers && 0 <= Left(s.a, h) < h && Right(s.a, Left(s.a, h)) == h
    ensures Right(s.a, h) in s.headers && Right(s.a, h) <= |s.a| - 2
    ensures s.a[Left(s.a, h)] > 0 ==> Left(s.a, h) in s.free
    ensures s.a[Right(s.a, h)] > 0 ==> Right(s.a, h) in s.free
  {
    assert Cell(s.a, s.headers, h) && Apart(s.a, h, |s.a| - 2);
    assert Sorted(s.a, s.free, {}, Left(s.a, h)) && Cell(s.a, s.headers, Left(s.a, h));
    assert Sorted(s.a, s.free, {}, Right(s.a, h));
  }

  /** The span that freeing h turns into one free block. */
  lemma FreedSpan(s: Heap, h: int)
    requires Valid(s) && h in Live(s)
    ensures 0 < h && 0 <= Left(s.a, h) && Right(s.a, h) < |s.a|
    ensures 0 < Lo(s.a, h) <= h < Hi(s.a, h) <= |s.a| - 2 && Lo(s.a, h) + 4 <= Hi(s.a, h)
    ensures Lo(s.a, h) in s.headers && Hi(s.a, h) in s.headers
    ensures s.a[Hi(s.a, h)] < 0
    ensures Left(s.a, Lo(s.a, h)) in s.headers && 0 <= Left(s.a, Lo(s.a, h)) && s.a[Left(s.a, Lo(s.a, h))] < 0
  {
    LiveBlock(s, h);
    var l, r := Left(s.a, h), Right(s.a, h);
    assert Cell(s.a, s.headers, l) && Cell(s.a, s.headers, r) && Fenced(s.a, r);
    if s.a[l] > 0 {
      var ll := Left(s.a, l);
      assert Cell(s.a, s.headers, ll) && Fenced(s.a, ll);
    }
    if s.a[r] > 0 {
      ListedIsFree(s, {}, r);
    }
    assert s.a[l] <= 0 ==> Cell(s.a, s.headers, l);
  }

  ghost predicate ReadyToJoin(t: Heap, except: set<int>, lo: int, hi: int) {
    && Threaded(t, except) && Coalesced(t.a, t.headers) && lo in t.headers && hi in t.headers
    && 0 < lo && lo + 4 <= hi <= |t.a| - 2 && t.a[hi] < 0
    && Left(t.a, lo) in t.headers && 0 <= Left(t.a, lo) && t.a[Left(t.a, lo)] < 0
    && (forall h {:trigger h in t.free} :: h in t.free ==> !(lo <= h < hi))
    && (forall h {:trigger h in except} :: h in except ==> lo <= h < hi)
  }

  /** lo..hi as one listed free block. */
  ghost function JoinInsert(t: Heap, lo: int, hi: int): (u: Heap)
    requires 0 < lo && lo + 4 <= hi <= |t.a| && Spaced(|t.a|, t.free)
    ensures |u.a| == |t.a|
  {
    Insert(Join(t, lo, hi, hi - lo), lo)
  }

  lemma JoinInsertValid(t: Heap, except: set<int>, lo: int, hi: int)
    requires ReadyToJoin(t, except, lo, hi)
    ensures Valid(JoinInsert(t, lo, hi))
  {
    var j := Join(t, lo, hi, hi - lo);
    JoinKeepsThreaded(t, except, lo, hi, hi - lo);
    JoinKeepsCoalesced(t.a, t.headers, lo, hi, hi - lo);
    JoinCell(t.a, t.headers, lo, hi, hi - lo, lo);
    InsertKeepsThreaded(j, lo);
  }

  /** The heap once the free neighbours of h are off the list. */
  ghost function Unlisted(s: Heap, h: int): (t: Heap)
    requires Valid(s) && h in Live(s)
    ensures Spaced(|t.a|, t.free) && |t.a| == |s.a| && t.headers == s.headers
  {
    LiveBlock(s, h);
    var l, r := Left(s.a, h), Right(s.a, h);
    UnlistKeepsThreaded(s, {}, l);
    assert SameTag(s.a, Unlist(s, l).a, r);
    UnlistKeepsThreaded(Unlist(s, l), {} + IfFree(s.a, l), r);
    Unlist(Unlist(s, l), r)
  }

  /** Freeing h: its free neighbours come off the list, and the three together become one
      free block at the head of the list. */
  ghost function Release(s: Heap, h: int): (t: Heap)
    requires Valid(s) && h in Live(s)
    ensures |t.a| == |s.a|
  {
    FreedSpan(s, h);
    JoinInsert(Unlisted(s, h), Lo(s.a, h), Hi(s.a, h))
  }

  lemma SameTagsTransitive(a: seq<int>, b: seq<int>, c: seq<int>, hs: set<int>)
    requires SameTags(a, b, hs) && SameTags(b, c, hs)
    ensures SameTags(a, c, hs)
  {
    forall h {:trigger SameTag(a, c, h)} | h in hs
      ensures SameTag(a, c, h)
    {
      assert SameTag(a, b, h) && SameTag(b, c, h);
    }
  }

  /** The only block starts in the freed span are h and its free neighbours. */
  lemma SpanHeaders(s: Heap, h: int, x: int)
    requires Valid(s) && h in Live(s) && x in s.headers
    ensures 0 < h < |s.a| && 0 <= Left(s.a, h) && Right(s.a, h) < |s.a|
    ensures Lo(s.a, h) <= x < Hi(s.a, h) ==>
      x == h || (x == Left(s.a, h) && s.a[x] > 0) || (x == Right(s.a, h) && s.a[x] > 0)
  {
    LiveBlock(s, h);
    var l, r := Left(s.a, h), Right(s.a, h);
    assert x < l || x == l || (l < x ==> Apart(s.a, l, x));
    assert x < h || x == h || Apart(s.a, h, x);
    assert x < r || x == r || Apart(s.a, r, x);
  }

  ghost function Neighbours(s: Heap, h: int): set<int>
    requires Valid(s) && h in Live(s)
  {
    LiveBlock(s, h);
    {} + IfFree(s.a, Left(s.a, h)) + IfFree(s.a, Right(s.a, h))
  }

  lemma UnlistedThreaded(s: Heap, h: int)
    requires Valid(s) && h in Live(s)
    ensures Threaded(Unlisted(s, h), Neighbours(s, h))
    ensures Coalesced(Unlisted(s, h).a, s.headers)
    ensures SameTags(s.a, Unlisted(s, h).a, s.headers)
  {
    LiveBlock(s, h);
    var l, r := Left(s.a, h), Right(s.a, h);
    UnlistKeepsThreaded(s, {}, l);
    var u := Unlist(s, l);
    assert SameTag(s.a, u.a, r);
    UnlistKeepsThreaded(u, {} + IfFree(s.a, l), r);
    SameTagsTransitive(s.a, u.a, Unlist(u, r).a, s.headers);
  }

  lemma UnlistedReady(s: Heap, h: int)
    requires Valid(s) && h in Live(s)
    ensures 0 < h < |s.a| && 0 <= Left(s.a, h) && Right(s.a, h) < |s.a|
    ensures ReadyToJoin(Unlisted(s, h), Neighbours(s, h), Lo(s.a, h), Hi(s.a, h))
  {
    var t, ex := Unlisted(s, h), Neighbours(s, h);
    UnlistedThreaded(s, h);
    LiveBlock(s, h);
    FreedSpan(s, h);
    var lo, hi := Lo(s.a, h), Hi(s.a, h);
    var ll := Left(s.a, lo);
    assert SameTag(s.a, t.a, hi) && SameTag(s.a, t.a, ll);
    SameTagsKeepCell(s.a, t.a, s.headers, lo);
    LeftSame(s, t.a, lo);
    forall x {:trigger x in t.free} | x in t.free
      ensures !(lo <= x < hi)
    {
      SpanUnlisted(s, t, h, x);
    }
    assert Cell(s.a, s.headers, Right(s.a, h));
  }

  lemma SpanUnlisted(s: Heap, t: Heap, h: int, x: int)
    requires Valid(s) && h in Live(s) && t.headers == s.headers && SameTags(s.a, t.a, s.headers)
    requires Covers(t.a, t.headers, t.free, Neighbours(s, h)) && x in t.free
    ensures 0 < h < |s.a| && 0 <= Left(s.a, h) && Right(s.a, h) < |s.a|
    ensures !(Lo(s.a, h) <= x < Hi(s.a, h))
  {
    assert x in t.headers && Sorted(t.a, t.free, Neighbours(s, h), x) && SameTag(s.a, t.a, x);
    SpanHeaders(s, h, x);
  }

  lemma LeftSame(s: Heap, b: seq<int>, x: int)
    requires Valid(s) && SameTags(s.a, b, s.headers) && x in s.headers && 0 < x < |s.a|
    ensures Left(b, x) == Left(s.a, x)
  {
    assert Cell(s.a, s.headers, x) && Cell(s.a, s.headers, Left(s.a, x)) && SameTag(s.a, b, Left(s.a, x));
  }

  lemma ReleaseKeepsValid(s: Heap, h: int)
    requires Valid(s) && h in Live(s)
    ensures Valid(Release(s, h))
  {
    UnlistedReady(s, h);
    JoinInsertValid(Unlisted(s, h), Neighbours(s, h), Lo(s.a, h), Hi(s.a, h));
  }
}
