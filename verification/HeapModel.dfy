/** The boundary-tag heap as a value: one word array whose blocks carry equal signed
    header and footer tags, and whose free blocks are threaded on a doubly linked list.

    `headers` and `free` are the two views of that array which the code relies on but
    never writes down: the set of block starts and the free blocks in list order. */
module HeapModel {

  datatype Heap = Heap(a: seq<int>, headers: set<int>, free: seq<int>)

  function Abs(x: int): nat {
    if x < 0 then -x else x
  }

  function Size(a: seq<int>, h: int): nat
    requires 0 <= h < |a|
  {
    Abs(a[h])
  }

  /** The index just past the block that starts at h. */
  function Right(a: seq<int>, h: int): int
    requires 0 <= h < |a|
  {
    h + Size(a, h)
  }

  /** The start of the block whose footer is just before h. */
  function Left(a: seq<int>, h: int): int
    requires 0 < h <= |a|
  {
    h - Size(a, h - 1)
  }

  /** The k-th free block, with index 0 standing for "none" at both ends of the list. */
  function Nth(f: seq<int>, k: int): int {
    if 0 <= k < |f| then f[k] else 0
  }

  // ---------------------------------------------------------------- invariant

  /** What one block knows about itself and its two neighbours. */
  ghost predicate Cell(a: seq<int>, hs: set<int>, h: int) {
    && 0 <= h < |a| && Right(a, h) <= |a|
    && (if h == 0 || h == |a| - 2 then a[h] == -2 else 4 <= Size(a, h))
    && a[Right(a, h) - 1] == a[h]
    && (Right(a, h) in hs || Right(a, h) == |a|)
    && (h > 0 ==> Left(a, h) in hs && 0 <= Left(a, h) && a[Left(a, h)] == a[h - 1])
  }

  /** The blocks cover the array from end to end without overlap, between two taken
      blocks of two words that are never handed out. */
  ghost predicate Tiled(a: seq<int>, hs: set<int>) {
    && |a| >= 8
    && 0 in hs && |a| - 2 in hs
    && (forall h {:trigger Cell(a, hs, h)} :: h in hs ==> Cell(a, hs, h))
    && (forall g, h {:trigger g in hs, h in hs} :: g in hs && h in hs && g < h ==> Apart(a, g, h))
  }

  ghost predicate Apart(a: seq<int>, g: int, h: int) {
    0 <= g < |a| && Right(a, g) <= h
  }

  /** A free block is followed by a taken one. */
  ghost predicate Fenced(a: seq<int>, h: int) {
    0 <= h < |a| && (a[h] > 0 ==> Right(a, h) < |a| && a[Right(a, h)] < 0)
  }

  /** No two neighbouring blocks are both free. */
  ghost predicate Coalesced(a: seq<int>, hs: set<int>) {
    forall h {:trigger Fenced(a, h)} :: h in hs ==> Fenced(a, h)
  }

  /** Nodes lie inside an array of n words, far enough apart not to share one. */
  ghost predicate Spaced(n: int, f: seq<int>) {
    && (forall i {:trigger f[i]} :: 0 <= i < |f| ==> 0 < f[i] && f[i] + 4 <= n)
    && (forall i, j {:trigger f[i], f[j]} :: 0 <= i < j < |f| ==> f[i] + 4 <= f[j] || f[j] + 4 <= f[i])
  }

  ghost predicate LinkedAt(a: seq<int>, f: seq<int>, i: int)
    requires Spaced(|a|, f) && 0 <= i < |f|
  {
    a[f[i] + 1] == Nth(f, i + 1) && a[f[i] + 2] == Nth(f, i - 1)
  }

  /** The two link words of each node spell out the order of f in both directions. */
  ghost predicate Linked(a: seq<int>, f: seq<int>) {
    && Spaced(|a|, f)
    && (forall i {:trigger LinkedAt(a, f, i)} :: 0 <= i < |f| ==> LinkedAt(a, f, i))
  }

  ghost predicate Sorted(a: seq<int>, f: seq<int>, except: set<int>, h: int) {
    0 <= h < |a| && (h in f <==> a[h] > 0 && h !in except)
  }

  /** The list holds exactly the positive blocks, apart from those in `except`. */
  ghost predicate Covers(a: seq<int>, hs: set<int>, f: seq<int>, except: set<int>) {
    && (forall h {:trigger h in f} :: h in f ==> h in hs)
    && (forall h {:trigger Sorted(a, f, except, h)} :: h in hs ==> Sorted(a, f, except, h))
  }

  /** Everything but the claim that the list misses no free block. */
  ghost predicate Threaded(s: Heap, except: set<int>) {
    && Tiled(s.a, s.headers)
    && Linked(s.a, s.free)
    && Covers(s.a, s.headers, s.free, except)
  }

  ghost predicate Valid(s: Heap) {
    Threaded(s, {}) && Coalesced(s.a, s.headers)
  }

  // ---------------------------------------------------------------- writes

  /** Header and footer of an n-word block at i both set to v. */
  function Tag(a: seq<int>, i: int, n: int, v: int): (b: seq<int>)
    requires 0 <= i && 0 < n && i + n <= |a|
    ensures |b| == |a|
  {
    a[i := v][i + n - 1 := v]
  }

  function WithoutAt(f: seq<int>, k: int): seq<int>
    requires 0 <= k < |f|
  {
    f[..k] + f[k + 1..]
  }

  /** The links after the k-th node is taken off the list. */
  function Unlink(a: seq<int>, f: seq<int>, k: int): seq<int>
    requires 0 <= k < |f|
    requires forall i {:trigger f[i]} :: 0 <= i < |f| ==> 0 < f[i] && f[i] + 4 <= |a|
  {
    var b := if 0 < k then a[f[k - 1] + 1 := Nth(f, k + 1)] else a;
    if k + 1 < |f| then b[f[k + 1] + 2 := Nth(f, k - 1)] else b
  }

  /** The links after i becomes the new head of the list. */
  function Push(a: seq<int>, f: seq<int>, i: int): seq<int>
    requires 0 < i && i + 4 <= |a|
    requires forall j {:trigger f[j]} :: 0 <= j < |f| ==> 0 < f[j] && f[j] + 4 <= |a|
  {
    var b := a[i + 1 := Nth(f, 0)][i + 2 := 0];
    if f != [] then b[f[0] + 2 := i] else b
  }

  /** Position in f of the i-th entry of WithoutAt(f, k). */
  function Skip(k: int, i: int): int {
    if i < k then i else i + 1
  }

  lemma UnlinkAt(a: seq<int>, f: seq<int>, k: int, i: int)
    requires Linked(a, f) && 0 <= k < |f| && 0 <= i < |f| && i != k
    ensures Unlink(a, f, k)[f[i] + 1] == Nth(f, if i == k - 1 then i + 2 else i + 1)
    ensures Unlink(a, f, k)[f[i] + 2] == Nth(f, if i == k + 1 then i - 2 else i - 1)
  {
    assert LinkedAt(a, f, i);
  }

  lemma WithoutSpaced(n: int, f: seq<int>, k: int)
    requires Spaced(n, f) && 0 <= k < |f|
    ensures Spaced(n, WithoutAt(f, k))
  {
    var g := WithoutAt(f, k);
    forall i, j | 0 <= i < j < |g|
      ensures g[i] + 4 <= g[j] || g[j] + 4 <= g[i]
    {
      assert g[i] == f[Skip(k, i)] && g[j] == f[Skip(k, j)];
    }
  }

  lemma UnlinkLinkedAt(a: seq<int>, f: seq<int>, k: int, i: int)
    requires Linked(a, f) && 0 <= k < |f| && 0 <= i < |f| - 1
    requires Spaced(|a|, WithoutAt(f, k))
    ensures LinkedAt(Unlink(a, f, k), WithoutAt(f, k), i)
  {
    var g := WithoutAt(f, k);
    UnlinkAt(a, f, k, Skip(k, i));
    assert g[i] == f[Skip(k, i)];
    assert i + 1 < |g| ==> g[i + 1] == f[Skip(k, i + 1)];
    assert 0 < i ==> g[i - 1] == f[Skip(k, i - 1)];
  }

  lemma UnlinkKeepsLinked(a: seq<int>, f: seq<int>, k: int)
    requires Linked(a, f) && 0 <= k < |f|
    ensures Linked(Unlink(a, f, k), WithoutAt(f, k))
  {
    WithoutSpaced(|a|, f, k);
    var b, g := Unlink(a, f, k), WithoutAt(f, k);
    forall i {:trigger LinkedAt(b, g, i)} | 0 <= i < |g|
      ensures LinkedAt(b, g, i)
    {
      UnlinkLinkedAt(a, f, k, i);
    }
  }

  lemma PushKeepsLinked(a: seq<int>, f: seq<int>, i: int)
    requires 0 < i && i + 4 <= |a| && Linked(a, f) && Spaced(|a|, [i] + f)
    ensures Linked(Push(a, f, i), [i] + f)
  {
    var b, g := Push(a, f, i), [i] + f;
    assert g[0] == i;
    forall j {:trigger LinkedAt(b, g, j)} | 0 <= j < |g|
      ensures LinkedAt(b, g, j)
    {
      if j > 0 {
        assert g[j] == f[j - 1] && LinkedAt(a, f, j - 1);
      }
    }
  }

  // ---------------------------------------------------------------- what keeps the tiling

  ghost predicate SameTag(a: seq<int>, b: seq<int>, h: int) {
    |b| == |a| && 0 <= h < |a| && 0 < Right(a, h) <= |a| && b[h] == a[h] && b[Right(a, h) - 1] == a[h]
  }

  /** b carries the same tags as a on every block. */
  ghost predicate SameTags(a: seq<int>, b: seq<int>, hs: set<int>) {
    |b| == |a| && forall h {:trigger SameTag(a, b, h)} :: h in hs ==> SameTag(a, b, h)
  }

  lemma SameTagsKeepCell(a: seq<int>, b: seq<int>, hs: set<int>, h: int)
    requires Tiled(a, hs) && SameTags(a, b, hs) && h in hs
    ensures Cell(a, hs, h) && Cell(b, hs, h) && b[h] == a[h]
  {
    assert Cell(a, hs, h) && SameTag(a, b, h);
    if h > 0 { assert Cell(a, hs, Left(a, h)) && SameTag(a, b, Left(a, h)); }
  }

  lemma SameTagsKeepTiled(a: seq<int>, b: seq<int>, hs: set<int>)
    requires Tiled(a, hs) && SameTags(a, b, hs)
    ensures Tiled(b, hs)
  {
    forall h {:trigger Cell(b, hs, h)} | h in hs
      ensures Cell(a, hs, h) && Cell(b, hs, h) && b[h] == a[h]
    {
      SameTagsKeepCell(a, b, hs, h);
    }
    forall g, h {:trigger g in hs, h in hs} | g in hs && h in hs && g < h
      ensures Apart(b, g, h)
    {
      assert Apart(a, g, h);
      SameTagsKeepCell(a, b, hs, g);
    }
  }

  /** Two different blocks share no word. */
  lemma BlocksDisjoint(a: seq<int>, hs: set<int>, g: int, h: int, x: int)
    requires Tiled(a, hs) && g in hs && h in hs && g != h
    requires Cell(a, hs, g) && Cell(a, hs, h)
    requires g <= x < Right(a, g)
    ensures !(h <= x < Right(a, h))
  {
    if g < h { assert Apart(a, g, h); } else { assert Apart(a, h, g); }
  }

  /** Turning the blocks from lo up to hi into one block of either sign. */
  function Merged(hs: set<int>, lo: int, hi: int): set<int> {
    set h | h in hs && !(lo < h < hi)
  }

  lemma LeftBeyond(a: seq<int>, hs: set<int>, q: int, h: int)
    requires Tiled(a, hs) && q in hs && h in hs && q < h && Cell(a, hs, h)
    ensures Right(a, q) <= h && q <= Left(a, h) && a[Left(a, h)] == a[h - 1]
  {
    var l := Left(a, h);
    assert Apart(a, q, h);
    assert l < q ==> Apart(a, l, q);
  }

  lemma JoinCell(a: seq<int>, hs: set<int>, lo: int, hi: int, v: int, h: int)
    requires Tiled(a, hs) && lo in hs && hi in hs && 0 < lo && lo + 4 <= hi <= |a| - 2
    requires Abs(v) == hi - lo && h in Merged(hs, lo, hi)
    ensures Cell(Tag(a, lo, hi - lo, v), Merged(hs, lo, hi), h)
  {
    assert Cell(a, hs, h) && Cell(a, hs, lo) && Cell(a, hs, hi);
    if h < lo {
      assert Apart(a, h, lo);
    } else if h > hi {
      LeftBeyond(a, hs, hi, h);
    }
  }

  lemma JoinKeepsTiled(a: seq<int>, hs: set<int>, lo: int, hi: int, v: int)
    requires Tiled(a, hs) && lo in hs && hi in hs && 0 < lo && lo + 4 <= hi <= |a| - 2
    requires Abs(v) == hi - lo
    ensures Tiled(Tag(a, lo, hi - lo, v), Merged(hs, lo, hi))
  {
    var b, ks := Tag(a, lo, hi - lo, v), Merged(hs, lo, hi);
    assert |a| - 2 in ks;
    assert 0 in ks;
    forall h {:trigger Cell(b, ks, h)} | h in ks
      ensures Cell(b, ks, h)
    {
      JoinCell(a, hs, lo, hi, v, h);
    }
    forall g, h {:trigger g in ks, h in ks} | g in ks && h in ks && g < h
      ensures Apart(b, g, h)
    {
      assert Apart(a, g, h);
    }
    assert Cell(a, hs, 0);
  }

  /** The tags after the block at p is cut into a taken part of n words and a free rest. */
  function Cut(a: seq<int>, p: int, n: int, sz: int): (b: seq<int>)
    requires 0 <= p && 0 < n < sz && p + sz <= |a|
    ensures |b| == |a|
  {
    Tag(Tag(a, p, n, -n), p + n, sz - n, sz - n)
  }

  lemma SplitCell(a: seq<int>, hs: set<int>, p: int, n: int, h: int)
    requires Tiled(a, hs) && p in hs && Cell(a, hs, p) && 4 <= n && n + 4 <= Size(a, p)
    requires h in hs && h != p
    ensures Cell(Cut(a, p, n, Size(a, p)), hs + {p + n}, h)
  {
    var q := Right(a, p);
    assert Cell(a, hs, q) && Cell(a, hs, h);
    if h < p {
      assert Apart(a, h, p);
    } else {
      assert Apart(a, p, h);
      if h != q {
        LeftBeyond(a, hs, q, h);
      }
    }
  }

  lemma SplitOwnCells(a: seq<int>, hs: set<int>, p: int, n: int)
    requires Tiled(a, hs) && p in hs && Cell(a, hs, p) && 4 <= n && n + 4 <= Size(a, p)
    ensures Cell(Cut(a, p, n, Size(a, p)), hs + {p + n}, p)
    ensures Cell(Cut(a, p, n, Size(a, p)), hs + {p + n}, p + n)
  {
    var l := Left(a, p);
    assert Cell(a, hs, l) && Apart(a, l, p);
  }

  lemma SplitKeepsTiled(a: seq<int>, hs: set<int>, p: int, n: int)
    requires Tiled(a, hs) && p in hs && Cell(a, hs, p) && 4 <= n && n + 4 <= Size(a, p)
    ensures Tiled(Cut(a, p, n, Size(a, p)), hs + {p + n})
  {
    var b, ks := Cut(a, p, n, Size(a, p)), hs + {p + n};
    forall h {:trigger Cell(b, ks, h)} | h in ks
      ensures Cell(b, ks, h)
    {
      if h != p && h != p + n { SplitCell(a, hs, p, n, h); } else { SplitOwnCells(a, hs, p, n); }
    }
    forall g, h {:trigger g in ks, h in ks} | g in ks && h in ks && g < h
      ensures Apart(b, g, h)
    {
      SplitApart(a, hs, p, n, g, h);
    }
  }

  lemma SplitApart(a: seq<int>, hs: set<int>, p: int, n: int, g: int, h: int)
    requires Tiled(a, hs) && p in hs && Cell(a, hs, p) && 4 <= n && n + 4 <= Size(a, p)
    requires g in hs + {p + n} && h in hs + {p + n} && g < h
    ensures Apart(Cut(a, p, n, Size(a, p)), g, h)
  {
    if g in hs && g < p { assert Apart(a, g, p); }
    if g in hs && h in hs { assert Apart(a, g, h); }
    if g in hs && g > p { assert Apart(a, p, g); }
    if h in hs && p < h { assert Apart(a, p, h); }
  }
}
