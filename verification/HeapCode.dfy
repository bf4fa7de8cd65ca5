/** The allocator as it is written: one word array and the head of the free list, both changed
    in place. The kernel and the user library run the same code, except that the kernel panics
    where the library carries on. */
module HeapCode {
  import opened HeapModel
  import opened HeapSteps
  import opened HeapObjects
  import opened HeapRuns
  import opened HeapBytes

  /** A pointer, as a byte offset from the array. */
  datatype Pointer = Null | At(offset: int)

  /** The checks of sanity(i) that end in a panic when they fail. */
  ghost predicate Sane(a: seq<int>, i: int) {
    i == 0 || (0 <= i < |a| && 0 < Right(a, i) <= |a| && a[Right(a, i) - 1] == a[i])
  }

  lemma HeaderIsSane(s: Heap, h: int)
    requires Tiled(s.a, s.headers) && (h == 0 || h in s.headers)
    ensures Sane(s.a, h)
  {
    assert h in s.headers ==> Cell(s.a, s.headers, h);
  }

  class FirstFitHeap {
    const kernel: bool
    const words: array<int>
    var avail: int
    var panicked: bool
    ghost var headers: set<int>
    ghost var free: seq<int>

    ghost function View(): Heap
      reads this`headers, this`free, words
    {
      Heap(words[..], headers, free)
    }

    ghost predicate Ok()
      reads this`headers, this`free, this`avail, words
    {
      Valid(View()) && AtHead()
    }

    method Panic()
      modifies this`panicked
      ensures panicked == (old(panicked) || kernel)
    {
      if kernel { panicked := true; }
    }

    method Sanity(i: int) returns (r: int)
      modifies this`panicked
      ensures r == i
      ensures panicked == (old(panicked) || (kernel && !Sane(View().a, i)))
    {
      if i == 0 { return 0; }
      if i < 0 || words.Length <= i {
        Panic();
        return i;
      }
      var footer := i + Abs(words[i]) - 1;
      if footer < 0 || words.Length <= footer {
        Panic();
        return i;
      }
      if words[i] != words[footer] {
        Panic();
        return i;
      }
      return i;
    }

    method SizeOf(i: int) returns (n: int)
      requires 0 <= i < words.Length
      ensures n == Size(View().a, i)
    {
      n := Abs(words[i]);
    }

    method IsAvail(i: int) returns (b: bool)
      requires 0 <= i < words.Length
      ensures b == (View().a[i] > 0)
    {
      b := words[i] > 0;
    }

    method IsTaken(i: int) returns (b: bool)
      requires 0 <= i < words.Length
      ensures b == (View().a[i] < 0)
    {
      b := words[i] < 0;
    }

    method LeftOf(i: int) returns (l: int)
      requires 0 < i <= words.Length && Sane(View().a, Left(View().a, i))
      modifies this`panicked
      ensures l == Left(View().a, i) && panicked == old(panicked)
    {
      l := Sanity(i - 1 - Abs(words[i - 1]) + 1);
    }

    method RightOf(i: int) returns (r: int)
      requires 0 <= i < words.Length && Sane(View().a, Right(View().a, i))
      modifies this`panicked
      ensures r == Right(View().a, i) && panicked == old(panicked)
    {
      r := Sanity(i + Abs(words[i]));
    }

    method NextOf(i: int) returns (n: int)
      requires 0 <= i && i + 1 < words.Length && Sane(View().a, View().a[i + 1])
      modifies this`panicked
      ensures n == View().a[i + 1] && panicked == old(panicked)
    {
      n := Sanity(words[i + 1]);
    }

    method PrevOf(i: int) returns (n: int)
      requires 0 <= i && i + 2 < words.Length && Sane(View().a, View().a[i + 2])
      modifies this`panicked
      ensures n == View().a[i + 2] && panicked == old(panicked)
    {
      n := Sanity(words[i + 2]);
    }

    ghost predicate AtHead()
      reads this`free, this`avail
    {
      avail == Nth(free, 0)
    }

    ghost predicate Listed()
      reads this`headers, this`free, this`avail, words
    {
      Linked(View().a, View().free) && AtHead()
    }

    /** Takes the k-th free block off the list. */
    method Remove(i: int, ghost k: int)
      requires Listed() && Removable(View(), k, i)
      modifies this`avail, this`panicked, this`free, words
      ensures View() == DropAt(old(View()), k) && Listed() && AtHead() && panicked == old(panicked)
    {
      UnlinkKeepsLinked(View().a, View().free, k);
      assert LinkedAt(words[..], free, k);
      var prevIndex := PrevOf(i);
      var nextIndex := NextOf(i);
      if prevIndex == 0 {
        avail := nextIndex;
      } else {
        words[prevIndex + 1] := nextIndex;
      }
      if nextIndex != 0 {
        words[nextIndex + 2] := prevIndex;
      }
      free := WithoutAt(free, k);
    }

    method MakeAvail(i: int, ints: int)
      requires 0 < i && 4 <= ints && i + ints <= words.Length
      requires Spaced(words.Length, free) && avail == Nth(free, 0)
      modifies this`avail, this`free, words
      ensures words[..] == Push(Tag(old(words[..]), i, ints, ints), old(free), i)
      ensures free == [i] + old(free) && avail == i
    {
      words[i] := ints;
      words[i + Abs(words[i]) - 1] := ints;
      words[i + 1] := avail;
      words[i + 2] := 0;
      if avail != 0 {
        words[avail + 2] := i;
      }
      avail := i;
      free := [i] + free;
    }

    method MakeTaken(i: int, ints: int)
      requires 0 <= i && 0 < ints && i + ints <= words.Length
      modifies words
      ensures words[..] == Tag(old(words[..]), i, ints, -ints)
    {
      words[i] := -ints;
      words[i + Abs(words[i]) - 1] := -ints;
    }

    /** Heap::init, on memory with arbitrary contents. */
    constructor (base: array<int>, kernel: bool)
      requires 8 <= base.Length
      modifies base
      ensures words == base && this.kernel == kernel && !panicked
      ensures View() == Initial(old(base[..])) && Ok() && Objects(View()) == map[]
    {
      this.kernel := kernel;
      this.words := base;
      avail := 0;
      panicked := false;
      free := [];
      new;
      headers := {0, 2, base.Length - 2};
      MakeTaken(0, 2);
      MakeAvail(2, base.Length - 4);
      MakeTaken(base.Length - 2, 2);
      InitialValid(old(base[..]));
    }
  
    method RequireAvail(i: int)
      requires 0 <= i < words.Length
      modifies this`panicked
      ensures View().a[i] > 0 ==> panicked == old(panicked)
    {
      var ok := IsAvail(i);
      if !ok { Panic(); }
    }

    /** Cuts the unlisted free block at p into a taken part of `ints` words and a listed rest. */
    method SplitBlock(p: int, ints: int, extra: int)
      requires 0 <= p && 4 <= ints && 4 <= extra && p + ints + extra <= words.Length
      requires Listed()
      modifies this`avail, this`headers, this`free, words
      ensures Spaced(words.Length, old(free)) && AtHead()
      ensures View() == Insert(CutHeap(old(View()), p, ints, ints + extra), p + ints)
    {
      MakeTaken(p, ints);
      MakeAvail(p + ints, extra);
      headers := headers + {p + ints};
    }

    /** Takes the whole of the unlisted free block at p. */
    method TakeWhole(p: int, sz: int)
      requires Pending(View(), p) && sz == View().a[p] && AtHead()
      modifies words
      ensures 0 <= p && 0 < sz && p + sz <= words.Length && AtHead()
      ensures View() == Join(old(View()), p, p + sz, -sz)
    {
      WholeTag(View(), p, p);
      MakeTaken(p, sz);
    }

    lemma ViewLength()
      ensures |View().a| == words.Length && View().free == free
    {
    }

    lemma ReadyToTake(k: int, ints: int)
      requires Ok() && 0 <= k < |View().free| && 4 <= ints <= Size(View().a, View().free[k])
      ensures var s := View(); var p, t := s.free[k], DropAt(s, k); var sz := t.a[p];
        && Listed() && Removable(s, k, p)
        && 0 <= p && p + sz <= words.Length && Pending(t, p) && sz == Size(s.a, p)
        && Valid(Take(s, k, ints))
        && Take(s, k, ints) == if sz - ints >= 4 then Insert(CutHeap(t, p, ints, sz), p + ints) else Join(t, p, p + sz, -sz)
    {
      ReadyToRemove(View(), k);
      TakeCases(View(), k, ints);
      TakeKeepsValid(View(), k, ints);
    }

    /** The branch of malloc that has found its block. */
    method TakeBlock(p: int, ints: int, sz: int, ghost k: int)
      requires Ok() && 0 <= k < |View().free| && View().free[k] == p && 0 <= p < words.Length
      requires sz == Size(View().a, p) && 4 <= ints <= sz
      modifies this`avail, this`panicked, this`headers, this`free, words
      ensures Ok() && panicked == old(panicked) && View() == Take(old(View()), k, ints)
    {
      hide View, Valid, Take, Insert, CutHeap, DropAt, Join, Listed, AtHead, Removable, Pending, Size, Right;
      ReadyToTake(k, ints);
      Remove(p, k);
      var extra := sz - ints;
      if extra >= 4 {
        SplitBlock(p, ints, extra);
      } else {
        TakeWhole(p, sz);
      }
    }

    lemma ReadyToSearch(ints: nat)
      requires Ok()
      ensures var s := View();
        && avail == Nth(s.free, 0) && Sane(s.a, avail)
        && (forall i {:trigger s.free[i]} :: 0 <= i < |s.free| ==> 0 <= s.free[i] < |s.a|)
        && Fit(s, ints) == FirstFit(s.a, s.free, ints, 0)
    {
      HeadIsSane(View());
    }

    method Malloc(bytes: nat) returns (res: Pointer)
      requires Ok() && bytes < WORD
      modifies this`avail, this`panicked, this`headers, this`free, words
      ensures Ok()
      ensures bytes == 0 ==> res == At(0) && View() == old(View()) && panicked == old(panicked)
      ensures bytes > 0 ==>
        var k := Fit(old(View()), Ints(bytes));
        if k < |old(View()).free| then
          View() == Take(old(View()), k, Ints(bytes)) && res == At(4 * (old(View()).free[k] + 1)) && panicked == old(panicked)
        else
          View() == old(View()) && res == Null && panicked == (old(panicked) || kernel)
      ensures bytes > 0 ==> Answered(old(View()), if bytes + 3 < WORD then bytes else 0, View(), res)
    {
      hide View, Valid, Take, Fit, AtHead, Listed, Serves;
      if bytes == 0 { return At(0); }
      var ints := ((bytes + 3) % WORD) / 4 + 2;
      if ints < 4 { ints := 4; }
      SearchServes(View(), bytes);
      res := Search(ints);
    }

    /** The walk along the free list for a block of the given size. */
    method Search(ints: nat) returns (res: Pointer)
      requires Ok() && 4 <= ints
      modifies this`avail, this`panicked, this`headers, this`free, words
      ensures Ok()
      ensures var k := Fit(old(View()), ints);
        if k < |old(View()).free| then
          View() == Take(old(View()), k, ints) && res == At(4 * (old(View()).free[k] + 1)) && panicked == old(panicked)
        else
          View() == old(View()) && res == Null && panicked == (old(panicked) || kernel)
    {
      hide View, Valid, Take, FirstFit, Fit, AtHead, Sane, Size, Nth, Listed;
      ghost var s := View();
      ghost var k := 0;
      ReadyToSearch(ints);
      var p := Sanity(avail);
      while p != 0
        invariant panicked == old(panicked) && k <= |s.free| && Ok() && View() == s && p == Nth(s.free, k)
        invariant Fit(s, ints) == FirstFit(s.a, s.free, ints, k)
        decreases |s.free| - k
      {
        ViewLength();
        FitStep(s, ints, k);
        RequireAvail(p);
        var sz := SizeOf(p);
        if sz >= ints {
          TakeBlock(p, ints, sz, k);
          return At(4 * (p + 1));
        }
        p := NextOf(p);
        k := k + 1;
      }
      FitEnd(s, ints, k);
      Panic();
      return Null;
    }
    /** Takes x off the list if it is free. */
    method Absorb(x: int, ghost except: set<int>) returns (b: bool)
      requires Listed() && Threaded(View(), except) && x in View().headers && x !in except
      modifies this`avail, this`panicked, this`free, words
      ensures 0 <= x < words.Length && (old(View()).a[x] > 0 ==> x in old(View()).free)
      ensures View() == Unlist(old(View()), x) && b == (old(View()).a[x] > 0)
      ensures Listed() && panicked == old(panicked)
    {
      UnlistKeepsThreaded(View(), except, x);
      b := IsAvail(x);
      if b {
        SaneNeighbours(View(), except, Position(free, x));
        Remove(x, Position(free, x));
      }
    }

    /** The span lo..lo + n becomes one listed free block. */
    method MakeJoined(lo: int, n: int)
      requires 0 < lo && 4 <= n && lo + n <= words.Length && Listed()
      modifies this`avail, this`headers, this`free, words
      ensures Spaced(words.Length, old(View()).free) && View() == JoinInsert(old(View()), lo, lo + n) && AtHead()
    {
      MakeAvail(lo, n);
      headers := Merged(headers, lo, lo + n);
    }

    /** A block that has been handed out, taken or free by now. */
    ghost predicate Handed(h: int)
      reads this`headers, this`free, words
    {
      h in View().headers && 0 < h < |View().a| - 2
    }

    /** A pointer that free accepts: null, what malloc(0) returns, or the payload of a block. */
    ghost predicate FreeArgument(p: Pointer)
      reads this`headers, this`free, words
    {
      p == Null || p == At(0) || (p.offset % 4 == 0 && Handed(BlockOf(p)))
    }

    lemma ReadyToFree(h: int)
      requires Ok() && Handed(h)
      ensures var s := View();
        && h in s.headers && 0 < h < words.Length && Sane(s.a, h) && (s.a[h] < 0 <==> h in Live(s)) && |s.a| == words.Length
    {
      HeaderIsSane(View(), h);
      assert Cell(View().a, View().headers, h);
    }

    lemma ReadyToAbsorb(h: int)
      requires Ok() && h in Live(View())
      ensures var s := View();
        && Listed() && Threaded(s, {}) && Sane(s.a, Left(s.a, h)) && Sane(s.a, Right(s.a, h))
        && 0 <= Left(s.a, h) < |s.a| && 0 <= Right(s.a, h) < |s.a|
        && Left(s.a, h) in s.headers && Right(s.a, h) in s.headers
    {
      var s := View();
      LiveBlock(s, h);
      HeaderIsSane(s, Left(s.a, h));
      HeaderIsSane(s, Right(s.a, h));
    }

    /** The part of free that merges the taken block h with its free neighbours. */
    method Coalesce(h: int)
      requires Ok() && h in Live(View()) && 0 < h < words.Length
      modifies this`avail, this`panicked, this`headers, this`free, words
      ensures Ok() && View() == Release(old(View()), h) && panicked == old(panicked)
    {
      hide View, Valid, Unlist, Release, Listed, AtHead, Sane, Left, Right, Live, JoinInsert, Threaded, IfFree, Spaced;
      ghost var s := View();
      ReadyToAbsorb(h);
      FreedSpanSize(s, h);
      AbsorbLeft(s, h);
      AbsorbRight(Unlist(s, Left(s.a, h)), {} + IfFree(s.a, Left(s.a, h)), Right(s.a, h));
      ReleaseIs(s, h);
      var idx := h;
      var sz: int := SizeOf(idx);
      var leftIndex := LeftOf(idx);
      var rightIndex := RightOf(idx);
      var left := Absorb(leftIndex, {});
      if left {
        idx := leftIndex;
        var n := SizeOf(leftIndex);
        sz := sz + n;
      }
      var right := Absorb(rightIndex, {} + IfFree(s.a, leftIndex));
      if right {
        var n := SizeOf(rightIndex);
        sz := sz + n;
      }
      ViewLength();
      MakeJoined(idx, sz);
    }

    method Free(p: Pointer)
      requires Ok() && FreeArgument(p)
      modifies this`avail, this`panicked, this`headers, this`free, words
      ensures Ok()
      ensures (p == Null || p == At(0)) ==> View() == old(View()) && panicked == old(panicked)
      ensures p.At? && p.offset > 0 && BlockOf(p) in Live(old(View())) ==>
        View() == Release(old(View()), BlockOf(p)) && panicked == old(panicked)
      ensures p.At? && p.offset > 0 && BlockOf(p) !in Live(old(View())) ==>
        View() == old(View()) && panicked == (old(panicked) || kernel)
    {
      hide View, Valid, Release, AtHead, Sane, Live, Handed;
      if p == Null || p == At(0) { return; }
      var idx := p.offset / 4 - 1;
      ReadyToFree(idx);
      var checked := Sanity(idx);
      var taken := IsTaken(idx);
      if !taken {
        Panic();
        return;
      }
      Coalesce(idx);
    }

    lemma ByteInPayload(h: int, j: nat)
      requires Ok() && h in Objects(View()) && j < 4 * |Objects(View())[h]|
      ensures 0 <= h && h + 1 + j / 4 < words.Length && Objects(View())[h][j / 4] == words[h + 1 + j / 4]
      ensures View().a == words[..]
    {
      LiveBlock(View(), h);
    }

    /** One byte of a live payload is overwritten. */
    method StoreByte(h: int, j: nat, b: int)
      requires Ok() && h in Objects(View()) && j < 4 * |Objects(View())[h]| && 0 <= b < 256
      modifies words
      ensures Ok() && Objects(View()) == old(Objects(View()))[h := PutByte(old(Objects(View()))[h], j, b)]
      ensures h + 1 + j / 4 < words.Length && forall x {:trigger words[x]} :: 0 <= x < words.Length && x != h + 1 + j / 4 ==> words[x] == old(words[x])
    {
      ByteInPayload(h, j);
      StoreObjects(View(), h, j / 4, SetByte(words[h + 1 + j / 4], j % 4, b));
      ghost var s := View();
      words[h + 1 + j / 4] := SetByte(words[h + 1 + j / 4], j % 4, b);
      assert View() == Store(s, h + 1 + j / 4, SetByte(s.a[h + 1 + j / 4], j % 4, b));
    }

    /** Two words past a payload are still inside the array. */
    lemma InsideArray(h: int, j: nat)
      requires Ok() && h in Objects(View()) && j < 4 * (|Objects(View())[h]| + 2)
      ensures 0 <= h && h + 1 + j / 4 < words.Length
    {
      LiveBlock(View(), h);
    }

    method LoadByte(h: int, j: nat) returns (b: int)
      requires Ok() && h in Objects(View()) && j < 4 * (|Objects(View())[h]| + 2)
      ensures 0 <= b < 256 && (j < 4 * |Objects(View())[h]| ==> b == ByteAt(Objects(View())[h], j))
      ensures 0 <= h && h + 1 + j / 4 < words.Length && b == ByteOf(words[h + 1 + j / 4], j % 4)
    {
      InsideArray(h, j);
      b := ByteOf(words[h + 1 + j / 4], j % 4);
      if j < 4 * |Objects(View())[h]| { ByteInPayload(h, j); }
    }

    /** The words of another object's payload are neither in the block of h nor the header behind. */
    lemma ElsewhereStored(q: int, h: int, x: int)
      requires Ok() && q in Objects(View()) && h in Objects(View()) && q != h && q < x <= q + |Objects(View())[q]|
      ensures !(h <= x <= h + |Objects(View())[h]| + 2)
    {
      var s := View();
      LiveBlock(s, h);
      LiveBlock(s, q);
      BlocksDisjoint(s.a, s.headers, q, h, x);
      var r := Right(s.a, h);
      assert r != q ==> Apart(s.a, if r < q then r else q, if r < q then q else r);
      assert Cell(s.a, s.headers, r);
    }

    /** memcpy from the payload of h, and up to two words past it, into the payload of q. */
    method CopyPayload(q: int, h: int, m: nat)
      requires Ok() && q in Objects(View()) && h in Objects(View()) && q != h
      requires m <= 4 * |Objects(View())[q]| && m <= 4 * (|Objects(View())[h]| + 2)
      modifies words
      ensures Ok() && Copied(old(Objects(View())), Objects(View()), q, h, m) && Spilled(old(words[..]), Objects(View())[q], h, m)
    {
      hide View, Objects, ByteAt, ByteOf, PutByte, Ok, CopiedBytes, Spilled;
      ghost var before, a := Objects(View()), words[..];
      CopyNothing(before, q, h);
      SpilledNothing(a, before[q], h);
      var j := 0;
      while j < m
        invariant j <= m && Ok() && Copied(before, Objects(View()), q, h, j) && Spilled(a, Objects(View())[q], h, j)
        invariant forall x {:trigger words[x]} :: h <= x <= h + |before[h]| + 2 && 0 <= x < words.Length ==> words[x] == a[x]
      {
        var b := LoadByte(h, j);
        CopyStep(before, Objects(View()), q, h, j, b);
        SpillStep(a, Objects(View())[q], h, j, b);
        ElsewhereStored(q, h, q + 1 + j / 4);
        StoreByte(q, j, b);
        j := j + 1;
      }
    }

    lemma LiveIsHanded(h: int)
      requires Ok() && h in Objects(View())
      ensures h in Live(View()) && Handed(h) && Size(View().a, h) == |Objects(View())[h]| + 2
      ensures Valid(Release(View(), h)) && Objects(Release(View(), h)) == Objects(View()) - {h}
    {
      LiveBlock(View(), h);
      ReleaseObjects(View(), h);
    }

    lemma HandedIsLive(h: int)
      requires Ok() && Handed(h)
      ensures 0 < h && (h in Live(View()) <==> h in Objects(View()))
    {
    }

    lemma WordsOfView()
      ensures View().a == words[..]
    {
    }

    /** What malloc(0) returns is no object. */
    lemma NullIsDead()
      requires Ok()
      ensures -1 !in Objects(View())
    {
    }

    /** What a successful search for newSize bytes means for the client. */
    lemma SearchMeans(s: Heap, newSize: nat)
      requires Valid(s) && 0 < newSize < 0x8000_0000
      ensures 4 <= Ints(newSize)
      ensures var k := Fit(s, Ints(newSize));
        if k < |s.free| then
          var q, t := s.free[k], Take(s, k, Ints(newSize));
          Valid(t) && q !in Objects(s) && q in Objects(t) && Objects(t) == Objects(s)[q := Objects(t)[q]] && newSize <= 4 * |Objects(t)[q]|
          && Snug(|Objects(t)[q]|, newSize) && FirstServing(s, newSize, k) && !NoneServes(s, newSize)
        else NoneServes(s, newSize)
    {
      SearchServes(s, newSize);
    }

    /** The library's realloc: allocate, copy, free, in that order; the old block is freed even
        when the allocation fails. `sz` counts the two tag words of the old block as well. */
    method Realloc(p: Pointer, newSize: nat) returns (res: Pointer)
      requires Ok() && !kernel && newSize < 0x8000_0000
      requires p == Null || (p == At(0) && newSize == 0) || (p.offset % 4 == 0 && Handed(BlockOf(p)))
      modifies this`avail, this`panicked, this`headers, this`free, words
      ensures Ok() && panicked == old(panicked)
      ensures p == Null && newSize == 0 ==> View() == old(View()) && res == At(0)
      ensures p == Null && newSize > 0 ==>
        var k := Fit(old(View()), Ints(newSize));
        if k < |old(View()).free| then View() == Take(old(View()), k, Ints(newSize)) && res == At(4 * (old(View()).free[k] + 1))
        else View() == old(View()) && res == Null
      ensures p.At? && BlockOf(p) !in old(Objects(View())) ==> View() == old(View()) && res == Null
      ensures p.At? && BlockOf(p) in old(Objects(View())) && newSize == 0 ==>
        Objects(View()) == old(Objects(View())) - {BlockOf(p)} && res == Null
      ensures p.At? && BlockOf(p) in old(Objects(View())) && newSize > 0 ==>
        && (res == Null <==> NoneServes(old(View()), newSize))
        && Moved(old(Objects(View())), Objects(View()), BlockOf(p), newSize, res)
      ensures p.At? && BlockOf(p) in old(Objects(View())) && newSize > 0 && res != Null ==>
        var k := Fit(old(View()), Ints(newSize));
        && k < |old(View()).free| && res == At(4 * (old(View()).free[k] + 1)) && BlockOf(res) in Objects(View())
        && Spilled(Take(old(View()), k, Ints(newSize)).a, Objects(View())[BlockOf(res)], BlockOf(p), CopyLength(old(Objects(View()))[BlockOf(p)], newSize))
    {
      hide View, Valid, Release, Take, Fit, AtHead, Sane, Live, Handed, Objects, CopiedBytes, Size, Ints, Spilled;
      if p == Null {
        res := Malloc(newSize);
        return;
      }
      var idx := p.offset / 4 - 1;
      if p != At(0) { HandedIsLive(idx); } else { NullIsDead(); }
      if newSize == 0 {
        if idx in Objects(View()) { LiveIsHanded(idx); }
        Free(p);
        return Null;
      }
      ReadyToFree(idx);
      var checked := Sanity(idx);
      var taken := IsTaken(idx);
      if !taken { return Null; }
      LiveIsHanded(idx);
      var n := SizeOf(idx);
      var sz := n * 4;
      ghost var before := Objects(View());
      SearchMeans(View(), newSize);
      res := Malloc(newSize);
      if res != Null {
        var m := if newSize > sz then sz else newSize;
        WordsOfView();
        CopyPayload(BlockOf(res), idx, m);
        CopiedEnough(before, Objects(View()), BlockOf(res), idx, m, newSize);
      }
      LiveIsHanded(idx);
      Free(p);
    }
  }

  /** The bytes that realloc copies from a block with this payload: its size is in words and counts
      the two tags. */
  function CopyLength(payload: seq<int>, newSize: nat): nat {
    if newSize > 4 * (|payload| + 2) then 4 * (|payload| + 2) else newSize
  }

  /** The first m bytes of target are the m bytes behind the header at h. */
  ghost predicate Spilled(a: seq<int>, target: seq<int>, h: int, m: nat) {
    forall t {:trigger ByteAt(target, t)} :: 0 <= t < m && t < 4 * |target| && 0 <= h + 1 + t / 4 < |a| ==> ByteAt(target, t) == ByteOf(a[h + 1 + t / 4], t % 4)
  }

  /** realloc leaves the old payload exactly if the new size exceeds it. What it then reads is the
      footer of the old block and, beyond four bytes, the header of the block behind. */
  lemma ReallocLeavesPayload(s: Heap, h: int, newSize: nat)
    requires Valid(s) && h in Objects(s)
    ensures CopyLength(Objects(s)[h], newSize) > 4 * |Objects(s)[h]| <==> newSize > 4 * |Objects(s)[h]|
    ensures forall t: nat {:trigger WordRead(h, t)} :: 4 * |Objects(s)[h]| <= t < CopyLength(Objects(s)[h], newSize) ==>
      var x := WordRead(h, t);
      0 <= x < |s.a| && if t < 4 * (|Objects(s)[h]| + 1) then x == Right(s.a, h) - 1 && s.a[x] == -(|Objects(s)[h]| + 2) else x == Right(s.a, h) && x in s.headers
  {
    LiveBlock(s, h);
  }

  /** Where byte t behind the header at h lies. */
  function WordRead(h: int, t: nat): int {
    h + 1 + t / 4
  }

  /** An input: on a fresh heap, malloc(8) and then a realloc to 12 bytes read the footer, whose
      lowest byte is 252, as the ninth byte. */
  lemma ReallocReadsFooter(a: seq<int>)
    requires |a| == 64
    ensures Valid(Initial(a)) && var s := Step(Initial(a), HeapRuns.Malloc(8));
      && 2 in Objects(s) && |Objects(s)[2]| == 2 && CopyLength(Objects(s)[2], 12) == 12
      && WordRead(2, 8) == 5 && s.a[5] == -4 && ByteOf(s.a[5], 0) == 252
  {
    hide Valid, Objects;
    InitialValid(a);
    var s := Initial(a);
    var t := Step(s, HeapRuns.Malloc(8));
    FreshTaken(a);
    ReallocLeavesPayload(t, 2, 12);
    assert WordRead(2, 8) == 5;
  }

  lemma FreshTaken(a: seq<int>)
    requires |a| == 64
    ensures Valid(Initial(a)) && Step(Initial(a), HeapRuns.Malloc(8)).a[2] == -4
    ensures var t := Step(Initial(a), HeapRuns.Malloc(8)); Valid(t) && 2 in Objects(t) && |Objects(t)[2]| == 2
  {
    InitialValid(a);
    var s := Initial(a);
    IntsEnough(8);
    assert Ints(8) == 4;
    assert Fit(s, 4) == 0;
    TakeObjects(s, 0, 4);
    var t := Take(s, 0, 4);
    LiveBlock(t, 2);
  }

  lemma SpilledNothing(a: seq<int>, target: seq<int>, h: int)
    ensures Spilled(a, target, h, 0)
  {
  }

  lemma SpillStep(a: seq<int>, target: seq<int>, h: int, j: nat, b: int)
    requires Spilled(a, target, h, j) && j < 4 * |target| && 0 <= h && h + 1 + j / 4 < |a| && b == ByteOf(a[h + 1 + j / 4], j % 4)
    ensures Spilled(a, PutByte(target, j, b), h, j + 1)
  {
    hide ByteOf;
    var after := PutByte(target, j, b);
    forall t {:trigger ByteAt(after, t)} | 0 <= t < j + 1 && t < 4 * |after| && 0 <= h + 1 + t / 4 < |a|
      ensures ByteAt(after, t) == ByteOf(a[h + 1 + t / 4], t % 4)
    {
      PutByteAt(target, j, b, t);
    }
  }

  /** How malloc answers a request: with null exactly if no free block serves, and otherwise with a
      new object in the first that does. */
  ghost predicate Answered(s: Heap, bytes: nat, t: Heap, res: Pointer) {
    if res == Null then t == s && NoneServes(s, bytes)
    else exists k: nat {:trigger Granted(s, bytes, t, k)} :: Granted(s, bytes, t, k) && res == At(4 * (s.free[k] + 1))
  }

  /** What realloc(h, newSize) does to the client's objects when h is live. */
  ghost predicate Moved(before: map<int, seq<int>>, now: map<int, seq<int>>, h: int, newSize: nat, res: Pointer)
    requires h in before
  {
    if res == Null then now == before - {h}
    else
      var q := BlockOf(res);
      && res.offset == 4 * (q + 1) && q !in before && q in now && Snug(|now[q]|, newSize)
      && now == (before - {h})[q := now[q]]
      && CopiedBytes(before[h], now[q], newSize)
  }

  /** `now` differs from `before` in object q only, whose first m bytes are those of h. */
  ghost predicate Copied(before: map<int, seq<int>>, now: map<int, seq<int>>, q: int, h: int, m: nat)
    requires q in before && h in before
  {
    && q in now && |now[q]| == |before[q]| && now == before[q := now[q]]
    && CopiedBytes(before[h], now[q], m)
  }

  ghost predicate CopiedBytes(source: seq<int>, target: seq<int>, m: nat) {
    forall t {:trigger ByteAt(target, t)} :: 0 <= t < m && t < 4 * |source| && t < 4 * |target| ==> ByteAt(target, t) == ByteAt(source, t)
  }

  lemma CopyNothing(before: map<int, seq<int>>, q: int, h: int)
    requires q in before && h in before
    ensures Copied(before, before, q, h, 0)
  {
  }

  lemma CopiedEnough(before: map<int, seq<int>>, now: map<int, seq<int>>, q: int, h: int, m: nat, n: nat)
    requires h in before && q in now && h in now && q != h
    requires CopiedBytes(before[h], now[q], m) && (m == n || m == 4 * (|before[h]| + 2))
    ensures CopiedBytes(before[h], now[q], n)
    ensures (now - {h})[q := now[q]] == now - {h}
  {
  }

  lemma CopyStep(before: map<int, seq<int>>, now: map<int, seq<int>>, q: int, h: int, j: nat, b: int)
    requires q in before && h in before && q != h && Copied(before, now, q, h, j) && j < 4 * |before[q]|
    requires 0 <= b < 256 && (j < 4 * |before[h]| ==> b == ByteAt(before[h], j))
    ensures now[h] == before[h]
    ensures Copied(before, now[q := PutByte(now[q], j, b)], q, h, j + 1)
  {
    var target := PutByte(now[q], j, b);
    forall t {:trigger ByteAt(target, t)} | 0 <= t < j + 1 && t < 4 * |before[h]| && t < 4 * |target|
      ensures ByteAt(target, t) == ByteAt(before[h], t)
    {
      PutByteAt(now[q], j, b, t);
      assert t < j ==> ByteAt(now[q], t) == ByteAt(before[h], t);
    }
  }

  function BlockOf(p: Pointer): int
    requires p.At?
  {
    p.offset / 4 - 1
  }

  /** Words of the block that freeing h produces. */
  ghost function FreedSize(s: Heap, h: int): int
    requires 0 < h < |s.a| && 0 <= Left(s.a, h) < |s.a| && 0 <= Right(s.a, h) < |s.a|
  {
    var l, r := Left(s.a, h), Right(s.a, h);
    (Size(s.a, h) as int) + (if s.a[l] > 0 then Size(s.a, l) else 0) + (if s.a[r] > 0 then Size(s.a, r) else 0)
  }

  lemma FreedSpanSize(s: Heap, h: int)
    requires Valid(s) && h in Live(s)
    ensures 0 < h < |s.a| && 0 <= Left(s.a, h) < |s.a| && 0 <= Right(s.a, h) < |s.a|
    ensures 0 < Lo(s.a, h) && 4 <= FreedSize(s, h) && Hi(s.a, h) == Lo(s.a, h) + FreedSize(s, h) <= |s.a|
  {
    LiveBlock(s, h);
    FreedSpan(s, h);
  }

  lemma AbsorbLeft(s: Heap, h: int)
    requires Valid(s) && h in Live(s)
    ensures 0 < h < |s.a| && 0 <= Left(s.a, h) < |s.a| && 0 <= Right(s.a, h) < |s.a|
    ensures var l, r := Left(s.a, h), Right(s.a, h);
      && Spaced(|s.a|, s.free) && (s.a[l] > 0 ==> l in s.free)
      && var u := Unlist(s, l);
      && Threaded(u, {} + IfFree(s.a, l)) && r in u.headers && r !in {} + IfFree(s.a, l)
      && u.a[r] == s.a[r] && u.a[l] == s.a[l]
  {
    LiveBlock(s, h);
    var l, r := Left(s.a, h), Right(s.a, h);
    UnlistKeepsThreaded(s, {}, l);
    var u := Unlist(s, l);
    assert SameTag(s.a, u.a, r) && SameTag(s.a, u.a, l);
  }

  lemma AbsorbRight(u: Heap, except: set<int>, r: int)
    requires Threaded(u, except) && r in u.headers && r !in except
    ensures 0 <= r < |u.a| && (u.a[r] > 0 ==> r in u.free)
    ensures Unlist(u, r).a[r] == u.a[r]
  {
    UnlistKeepsThreaded(u, except, r);
    assert SameTag(u.a, Unlist(u, r).a, r);
  }

  lemma ReleaseIs(s: Heap, h: int)
    requires Valid(s) && h in Live(s)
    requires 0 < h < |s.a| && 0 <= Left(s.a, h) < |s.a| && 0 <= Right(s.a, h) < |s.a|
    requires s.a[Left(s.a, h)] > 0 ==> Left(s.a, h) in s.free
    requires Spaced(|s.a|, s.free)
    requires var u := Unlist(s, Left(s.a, h)); u.a[Right(s.a, h)] > 0 ==> Right(s.a, h) in u.free
    requires 0 < Lo(s.a, h) && 4 <= FreedSize(s, h) && Hi(s.a, h) == Lo(s.a, h) + FreedSize(s, h) <= |s.a|
    ensures Release(s, h) == JoinInsert(Unlist(Unlist(s, Left(s.a, h)), Right(s.a, h)), Lo(s.a, h), Lo(s.a, h) + FreedSize(s, h))
    ensures Valid(Release(s, h))
  {
    hide Valid, Threaded, Unlist, JoinInsert, Live, Lo, Hi, FreedSize, Left, Right, Spaced;
    ReleaseKeepsValid(s, h);
  }

  lemma FitStep(s: Heap, n: int, k: int)
    requires Valid(s) && 0 <= k <= |s.free| && Nth(s.free, k) != 0
    requires forall i {:trigger s.free[i]} :: 0 <= i < |s.free| ==> 0 <= s.free[i] < |s.a|
    ensures k < |s.free| && 0 < s.free[k] < |s.a| - 1 && s.a[s.free[k]] > 0 && Nth(s.free, k) == s.free[k]
    ensures s.a[s.free[k] + 1] == Nth(s.free, k + 1) && Sane(s.a, Nth(s.free, k + 1))
    ensures FirstFit(s.a, s.free, n, k) == if n <= Size(s.a, s.free[k]) then k else FirstFit(s.a, s.free, n, k + 1)
  {
    ListedIsFree(s, {}, s.free[k]);
    ReadyToRemove(s, k);
    assert LinkedAt(s.a, s.free, k);
  }

  lemma FitEnd(s: Heap, n: int, k: int)
    requires Valid(s) && 0 <= k <= |s.free| && Nth(s.free, k) == 0
    requires forall i {:trigger s.free[i]} :: 0 <= i < |s.free| ==> 0 <= s.free[i] < |s.a|
    ensures k == |s.free| == FirstFit(s.a, s.free, n, k)
  {
    if k < |s.free| { ListedIsFree(s, {}, s.free[k]); }
  }

  lemma SaneNeighbours(s: Heap, except: set<int>, k: int)
    requires Threaded(s, except) && 0 <= k < |s.free|
    ensures Removable(s, k, s.free[k])
  {
    assert k + 1 < |s.free| ==> s.free[k + 1] in s.free;
    assert 0 < k ==> s.free[k - 1] in s.free;
    HeaderIsSane(s, Nth(s.free, k + 1));
    HeaderIsSane(s, Nth(s.free, k - 1));
  }

  lemma HeadIsSane(s: Heap)
    requires Valid(s)
    ensures Sane(s.a, Nth(s.free, 0))
    ensures forall i {:trigger s.free[i]} :: 0 <= i < |s.free| ==> 0 <= s.free[i] < |s.a|
  {
    assert s.free != [] ==> s.free[0] in s.free;
    HeaderIsSane(s, Nth(s.free, 0));
  }

  ghost predicate Removable(s: Heap, k: int, i: int) {
    0 <= k < |s.free| && s.free[k] == i && Sane(s.a, Nth(s.free, k + 1)) && Sane(s.a, Nth(s.free, k - 1))
  }

  lemma ReadyToRemove(s: Heap, k: int)
    requires Valid(s) && 0 <= k < |s.free|
    ensures Removable(s, k, s.free[k]) && Linked(s.a, s.free)
  {
    SaneNeighbours(s, {}, k);
  }
}
