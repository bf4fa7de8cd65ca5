/** Runs of the allocator, and what the raw words alone determine. */
module HeapRuns {
  import opened HeapModel
  import opened HeapSteps
  import opened HeapObjects

  /** Heap::init on len words: whatever they held, one free block between the sentinels. */
  function Initial(a: seq<int>): Heap
    requires |a| >= 8
  {
    var n := |a|;
    Heap(Tag(Push(Tag(Tag(a, 0, 2, -2), 2, n - 4, n - 4), [], 2), n - 2, 2, -2), {0, 2, n - 2}, [2])
  }

  lemma InitialValid(a: seq<int>)
    requires |a| >= 8
    ensures Valid(Initial(a)) && Objects(Initial(a)) == map[]
  {
    var s := Initial(a);
    assert Cell(s.a, s.headers, 0) && Cell(s.a, s.headers, 2) && Cell(s.a, s.headers, |a| - 2);
    assert LinkedAt(s.a, s.free, 0);
    assert Live(s) == {};
  }

  // ---------------------------------------------------------------- requests

  const WORD := 0x1_0000_0000

  /** Words asked of the free list for a request of `bytes`, computed modulo 2^32. */
  function Ints(bytes: nat): nat {
    var n := ((bytes + 3) % WORD) / 4 + 2;
    if n < 4 then 4 else n
  }

  /** The payload of a block of Ints(bytes) words is large enough unless bytes + 3 wraps. */
  lemma IntsEnough(bytes: nat)
    requires bytes < WORD
    ensures 4 <= Ints(bytes)
    ensures bytes <= 4 * (Ints(bytes) - 2) <==> bytes + 3 < WORD
  {
  }

  /** A block of n words serves a request: at least four words, and the payload between its two tags
      has room for the bytes. */
  predicate Serves(n: int, bytes: nat) {
    4 <= n && bytes <= 4 * (n - 2)
  }

  /** What is asked for in effect: when bytes + 3 wraps, as little as can be. */
  function Wanted(bytes: nat): nat {
    if bytes + 3 < WORD then bytes else 0
  }

  /** The block asked for is the smallest that serves: no word more. */
  lemma IntsLeast(bytes: nat)
    requires bytes < WORD
    ensures forall n: int {:trigger Serves(n, Wanted(bytes))} :: Serves(n, Wanted(bytes)) <==> Ints(bytes) <= n
  {
    forall n: int {:trigger Serves(n, Wanted(bytes))} ensures Serves(n, Wanted(bytes)) <==> Ints(bytes) <= n { LeastWords(bytes, n); }
  }

  lemma LeastWords(bytes: nat, n: int)
    requires bytes < WORD
    ensures Serves(n, Wanted(bytes)) <==> Ints(bytes) <= n
  {
    if bytes + 3 < WORD {
      assert (bytes + 3) % WORD == bytes + 3;
    } else {
      assert (bytes + 3) % WORD == bytes + 3 - WORD;
    }
  }

  /** No free block serves. */
  ghost predicate NoneServes(s: Heap, bytes: nat) {
    forall h {:trigger h in s.headers} :: h in s.headers && 0 <= h < |s.a| && s.a[h] > 0 ==> !Serves(s.a[h], bytes)
  }

  /** The k-th block of the free list is the first that serves. */
  ghost predicate FirstServing(s: Heap, bytes: nat, k: nat) {
    && k < |s.free| && 0 <= s.free[k] < |s.a| && s.free[k] in s.headers && Serves(s.a[s.free[k]], bytes)
    && forall j {:trigger s.free[j]} :: 0 <= j < k ==> 0 <= s.free[j] < |s.a| && !Serves(s.a[s.free[j]], bytes)
  }

  /** A payload of n words in a block that serves, with at most three words too many. */
  predicate Snug(n: nat, bytes: nat) {
    Serves(n + 2, bytes) && !Serves(n + 2 - 4, bytes)
  }

  /** The first free block that serves has become an object, and no object is touched. */
  ghost predicate Granted(s: Heap, bytes: nat, t: Heap, k: nat) {
    && FirstServing(s, bytes, k) && s.free[k] !in Objects(s) && s.free[k] in Objects(t)
    && Objects(t) == Objects(s)[s.free[k] := Objects(t)[s.free[k]]] && Snug(|Objects(t)[s.free[k]]|, bytes)
  }

  ghost function Fit(s: Heap, n: int): (k: nat)
    requires Valid(s)
    ensures k <= |s.free|
    ensures k < |s.free| ==> n <= Size(s.a, s.free[k])
  {
    FirstFit(s.a, s.free, n, 0)
  }

  datatype Op = Malloc(bytes: nat) | Free(h: int) | Write(h: int, d: int, v: int)

  /** What a client may do: any request, freeing what it holds, writing inside what it holds. */
  ghost predicate Legal(s: Heap, op: Op)
    requires Valid(s)
  {
    match op
    case Malloc(bytes) => 0 < bytes < WORD
    case Free(h) => h in Objects(s)
    case Write(h, d, v) => h in Objects(s) && 0 <= d < |Objects(s)[h]|
  }

  ghost function Step(s: Heap, op: Op): (t: Heap)
    requires Valid(s) && Legal(s, op)
    ensures Valid(t) && |t.a| == |s.a|
  {
    match op
    case Malloc(bytes) =>
      IntsEnough(bytes);
      var k := Fit(s, Ints(bytes));
      if k < |s.free| then TakeKeepsValid(s, k, Ints(bytes)); Take(s, k, Ints(bytes)) else s
    case Free(h) => ReleaseKeepsValid(s, h); Release(s, h)
    case Write(h, d, v) => StoreObjects(s, h, d, v); Store(s, h + 1 + d, v)
  }

  /** The client's view: a store of independent objects. A request either fails, and then no free
      block serves, or makes an object of the first that does. */
  ghost predicate SpecStep(s: Heap, op: Op, t: Heap)
    requires Valid(s) && Valid(t)
  {
    match op
    case Malloc(bytes) =>
      var need := if bytes + 3 < WORD then bytes else 0;
      || (t == s && NoneServes(s, need))
      || exists k: nat {:trigger Granted(s, need, t, k)} :: Granted(s, need, t, k)
    case Free(h) => h in Objects(s) && Objects(t) == Objects(s) - {h}
    case Write(h, d, v) =>
      && h in Objects(s) && 0 <= d < |Objects(s)[h]|
      && Objects(t) == Objects(s)[h := Objects(s)[h][d := v]]
  }

  lemma StepRefines(s: Heap, op: Op)
    requires Valid(s) && Legal(s, op)
    ensures SpecStep(s, op, Step(s, op))
  {
    hide SpecStep, Step;
    match op
    case Malloc(bytes) => MallocRefines(s, bytes);
    case Free(h) => FreeRefines(s, h);
    case Write(h, d, v) => WriteRefines(s, h, d, v);
  }

  lemma FreeRefines(s: Heap, h: int)
    requires Valid(s) && h in Objects(s)
    ensures SpecStep(s, Free(h), Step(s, Free(h)))
  {
    ReleaseObjects(s, h);
  }

  lemma WriteRefines(s: Heap, h: int, d: int, v: int)
    requires Valid(s) && h in Objects(s) && 0 <= d < |Objects(s)[h]|
    ensures SpecStep(s, Write(h, d, v), Step(s, Write(h, d, v)))
  {
    StoreObjects(s, h, d, v);
  }

  lemma MallocRefines(s: Heap, bytes: nat)
    requires Valid(s) && 0 < bytes < WORD
    ensures SpecStep(s, Malloc(bytes), Step(s, Malloc(bytes)))
  {
    IntsEnough(bytes);
    SearchServes(s, bytes);
    var t, need := Step(s, Malloc(bytes)), if bytes + 3 < WORD then bytes else 0;
    assert Wanted(bytes) == need;
    var k := Fit(s, Ints(bytes));
    if k < |s.free| { assert Granted(s, need, t, k); }
  }

  /** What the search for Ints(bytes) words means in bytes. */
  lemma SearchServes(s: Heap, bytes: nat)
    requires Valid(s) && 0 < bytes < WORD
    ensures 4 <= Ints(bytes)
    ensures var k := Fit(s, Ints(bytes));
      if k < |s.free| then Valid(Take(s, k, Ints(bytes))) && Granted(s, Wanted(bytes), Take(s, k, Ints(bytes)), k) else NoneServes(s, Wanted(bytes))
  {
    var n := Ints(bytes);
    IntsEnough(bytes);
    IntsLeast(bytes);
    var k := Fit(s, n);
    if k < |s.free| {
      TakeObjects(s, k, n);
      FitFirst(s, bytes, k);
    } else {
      forall h {:trigger h in s.headers} | h in s.headers && 0 <= h < |s.a| && s.a[h] > 0
        ensures !Serves(s.a[h], Wanted(bytes))
      {
        assert Sorted(s.a, s.free, {}, h);
      }
    }
  }

  lemma FitFirst(s: Heap, bytes: nat, k: nat)
    requires Valid(s) && 0 < bytes < WORD && k == Fit(s, Ints(bytes)) && k < |s.free|
    ensures FirstServing(s, Wanted(bytes), k)
  {
    IntsLeast(bytes);
    ListedIsFree(s, {}, s.free[k]);
    forall j {:trigger s.free[j]} | 0 <= j < k
      ensures 0 <= s.free[j] < |s.a| && !Serves(s.a[s.free[j]], Wanted(bytes))
    {
      ListedIsFree(s, {}, s.free[j]);
    }
  }

  ghost predicate Run(s: Heap, ops: seq<Op>, t: Heap)
    requires Valid(s)
    decreases |ops|
  {
    if ops == [] then t == s else Legal(s, ops[0]) && Run(Step(s, ops[0]), ops[1..], t)
  }

  ghost predicate Touches(op: Op, h: int) {
    match op
    case Malloc(_) => false
    case Free(g) => g == h
    case Write(g, _, _) => g == h
  }

  /** Over any run, an object that the client neither frees nor writes keeps every word, and
      no request is ever answered with it. */
  lemma {:induction false} RunKeepsObject(s: Heap, ops: seq<Op>, t: Heap, h: int)
    requires Valid(s) && Run(s, ops, t) && h in Objects(s)
    requires forall i :: 0 <= i < |ops| ==> !Touches(ops[i], h)
    ensures Valid(t) && h in Objects(t) && Objects(t)[h] == Objects(s)[h]
    decreases |ops|
  {
    if ops != [] {
      var u := Step(s, ops[0]);
      StepKeepsObject(s, ops[0], h);
      RunKeepsObject(u, ops[1..], t, h);
    }
  }

  lemma StepKeepsObject(s: Heap, op: Op, h: int)
    requires Valid(s) && Legal(s, op) && h in Objects(s) && !Touches(op, h)
    ensures h in Objects(Step(s, op)) && Objects(Step(s, op))[h] == Objects(s)[h]
  {
    hide Step, Valid, Objects, SpecStep;
    StepRefines(s, op);
    SpecKeeps(s, op, Step(s, op), h);
  }

  lemma GrantedKeeps(s: Heap, bytes: nat, t: Heap, k: nat, h: int)
    requires Granted(s, bytes, t, k) && h in Objects(s)
    ensures h in Objects(t) && Objects(t)[h] == Objects(s)[h]
  {
  }

  lemma SpecKeeps(s: Heap, op: Op, t: Heap, h: int)
    requires Valid(s) && Valid(t) && SpecStep(s, op, t) && h in Objects(s) && !Touches(op, h)
    ensures h in Objects(t) && Objects(t)[h] == Objects(s)[h]
  {
    hide Valid, Objects, FirstServing, NoneServes, Snug;
    match op
    case Malloc(bytes) =>
      var need := if bytes + 3 < WORD then bytes else 0;
      if t != s {
        var k: nat :| Granted(s, need, t, k);
        GrantedKeeps(s, need, t, k, h);
      }
    case Free(g) =>
    case Write(g, d, v) =>
  }

  lemma {:induction false} RunKeepsValid(s: Heap, ops: seq<Op>, t: Heap)
    requires Valid(s) && Run(s, ops, t)
    ensures Valid(t) && |t.a| == |s.a|
    decreases |ops|
  {
    if ops != [] { RunKeepsValid(Step(s, ops[0]), ops[1..], t); }
  }

  // ---------------------------------------------------------------- an empty heap is a fresh heap

  lemma NothingLive(s: Heap, h: int)
    requires Valid(s) && Objects(s) == map[] && h in s.headers
    ensures h == 0 || h == |s.a| - 2 || (0 < h < |s.a| && s.a[h] >= 4)
  {
    assert Cell(s.a, s.headers, h);
    assert h !in Objects(s);
  }

  lemma OneFreeBlock(s: Heap)
    requires Valid(s) && Objects(s) == map[]
    ensures 2 in s.headers && s.a[2] == |s.a| - 4
  {
    assert Cell(s.a, s.headers, 0);
    NothingLive(s, 2);
    assert Cell(s.a, s.headers, 2) && Fenced(s.a, 2);
    NothingLive(s, Right(s.a, 2));
  }

  /** Once no object is live, in whatever order the blocks were freed, the heap is back to one
      free block of len - 4 words at index 2, alone on the list. */
  lemma AllFreed(s: Heap)
    requires Valid(s) && Objects(s) == map[]
    ensures s.headers == {0, 2, |s.a| - 2} && s.free == [2] && s.a[2] == |s.a| - 4
  {
    OneFreeBlock(s);
    assert Cell(s.a, s.headers, 0) && Cell(s.a, s.headers, 2) && Cell(s.a, s.headers, |s.a| - 2);
    forall h | h in s.headers
      ensures h in {0, 2, |s.a| - 2}
    {
      assert h == 0 || Apart(s.a, 0, h);
      assert h <= 2 || Apart(s.a, 2, h);
      assert h <= |s.a| - 2 || Apart(s.a, |s.a| - 2, h);
      NothingLive(s, h);
    }
    assert Sorted(s.a, s.free, {}, 2);
    forall i {:trigger s.free[i]} | 0 <= i < |s.free|
      ensures s.free[i] == 2
    {
      ListedIsFree(s, {}, s.free[i]);
    }
    if |s.free| > 1 { NodesDiffer(|s.a|, s.free, 0, 1); }
  }

  lemma NodesDiffer(n: int, f: seq<int>, i: int, j: int)
    requires Spaced(n, f) && 0 <= i < j < |f|
    ensures f[i] != f[j]
  {
  }

  /** After any run from initialization that ends with nothing live, the whole space can be
      requested again. */
  lemma RunRestores(a: seq<int>, ops: seq<Op>, t: Heap)
    requires |a| >= 8 && Valid(Initial(a)) && Run(Initial(a), ops, t)
    requires Valid(t) && Objects(t) == map[]
    ensures t.free == [2] && t.a[2] == |a| - 4
    ensures forall n: nat :: 4 <= n <= |a| - 4 ==> Fit(t, n) == 0
  {
    RunKeepsValid(Initial(a), ops, t);
    AllFreed(t);
  }

  // ---------------------------------------------------------------- the raw words determine the blocks

  /** The block starts met when walking the array by block size. */
  function Walk(a: seq<int>, i: int): (w: seq<int>)
    ensures forall k :: 0 <= k < |w| ==> 0 <= w[k] < |a|
    decreases |a| - i
  {
    if 0 <= i < |a| && a[i] != 0 then [i] + Walk(a, Right(a, i)) else []
  }

  function Total(a: seq<int>, w: seq<int>): nat
    requires forall k :: 0 <= k < |w| ==> 0 <= w[k] < |a|
  {
    if w == [] then 0 else Size(a, w[0]) + Total(a, w[1..])
  }

  /** `headers` is what the words say: a walk by sizes from index 0 meets exactly those block
      starts, and their sizes add up to the length of the array. */
  lemma {:induction false} WalkMeetsHeaders(a: seq<int>, hs: set<int>, i: int)
    requires Tiled(a, hs) && (i in hs || i == |a|)
    ensures forall h :: h in Walk(a, i) <==> h in hs && i <= h
    ensures 0 <= i <= |a| && Total(a, Walk(a, i)) == |a| - i
    decreases |a| - i
  {
    if i in hs {
      assert Cell(a, hs, i);
      var r := Right(a, i);
      WalkMeetsHeaders(a, hs, r);
      assert Walk(a, i) == [i] + Walk(a, r);
      forall h ensures h in Walk(a, i) <==> h in hs && i <= h
      {
        assert h in hs && i < h ==> Apart(a, i, h);
      }
    } else {
      forall h | h in hs ensures h < i { assert Cell(a, hs, h); }
    }
  }
}
