/** The state of OpenFile::write from one iteration of its loop to the next. */
module FatWrite {
  import opened FatModel

  /** What the file system changes: the FAT, the head of the free chain, the sectors. */
  datatype Vol = Vol(fat: seq<int>, avail: int, disk: seq<seq<byte>>)

  /** One call: the volume, the file's chain and the free chain before it, and the new bytes. */
  datatype Job = Job(v: Vol, c: seq<int>, f: seq<int>, buf: seq<byte>)

  ghost predicate Ready(job: Job) {
    && IsChain(job.v.fat, job.c) && IsChain(job.v.fat, job.f) && Separate(job.c, job.f) && job.c != []
    && job.v.avail == Nth(job.f, 0) && 0 < |job.v.fat| == |job.v.disk| && job.v.fat[0] == 0
    && Sectors(job.v.disk) && |job.buf| < 0x1_0000_0000
  }

  /** The file's chain once g free blocks have been appended to it. */
  function Chain(job: Job, g: int): seq<int>
    requires 0 <= g <= |job.f|
  {
    job.c + job.f[..g]
  }

  /** Bytes of an n-byte buffer that fit in the first i blocks. */
  function Reached(n: nat, i: nat): nat {
    if i == 0 then 0 else if SECTOR * i - 8 <= n then SECTOR * i - 8 else n
  }

  /** Bytes that the i-th iteration writes. */
  function Chunk(n: nat, i: nat): nat {
    if i == 0 then (if 504 < n then 504 else n) else if 512 < n - Reached(n, i) then 512 else n - Reached(n, i)
  }

  lemma ReachedNext(n: nat, i: nat)
    ensures Reached(n, i + 1) == Reached(n, i) + Chunk(n, i) && Reached(n, i) <= n
    ensures Reached(n, i) < n ==> i < Blocks(n)
    ensures n > 0 && Reached(n, i) == n ==> Blocks(n) <= i
  {
  }

  /** A sector as the device leaves it: the metadata if it is the first, then the data. */
  ghost predicate Written(sector: seq<byte>, data: seq<byte>, first: bool, n: nat) {
    && |sector| == SECTOR
    && if first then |data| + 8 <= SECTOR && sector[4..8] == Little(n) && sector[8..8 + |data|] == data
       else |data| <= SECTOR && sector[..|data|] == data
  }

  ghost predicate Linked(job: Job, v: Vol, g: int) {
    && 0 <= g <= |job.f| && 0 < |v.fat| == |job.v.fat| && v.fat[0] == 0
    && IsChain(v.fat, Chain(job, g)) && IsChain(v.fat, job.f[g..]) && Separate(Chain(job, g), job.f[g..])
    && v.avail == Nth(job.f[g..], 0)
  }

  ghost predicate Stored(job: Job, v: Vol, i: nat, g: int)
    requires 0 <= g <= |job.f| && job.c != []
  {
    var c := Chain(job, g);
    && |v.disk| == |job.v.disk| && OnDisk(v.disk, c)
    && Reached(|job.buf|, i) <= |job.buf|
    && Holds(v.disk, c, job.buf, Reached(|job.buf|, if i <= |c| then i else |c|))
    && (i > 0 ==> v.disk[c[0]][4..8] == Little(|job.buf|))
  }

  /** Outside the two chains only sector 0 can have changed. */
  ghost predicate Framed(job: Job, v: Vol) {
    && |v.fat| == |job.v.fat| == |v.disk| == |job.v.disk|
    && (forall b {:trigger v.fat[b]} :: 0 < b < |v.fat| && b !in job.c && b !in job.f ==> v.fat[b] == job.v.fat[b])
    && (forall b {:trigger v.disk[b]} :: 0 < b < |v.disk| && b !in job.c && b !in job.f ==> v.disk[b] == job.v.disk[b])
  }

  /** After i iterations, with g blocks appended. Once the free chain has run out the loop goes
      on with block 0. */
  ghost predicate InLoop(job: Job, v: Vol, i: nat, g: int) {
    && Ready(job) && Linked(job, v, g) && Stored(job, v, i, g) && Framed(job, v)
    && (i <= |Chain(job, g)| || g == |job.f|) && (g > 0 ==> |Chain(job, g)| <= i + 1)
  }

  /** No block is appended before it is needed. */
  ghost predicate Thrifty(job: Job, i: nat, g: int) {
    0 <= g <= |job.f| && (g > 0 ==> |Chain(job, g)| <= i)
  }

  function Current(job: Job, g: int, i: nat): int
    requires 0 <= g <= |job.f|
  {
    Nth(Chain(job, g), i)
  }

  function Previous(job: Job, g: int, i: nat): int
    requires 0 <= g <= |job.f|
  {
    if i == 0 then 0 else Nth(Chain(job, g), i - 1)
  }

  lemma LoopStart(job: Job)
    requires Ready(job)
    ensures InLoop(job, job.v, 0, 0)
  {
    assert Chain(job, 0) == job.c && job.f[0..] == job.f;
    forall i {:trigger job.c[i]} | 0 <= i < |job.c|
      ensures 0 <= job.c[i] < |job.v.disk|
    {
      assert LinkAt(job.v.fat, job.c, i);
    }
  }

  /** The volume after a free block is taken and linked behind `old`. */
  function Extended(v: Vol, old_: int): Vol
    requires 0 <= v.avail < |v.fat| && 0 <= old_ < |v.fat|
  {
    Vol(v.fat[v.avail := 0][old_ := v.avail], v.fat[v.avail], v.disk)
  }

  lemma GrowLinked(job: Job, v: Vol, i: nat, g: int)
    requires InLoop(job, v, i, g) && i == |Chain(job, g)| && g < |job.f|
    ensures 0 < Previous(job, g, i) < |v.fat| && 0 < v.avail < |v.fat|
    ensures v.avail == job.f[g] && Chain(job, g + 1) == Chain(job, g) + [job.f[g]]
    ensures Linked(job, Extended(v, Previous(job, g, i)), g + 1)
  {
    var c, f := Chain(job, g), job.f[g..];
    GrowChains(v.fat, c, f);
    assert c + [f[0]] == Chain(job, g + 1) && f[1..] == job.f[g + 1..];
    assert LinkAt(v.fat, f, 0);
    assert Nth(f[1..], 0) == Nth(f, 1);
  }

  lemma GrowStored(job: Job, v: Vol, i: nat, g: int)
    requires InLoop(job, v, i, g) && i == |Chain(job, g)| && g < |job.f| && 0 < job.f[g] < |v.fat|
    ensures Stored(job, v, i, g + 1)
  {
    var c, d := Chain(job, g), Chain(job, g + 1);
    assert d == c + [job.f[g]];
    var m := Reached(|job.buf|, i);
    forall j {:trigger ByteIs(v.disk, d, job.buf, j)} | 0 <= j < m
      ensures ByteIs(v.disk, d, job.buf, j)
    {
      assert ByteIs(v.disk, c, job.buf, j);
    }
  }

  lemma ChainMembers(job: Job, g: int, i: int)
    requires 0 <= g <= |job.f| && 0 <= i < |Chain(job, g)|
    ensures Chain(job, g)[i] in job.c || Chain(job, g)[i] in job.f
  {
  }

  /** Appending a free block when the chain is used up. */
  lemma GrowStep(job: Job, v: Vol, i: nat, g: int)
    requires InLoop(job, v, i, g) && i == |Chain(job, g)| && g < |job.f|
    ensures 0 < Previous(job, g, i) < |v.fat| && 0 < v.avail < |v.fat|
    ensures InLoop(job, Extended(v, Previous(job, g, i)), i, g + 1)
    ensures Current(job, g + 1, i) == v.avail && Previous(job, g + 1, i) == Previous(job, g, i)
  {
    GrowLinked(job, v, i, g);
    GrowStored(job, v, i, g);
    ChainMembers(job, g, i - 1);
  }

  /** With no free block left the "appended" block is block 0 and the FAT stays as it is. */
  lemma NoGrowStep(job: Job, v: Vol, i: nat, g: int)
    requires InLoop(job, v, i, g) && |Chain(job, g)| <= i && g == |job.f|
    ensures v.avail == 0 && 0 <= Previous(job, g, i) < |v.fat|
    ensures Extended(v, Previous(job, g, i)) == v && Current(job, g, i) == 0
  {
    var c := Chain(job, g);
    if i == |c| { assert LinkAt(v.fat, c, i - 1); }
    assert v.fat[v.avail := 0][Previous(job, g, i) := v.avail] == v.fat;
  }

  function WithSector(v: Vol, block: int, sector: seq<byte>): Vol
    requires 0 <= block < |v.disk|
  {
    v.(disk := v.disk[block := sector])
  }

  /** The block number of byte j and its place there, when j is one of the bytes written now. */
  lemma WriteByte(job: Job, v: Vol, i: nat, g: int, sector: seq<byte>, j: nat)
    requires InLoop(job, v, i, g) && i < |Chain(job, g)|
    requires Reached(|job.buf|, i) < |job.buf|
    requires Written(sector, job.buf[Reached(|job.buf|, i)..Reached(|job.buf|, i) + Chunk(|job.buf|, i)], i == 0, |job.buf|)
    requires j < Reached(|job.buf|, i + 1)
    ensures 0 <= Current(job, g, i) < |v.disk|
    ensures OnDisk(WithSector(v, Current(job, g, i), sector).disk, Chain(job, g))
    ensures ByteIs(WithSector(v, Current(job, g, i), sector).disk, Chain(job, g), job.buf, j)
  {
    var c, n := Chain(job, g), |job.buf|;
    var r := Reached(n, i);
    ReachedNext(n, i);
    assert LinkAt(v.fat, c, i);
    var after := WithSector(v, c[i], sector);
    if j < r {
      assert ByteIs(v.disk, c, job.buf, j);
      assert c[(j + 8) / SECTOR] != c[i];
    } else {
      assert (j + 8) / SECTOR == i;
      WrittenAt(sector, job.buf[r..r + Chunk(n, i)], i == 0, n, j - r);
      assert job.buf[r..r + Chunk(n, i)][j - r] == job.buf[j];
    }
  }

  lemma WrittenAt(sector: seq<byte>, data: seq<byte>, first: bool, n: nat, k: nat)
    requires Written(sector, data, first, n) && k < |data|
    ensures sector[if first then 8 + k else k] == data[k]
  {
    if first {
      assert sector[8..8 + |data|][k] == sector[8 + k];
    } else {
      assert sector[..|data|][k] == sector[k];
    }
  }

  /** One sector written inside the chain. */
  lemma WriteStep(job: Job, v: Vol, i: nat, g: int, sector: seq<byte>)
    requires InLoop(job, v, i, g) && i < |Chain(job, g)| && Reached(|job.buf|, i) < |job.buf|
    requires Written(sector, job.buf[Reached(|job.buf|, i)..Reached(|job.buf|, i) + Chunk(|job.buf|, i)], i == 0, |job.buf|)
    ensures 0 < Current(job, g, i) < |v.disk|
    ensures InLoop(job, WithSector(v, Current(job, g, i), sector), i + 1, g) && Thrifty(job, i + 1, g)
  {
    var c, n := Chain(job, g), |job.buf|;
    assert LinkAt(v.fat, c, i);
    var after := WithSector(v, c[i], sector);
    forall j {:trigger ByteIs(after.disk, c, job.buf, j)} | 0 <= j < Reached(n, i + 1)
      ensures ByteIs(after.disk, c, job.buf, j)
    {
      WriteByte(job, v, i, g, sector, j);
    }
    ReachedNext(n, i + 1);
    ChainMembers(job, g, i);
    assert i > 0 ==> c[0] != c[i];
  }

  lemma ChainUsedUp(job: Job, v: Vol, i: nat, g: int)
    requires InLoop(job, v, i, g) && Current(job, g, i) == 0
    ensures |Chain(job, g)| <= i
  {
    if i < |Chain(job, g)| { CurrentBlock(job, v, i, g); }
  }

  lemma PreviousInFat(job: Job, v: Vol, i: nat, g: int)
    requires InLoop(job, v, i, g)
    ensures 0 <= Previous(job, g, i) < |v.fat|
  {
    if 0 < i <= |Chain(job, g)| { assert LinkAt(v.fat, Chain(job, g), i - 1); }
  }

  lemma CurrentBlock(job: Job, v: Vol, i: nat, g: int)
    requires InLoop(job, v, i, g) && i < |Chain(job, g)|
    ensures 0 < Current(job, g, i) < |v.disk|
  {
    assert LinkAt(v.fat, Chain(job, g), i);
  }

  /** With the free chain used up the data goes to sector 0. */
  lemma WriteNowhere(job: Job, v: Vol, i: nat, g: int, sector: seq<byte>)
    requires InLoop(job, v, i, g) && |Chain(job, g)| <= i && g == |job.f| && |sector| == SECTOR
    ensures InLoop(job, WithSector(v, 0, sector), i + 1, g) && Thrifty(job, i + 1, g)
  {
    var c, n := Chain(job, g), |job.buf|;
    var after := WithSector(v, 0, sector);
    forall k {:trigger c[k]} | 0 <= k < |c|
      ensures c[k] != 0
    {
      assert LinkAt(v.fat, c, k);
    }
    forall j {:trigger ByteIs(after.disk, c, job.buf, j)} | 0 <= j < Reached(n, |c|)
      ensures ByteIs(after.disk, c, job.buf, j)
    {
      assert ByteIs(v.disk, c, job.buf, j);
    }
    ReachedNext(n, i + 1);
    ReachedNext(n, |c|);
  }

  /** Following the FAT from the block just written. */
  lemma NextBlock(job: Job, v: Vol, i: nat, g: int)
    requires InLoop(job, v, i + 1, g)
    ensures 0 <= Current(job, g, i) < |v.fat| && v.fat[Current(job, g, i)] == Current(job, g, i + 1)
    ensures Previous(job, g, i + 1) == Current(job, g, i)
  {
    if i < |Chain(job, g)| { assert LinkAt(v.fat, Chain(job, g), i); }
  }

  // ---------------------------------------------------------------- after the loop

  /** What the caller must check: something to write, room for it, and a free chain to give the
      surplus blocks to. */
  predicate Enough(job: Job) {
    var need := Blocks(|job.buf|);
    |job.buf| > 0 && need <= |job.c| + |job.f| && (need < |job.c| ==> job.f != [])
  }

  function NewChain(job: Job): seq<int>
    requires Enough(job)
  {
    var need := Blocks(|job.buf|);
    if need <= |job.c| then job.c[..need] else Chain(job, need - |job.c|)
  }

  function NewFree(job: Job): seq<int>
    requires Enough(job)
  {
    var need := Blocks(|job.buf|);
    if need <= |job.c| then job.f + job.c[need..] else job.f[need - |job.c|..]
  }

  /** The last block of the free chain, or block 0 when there is none. */
  function Tail(f: seq<int>): int {
    if f == [] then 0 else f[|f| - 1]
  }

  /** addToAvail(block), then the file's chain is cut behind `last`. */
  function GivenBack(v: Vol, f: seq<int>, block: int, last: int): Vol
    requires 0 <= Tail(f) < |v.fat| && 0 <= last < |v.fat|
  {
    v.(fat := v.fat[Tail(f) := block][last := 0])
  }

  /** Everything a write that fits achieves. */
  ghost predicate Finished(job: Job, v: Vol)
    requires Enough(job)
  {
    var d, g := NewChain(job), NewFree(job);
    && job.c != [] && 0 < |v.fat| == |job.v.fat| && v.fat[0] == 0 && IsChain(v.fat, d) && IsChain(v.fat, g) && Separate(d, g) && v.avail == Nth(g, 0)
    && 0 < |d| == Blocks(|job.buf|) && d[0] == job.c[0] && SameMembers(job.c, job.f, d, g)
    && OnDisk(v.disk, d) && Holds(v.disk, d, job.buf, |job.buf|) && v.disk[d[0]][4..8] == Little(|job.buf|)
    && Framed(job, v)
  }

  ghost predicate AtEnd(job: Job, v: Vol, i: nat, g: int) {
    InLoop(job, v, i, g) && Thrifty(job, i, g) && i == Blocks(|job.buf|) && |job.buf| > 0 && Reached(|job.buf|, i) == |job.buf|
  }

  lemma SliceMembers(c: seq<int>, f: seq<int>, k: int)
    requires 0 <= k <= |f|
    ensures SameMembers(c, f, c + f[..k], f[k..])
  {
    assert f == f[..k] + f[k..];
  }

  lemma FinishGrown(job: Job, v: Vol, i: nat, g: int)
    requires AtEnd(job, v, i, g) && |Chain(job, g)| <= i && i <= |job.c| + |job.f|
    ensures Enough(job) && Finished(job, v)
  {
    var c := Chain(job, g);
    assert |c| == i;
    SliceMembers(job.c, job.f, g);
    if i <= |job.c| {
      assert job.c[..i] == c && job.f + job.c[i..] == job.f[g..];
    }
    assert Blocks(|job.buf|) >= 1;
  }

  lemma FinishShrunk(job: Job, v: Vol, i: nat, g: int)
    requires AtEnd(job, v, i, g) && i < |Chain(job, g)| && job.f != []
    ensures g == 0 && Enough(job) && 0 < Tail(job.f) < |v.fat| && 0 < Previous(job, g, i) < |v.fat|
    ensures Finished(job, GivenBack(v, job.f, Current(job, g, i), Previous(job, g, i)))
  {
    assert Chain(job, 0) == job.c && job.f[0..] == job.f;
    var c, f := job.c, job.f;
    ShrinkChains(v.fat, c, f, i);
    SliceMembers(f, c, i);
    var after := GivenBack(v, f, c[i], c[i - 1]);
    assert c[i - 1] in c && f[|f| - 1] in f;
    forall j {:trigger ByteIs(after.disk, c[..i], job.buf, j)} | 0 <= j < |job.buf|
      ensures ByteIs(after.disk, c[..i], job.buf, j)
    {
      assert ByteIs(v.disk, c, job.buf, j);
    }
    assert SameMembers(c, f, c[..i], f + c[i..]);
    assert IsChain(after.fat, f + c[i..]) && Nth(f + c[i..], 0) == f[0];
  }

  /** Room runs out: the file's chain takes the whole free chain and is still too short. */
  lemma Overrun(job: Job, v: Vol, i: nat, g: int)
    requires AtEnd(job, v, i, g) && |job.c| + |job.f| < i
    ensures !Enough(job) && Current(job, g, i) == 0
    ensures IsChain(v.fat, job.c + job.f) && v.avail == 0
  {
    assert Chain(job, |job.f|) == job.c + job.f;
  }

  /** Shrinking with an empty free chain: entry 0 of the FAT is set, but no chain leads to the
      blocks that were cut off. */
  lemma Leaked(job: Job, v: Vol, i: nat, g: int)
    requires AtEnd(job, v, i, g) && i < |Chain(job, g)| && job.f == []
    ensures !Enough(job) && g == 0 && 0 < i < |job.c| && Current(job, g, i) == job.c[i] && 0 < Previous(job, g, i) < |v.fat|
    ensures var after := GivenBack(v, job.f, Current(job, g, i), Previous(job, g, i)); IsChain(after.fat, job.c[..i]) && after.avail == 0
  {
    assert Chain(job, 0) == job.c && job.f[0..] == job.f;
    assert LinkAt(v.fat, job.c, i - 1);
    var after := GivenBack(v, job.f, job.c[i], job.c[i - 1]);
    forall k {:trigger LinkAt(after.fat, job.c[..i], k)} | 0 <= k < i
      ensures LinkAt(after.fat, job.c[..i], k)
    {
      assert LinkAt(v.fat, job.c, k);
    }
  }

  /** Writing nothing while free blocks exist: the file's blocks are on the free chain too. */
  lemma EmptyWrite(job: Job)
    requires Ready(job) && job.f != []
    ensures 0 < Tail(job.f) < |job.v.fat|
    ensures var after := GivenBack(job.v, job.f, job.c[0], 0); IsChain(after.fat, job.c) && IsChain(after.fat, job.f + job.c)
  {
    var fat, c, f := job.v.fat, job.c, job.f;
    assert LinkAt(fat, f, |f| - 1);
    assert f[|f| - 1] in f;
    var after := GivenBack(job.v, f, c[0], 0).fat;
    forall k {:trigger LinkAt(after, c, k)} | 0 <= k < |c|
      ensures LinkAt(after, c, k)
    {
      assert LinkAt(fat, c, k) && c[k] in c;
    }
    forall k {:trigger LinkAt(after, f + c, k)} | 0 <= k < |f + c|
      ensures LinkAt(after, f + c, k)
    {
      if k < |f| { assert LinkAt(fat, f, k) && f[k] in f; } else { assert LinkAt(after, c, k - |f|); }
    }
  }

  /** Writing nothing with no free block changes nothing. */
  lemma EmptyWriteFull(job: Job)
    requires Ready(job) && job.f == []
    ensures GivenBack(job.v, job.f, job.c[0], 0) == job.v
  {
    assert job.v.fat[0 := job.c[0]][0 := 0] == job.v.fat;
  }

  lemma LoopBounds(job: Job, v: Vol, i: nat, g: int)
    requires InLoop(job, v, i, g)
    ensures (i < |Chain(job, g)| || g == |job.f| || i == |Chain(job, g)|) && |v.fat| == |v.disk|
  {
  }

  lemma EndReached(job: Job, v: Vol, i: nat, g: int)
    requires InLoop(job, v, i, g) && Thrifty(job, i, g) && |job.buf| > 0 && Reached(|job.buf|, i) == |job.buf|
    requires i <= Blocks(|job.buf|)
    ensures AtEnd(job, v, i, g)
  {
    ReachedNext(|job.buf|, i);
  }
}
