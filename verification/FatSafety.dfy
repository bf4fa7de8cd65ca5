/** When a write keeps the blocks soundly split between the free chain and the files. */
module FatSafety {
  import opened FatModel
  import opened FatWrite

  ghost predicate Split(v: Vol, files: map<int, seq<int>>, first: int, d: seq<int>, g: seq<int>, s: int) {
    Partition(v.fat, v.avail, g, files[s := d], first)
  }

  /** Some split of the blocks into a free chain and file chains is sound, with every file but
      the one that starts at s as before. */
  ghost predicate Whole(v: Vol, files: map<int, seq<int>>, first: int, s: int) {
    exists d, g {:trigger Split(v, files, first, d, g, s)} :: Split(v, files, first, d, g, s)
  }

  /** The same with `need` blocks in the file that starts at s. */
  ghost predicate Sound(v: Vol, files: map<int, seq<int>>, first: int, s: int, need: nat) {
    exists d, g {:trigger Split(v, files, first, d, g, s)} :: |d| == need && Split(v, files, first, d, g, s)
  }

  /** The job comes from the file that starts at s on a soundly split volume. */
  ghost predicate JobFor(job: Job, files: map<int, seq<int>>, first: int, s: int) {
    Ready(job) && Partition(job.v.fat, job.v.avail, job.f, files, first) && s in files && job.c == files[s] && job.c[0] == s
  }

  lemma FinishedPartition(job: Job, v: Vol, files: map<int, seq<int>>, first: int, s: int)
    requires JobFor(job, files, first, s) && Enough(job) && Finished(job, v)
    ensures Partition(v.fat, v.avail, NewFree(job), files[s := NewChain(job)], first)
    ensures Sound(v, files, first, s, Blocks(|job.buf|))
  {
    PartitionMoved(job.v.fat, job.v.avail, job.f, files, first, v.fat, s, NewChain(job), NewFree(job));
    assert Split(v, files, first, NewChain(job), NewFree(job), s);
  }

  /** In any split the two chains are those that the FAT leads to. */
  lemma SplitChains(v: Vol, files: map<int, seq<int>>, first: int, d: seq<int>, g: seq<int>, s: int, c: seq<int>, f: seq<int>)
    requires Split(v, files, first, d, g, s)
    requires IsChain(v.fat, c) && IsChain(v.fat, f) && Nth(c, 0) == s && Nth(f, 0) == v.avail
    ensures d == c && g == f && Separate(c, f)
  {
    assert FileChain(v.fat, g, files[s := d], s);
    ChainUnique(v.fat, d, c);
    ChainUnique(v.fat, g, f);
  }

  lemma OverrunUnsound(job: Job, v: Vol, files: map<int, seq<int>>, first: int, s: int)
    requires JobFor(job, files, first, s) && IsChain(v.fat, job.c + job.f) && v.avail == 0
    requires |job.c| + |job.f| < Blocks(|job.buf|)
    ensures !Sound(v, files, first, s, Blocks(|job.buf|))
  {
    forall d, g {:trigger Split(v, files, first, d, g, s)} | Split(v, files, first, d, g, s)
      ensures |d| != Blocks(|job.buf|)
    {
      SplitChains(v, files, first, d, g, s, job.c + job.f, []);
    }
  }

  lemma SplitOwns(v: Vol, files: map<int, seq<int>>, first: int, d: seq<int>, g: seq<int>, s: int, b: int)
    requires Split(v, files, first, d, g, s) && first <= b < |v.fat|
    ensures Owned(g, files[s := d], b)
  {
  }

  /** A block cut off a file and put nowhere else belongs to nothing. */
  lemma LostBlock(job: Job, files: map<int, seq<int>>, first: int, s: int, k: int)
    requires JobFor(job, files, first, s) && 0 < k < |job.c|
    ensures first <= job.c[k] < |job.v.fat| && !Owned([], files[s := job.c[..k]], job.c[k])
  {
    var b := job.c[k];
    assert FileChain(job.v.fat, job.f, files, s) && b in files[s];
    assert Owned(job.f, files, b);
    forall t | t in files && t != s
      ensures b !in files[t]
    {
      assert Disjoint(files[s], files[t]);
    }
    assert b !in job.c[..k];
  }

  lemma LeakedUnsound(job: Job, v: Vol, files: map<int, seq<int>>, first: int, s: int, k: int)
    requires JobFor(job, files, first, s) && |v.fat| == |job.v.fat|
    requires 0 < k < |job.c| && IsChain(v.fat, job.c[..k]) && v.avail == 0
    ensures !Whole(v, files, first, s)
  {
    LostBlock(job, files, first, s, k);
    forall d, g {:trigger Split(v, files, first, d, g, s)}
      ensures !Split(v, files, first, d, g, s)
    {
      if Split(v, files, first, d, g, s) {
        SplitOwns(v, files, first, d, g, s, job.c[k]);
        SplitChains(v, files, first, d, g, s, job.c[..k], []);
      }
    }
  }

  lemma EmptyWriteUnsound(job: Job, v: Vol, files: map<int, seq<int>>, first: int, s: int)
    requires JobFor(job, files, first, s) && job.f != [] && v.avail == job.v.avail
    requires IsChain(v.fat, job.c) && IsChain(v.fat, job.f + job.c)
    ensures !Whole(v, files, first, s)
  {
    assert job.c[0] in job.c && job.c[0] in job.f + job.c;
    forall d, g {:trigger Split(v, files, first, d, g, s)}
      ensures !Split(v, files, first, d, g, s)
    {
      if Split(v, files, first, d, g, s) {
        SplitChains(v, files, first, d, g, s, job.c, job.f + job.c);
      }
    }
  }

  lemma UnchangedWhole(job: Job, files: map<int, seq<int>>, first: int, s: int)
    requires JobFor(job, files, first, s)
    ensures Whole(job.v, files, first, s)
  {
    assert files[s := job.c] == files;
    assert Split(job.v, files, first, job.c, job.f, s);
  }

  /** What the FAT and the free chain look like when write returns, case by case. */
  ghost predicate Outcome(job: Job, v: Vol) {
    var need := Blocks(|job.buf|);
    && |v.fat| == |job.v.fat|
    && (Enough(job) ==> Finished(job, v))
    && (|job.buf| > 0 && |job.c| + |job.f| < need ==> IsChain(v.fat, job.c + job.f) && v.avail == 0)
    && (|job.buf| > 0 && need < |job.c| && job.f == [] ==> 0 < need && IsChain(v.fat, job.c[..need]) && v.avail == 0)
    && (|job.buf| == 0 && job.f == [] ==> v == job.v)
    && (|job.buf| == 0 && job.f != [] ==> IsChain(v.fat, job.c) && IsChain(v.fat, job.f + job.c) && v.avail == job.v.avail)
  }

  /** The exact condition under which a write keeps the blocks soundly split. */
  lemma WriteVerdict(job: Job, v: Vol, files: map<int, seq<int>>, first: int, s: int)
    requires JobFor(job, files, first, s) && Outcome(job, v)
    ensures |job.buf| > 0 ==> (Enough(job) <==> Sound(v, files, first, s, Blocks(|job.buf|)))
    ensures |job.buf| == 0 ==> (job.f == [] <==> Whole(v, files, first, s))
    ensures Enough(job) ==> Partition(v.fat, v.avail, NewFree(job), files[s := NewChain(job)], first)
  {
    if Enough(job) {
      FinishedPartition(job, v, files, first, s);
    } else if |job.buf| == 0 {
      if job.f == [] { UnchangedWhole(job, files, first, s); } else { EmptyWriteUnsound(job, v, files, first, s); }
    } else if |job.c| + |job.f| < Blocks(|job.buf|) {
      OverrunUnsound(job, v, files, first, s);
    } else {
      LeakedUnsound(job, v, files, first, s, Blocks(|job.buf|));
    }
  }

  // ---------------------------------------------------------------- the other files

  /** A file that is not written keeps its length and its bytes. */
  lemma OtherBytesKept(job: Job, v: Vol, files: map<int, seq<int>>, first: int, s: int, t: int, j: nat)
    requires JobFor(job, files, first, s) && Framed(job, v) && t in files && t != s && Sectors(v.disk)
    requires (j + 8) / SECTOR < |files[t]|
    ensures OnDisk(job.v.disk, files[t]) && OnDisk(v.disk, files[t]) && 0 <= t < |v.disk|
    ensures StoredLength(v.disk, t) == StoredLength(job.v.disk, t)
    ensures FileByte(v.disk, files[t], j) == FileByte(job.v.disk, files[t], j)
  {
    var c := files[t];
    assert FileChain(job.v.fat, job.f, files, t) && Disjoint(files[s], c);
    forall i {:trigger c[i]} | 0 <= i < |c|
      ensures 0 < c[i] < |v.disk| && v.disk[c[i]] == job.v.disk[c[i]]
    {
      assert LinkAt(job.v.fat, c, i) && c[i] in c;
    }
    assert c[0] == t;
  }
}
