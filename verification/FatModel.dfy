/** The FAT439 volume as values: block chains threaded through the FAT, and the bytes of a file
    laid out along its chain. */
module FatModel {

  type byte = x: int | 0 <= x < 256 witness 0

  const SECTOR := 512

  function Nth(c: seq<int>, i: int): int {
    if 0 <= i < |c| then c[i] else 0
  }

  // ---------------------------------------------------------------- chains

  ghost predicate LinkAt(fat: seq<int>, c: seq<int>, i: int)
    requires 0 <= i < |c|
  {
    0 < c[i] < |fat| && fat[c[i]] == Nth(c, i + 1)
  }

  /** The entries of c follow one another in the FAT and the last one ends the chain with 0. */
  ghost predicate IsChain(fat: seq<int>, c: seq<int>) {
    forall i {:trigger LinkAt(fat, c, i)} :: 0 <= i < |c| ==> LinkAt(fat, c, i)
  }

  ghost predicate Distinct(c: seq<int>) {
    forall i, j {:trigger c[i], c[j]} :: 0 <= i < j < |c| ==> c[i] != c[j]
  }

  ghost predicate Disjoint(c: seq<int>, d: seq<int>) {
    forall b {:trigger b in c} {:trigger b in d} :: !(b in c && b in d)
  }

  /** A chain is determined by its first block. */
  lemma {:induction false} ChainUnique(fat: seq<int>, c: seq<int>, d: seq<int>)
    requires IsChain(fat, c) && IsChain(fat, d) && Nth(c, 0) == Nth(d, 0)
    ensures c == d
  {
    if c != [] { assert LinkAt(fat, c, 0); }
    if d != [] { assert LinkAt(fat, d, 0); }
    if c != [] && d != [] {
      ChainTail(fat, c);
      ChainTail(fat, d);
      ChainUnique(fat, c[1..], d[1..]);
      assert c == [c[0]] + c[1..] && d == [d[0]] + d[1..];
    }
  }

  lemma ChainTail(fat: seq<int>, c: seq<int>)
    requires IsChain(fat, c) && c != []
    ensures 0 < c[0] < |fat| && IsChain(fat, c[1..]) && Nth(c[1..], 0) == fat[c[0]]
  {
    ChainSuffix(fat, c, 1);
    assert LinkAt(fat, c, 0);
  }

  lemma ChainSuffix(fat: seq<int>, c: seq<int>, k: int)
    requires IsChain(fat, c) && 0 <= k <= |c|
    ensures IsChain(fat, c[k..])
  {
    forall i {:trigger LinkAt(fat, c[k..], i)} | 0 <= i < |c[k..]|
      ensures LinkAt(fat, c[k..], i)
    {
      assert LinkAt(fat, c, k + i);
    }
  }

  /** Only the last block of a chain has 0 as its successor. */
  lemma ChainStep(fat: seq<int>, c: seq<int>, k: int)
    requires IsChain(fat, c) && 0 <= k < |c|
    ensures 0 < c[k] < |fat| && (fat[c[k]] == 0 <==> k == |c| - 1)
    ensures k + 1 < |c| ==> fat[c[k]] == c[k + 1] && 0 < c[k + 1] < |fat|
  {
    assert LinkAt(fat, c, k);
    assert k + 1 < |c| ==> LinkAt(fat, c, k + 1);
  }

  /** A FAT that agrees on the members of c has the chain c too. */
  lemma ChainKept(fat: seq<int>, after: seq<int>, c: seq<int>)
    requires IsChain(fat, c) && |after| == |fat|
    requires forall i {:trigger c[i]} :: 0 <= i < |c| && 0 <= c[i] < |fat| ==> after[c[i]] == fat[c[i]]
    ensures IsChain(after, c)
  {
    forall i {:trigger LinkAt(after, c, i)} | 0 <= i < |c|
      ensures LinkAt(after, c, i)
    {
      assert LinkAt(fat, c, i);
    }
  }

  /** Two chains that share no block, each without repetition. */
  ghost predicate Separate(c: seq<int>, f: seq<int>) {
    Distinct(c) && Distinct(f) && Disjoint(c, f)
  }

  /** The FAT after the head of f is appended to c. */
  function Grown(fat: seq<int>, last: int, block: int): seq<int>
    requires 0 <= last < |fat| && 0 <= block < |fat|
  {
    fat[block := 0][last := block]
  }

  lemma GrowChains(fat: seq<int>, c: seq<int>, f: seq<int>)
    requires IsChain(fat, c) && IsChain(fat, f) && Separate(c, f) && c != [] && f != []
    ensures 0 < c[|c| - 1] < |fat| && 0 < f[0] < |fat|
    ensures IsChain(Grown(fat, c[|c| - 1], f[0]), c + [f[0]])
    ensures IsChain(Grown(fat, c[|c| - 1], f[0]), f[1..])
    ensures Separate(c + [f[0]], f[1..])
  {
    assert LinkAt(fat, c, |c| - 1) && LinkAt(fat, f, 0);
    assert c[|c| - 1] in c && f[0] in f;
    var after, d := Grown(fat, c[|c| - 1], f[0]), c + [f[0]];
    forall i {:trigger LinkAt(after, d, i)} | 0 <= i < |d|
      ensures LinkAt(after, d, i)
    {
      if i < |c| { assert LinkAt(fat, c, i) && c[i] in c; }
    }
    ChainTail(fat, f);
    forall i {:trigger f[1..][i]} | 0 <= i < |f[1..]|
      ensures f[1..][i] != f[0] && f[1..][i] != c[|c| - 1]
    {
      assert f[1..][i] == f[i + 1] && f[i + 1] in f;
    }
    ChainKept(fat, after, f[1..]);
    SeparateGrown(c, f);
  }

  lemma SeparateGrown(c: seq<int>, f: seq<int>)
    requires Separate(c, f) && f != []
    ensures Separate(c + [f[0]], f[1..])
  {
    assert f[0] in f;
    forall i | 0 <= i < |c|
      ensures c[i] != f[0]
    {
      assert c[i] in c;
    }
    forall b {:trigger b in f[1..]} | b in f[1..]
      ensures b in f && b != f[0]
    {
      var i :| 0 <= i < |f[1..]| && f[1..][i] == b;
      assert f[i + 1] == b;
    }
  }

  /** Cutting c after its first k blocks and hanging the rest on the end of f. */
  lemma ShrinkChains(fat: seq<int>, c: seq<int>, f: seq<int>, k: int)
    requires IsChain(fat, c) && IsChain(fat, f) && Separate(c, f) && 0 < k < |c| && f != []
    ensures 0 < f[|f| - 1] < |fat| && 0 < c[k - 1] < |fat|
    ensures var after := fat[f[|f| - 1] := c[k]][c[k - 1] := 0]; IsChain(after, c[..k]) && IsChain(after, f + c[k..])
    ensures Separate(c[..k], f + c[k..])
  {
    assert LinkAt(fat, f, |f| - 1) && LinkAt(fat, c, k - 1);
    assert f[|f| - 1] in f && c[k - 1] in c;
    var after := fat[f[|f| - 1] := c[k]][c[k - 1] := 0];
    forall i {:trigger LinkAt(after, c[..k], i)} | 0 <= i < k
      ensures LinkAt(after, c[..k], i)
    {
      assert LinkAt(fat, c, i) && c[i] in c;
    }
    var g := f + c[k..];
    forall i {:trigger LinkAt(after, g, i)} | 0 <= i < |g|
      ensures LinkAt(after, g, i)
    {
      if i < |f| {
        assert LinkAt(fat, f, i) && f[i] in f;
      } else {
        assert LinkAt(fat, c, k + i - |f|) && c[k + i - |f|] in c;
      }
    }
    SeparateShrunk(c, f, k);
  }

  lemma SeparateShrunk(c: seq<int>, f: seq<int>, k: int)
    requires Separate(c, f) && 0 <= k <= |c|
    ensures Separate(c[..k], f + c[k..])
  {
    var g := f + c[k..];
    forall i, j {:trigger g[i], g[j]} | 0 <= i < j < |g|
      ensures g[i] != g[j]
    {
      assert i < |f| ==> g[i] == f[i] && f[i] in f;
      assert i >= |f| ==> g[i] == c[k + i - |f|];
      assert j < |f| ==> g[j] == f[j];
      assert j >= |f| ==> g[j] == c[k + j - |f|] && c[k + j - |f|] in c;
    }
    forall b {:trigger b in c[..k]} | b in c[..k]
      ensures b !in g
    {
      var i :| 0 <= i < k && c[i] == b;
      assert b in c && b !in f;
      assert forall j :: k <= j < |c| ==> c[j] != c[i];
      assert b !in c[k..];
    }
  }

  // ---------------------------------------------------------------- the volume's blocks

  /** `files` maps the first block of each file to its chain. */
  ghost predicate FileChain(fat: seq<int>, free: seq<int>, files: map<int, seq<int>>, s: int)
    requires s in files
  {
    files[s] != [] && files[s][0] == s && IsChain(fat, files[s]) && Separate(files[s], free)
  }

  ghost predicate Owned(free: seq<int>, files: map<int, seq<int>>, b: int) {
    b in free || exists s {:trigger files[s]} :: s in files && b in files[s]
  }

  /** The free chain and the file chains end in 0, share no block, and together are exactly the
      data blocks, those from `first` on. */
  ghost predicate Partition(fat: seq<int>, avail: int, free: seq<int>, files: map<int, seq<int>>, first: int) {
    && 0 < first <= |fat|
    && IsChain(fat, free) && Distinct(free) && avail == Nth(free, 0)
    && (forall s {:trigger FileChain(fat, free, files, s)} :: s in files ==> FileChain(fat, free, files, s))
    && (forall s, t {:trigger files[s], files[t]} :: s in files && t in files && s != t ==> Disjoint(files[s], files[t]))
    && (forall b {:trigger Owned(free, files, b)} :: Owned(free, files, b) <==> first <= b < |fat|)
  }

  ghost predicate SameMembers(c: seq<int>, f: seq<int>, d: seq<int>, g: seq<int>) {
    forall b {:trigger b in d} {:trigger b in g} {:trigger b in c} {:trigger b in f} :: b in d || b in g <==> b in c || b in f
  }

  /** Changing one file's chain and the free chain, without losing or gaining a block, keeps
      the partition. */
  lemma PartitionMoved(fat: seq<int>, avail: int, free: seq<int>, files: map<int, seq<int>>, first: int,
                       after: seq<int>, s: int, d: seq<int>, g: seq<int>)
    requires Partition(fat, avail, free, files, first) && s in files && |after| == |fat|
    requires forall b {:trigger after[b]} :: 0 <= b < |fat| && b !in files[s] && b !in free ==> after[b] == fat[b]
    requires d != [] && d[0] == s && IsChain(after, d) && IsChain(after, g) && Separate(d, g)
    requires SameMembers(files[s], free, d, g)
    ensures Partition(after, Nth(g, 0), g, files[s := d], first)
  {
    var later := files[s := d];
    forall t {:trigger FileChain(after, g, later, t)} | t in later
      ensures FileChain(after, g, later, t)
    {
      if t != s { OtherFileKept(fat, avail, free, files, first, after, s, d, g, t); }
    }
    forall t, u {:trigger later[t], later[u]} | t in later && u in later && t != u
      ensures Disjoint(later[t], later[u])
    {
      if t == s { OtherFileKept(fat, avail, free, files, first, after, s, d, g, u); }
      if u == s { OtherFileKept(fat, avail, free, files, first, after, s, d, g, t); }
    }
    forall b {:trigger Owned(g, later, b)}
      ensures Owned(g, later, b) <==> first <= b < |after|
    {
      OwnedMoved(free, files, s, d, g, b);
    }
  }

  lemma OtherFileKept(fat: seq<int>, avail: int, free: seq<int>, files: map<int, seq<int>>, first: int,
                      after: seq<int>, s: int, d: seq<int>, g: seq<int>, t: int)
    requires Partition(fat, avail, free, files, first) && s in files && t in files && t != s && |after| == |fat|
    requires forall b {:trigger after[b]} :: 0 <= b < |fat| && b !in files[s] && b !in free ==> after[b] == fat[b]
    requires SameMembers(files[s], free, d, g) && Distinct(g)
    ensures FileChain(after, g, files, t) && Disjoint(d, files[t]) && Disjoint(files[t], d)
  {
    assert FileChain(fat, free, files, t) && Disjoint(files[s], files[t]);
    var c := files[t];
    forall i {:trigger c[i]} | 0 <= i < |c| && 0 <= c[i] < |fat|
      ensures after[c[i]] == fat[c[i]]
    {
      assert c[i] in c;
    }
    ChainKept(fat, after, c);
  }

  lemma OwnedMoved(free: seq<int>, files: map<int, seq<int>>, s: int, d: seq<int>, g: seq<int>, b: int)
    requires s in files && SameMembers(files[s], free, d, g)
    ensures Owned(g, files[s := d], b) <==> Owned(free, files, b)
  {
    var later := files[s := d];
    if Owned(free, files, b) && b !in free && b !in files[s] {
      var t :| t in files && b in files[t];
      assert b in later[t];
    }
    if Owned(g, later, b) && b !in g && b !in later[s] {
      var t :| t in later && b in later[t];
      assert b in files[t];
    }
    assert b in files[s] ==> Owned(free, files, b);
    assert b in later[s] ==> Owned(g, later, b);
  }

  // ---------------------------------------------------------------- bytes along a chain

  /** Number of blocks that hold n bytes and the eight bytes of metadata before them. */
  function Blocks(n: nat): nat {
    (n + 8 + (SECTOR - 1)) / SECTOR
  }

  ghost predicate Sectors(disk: seq<seq<byte>>) {
    forall b {:trigger disk[b]} :: 0 <= b < |disk| ==> |disk[b]| == SECTOR
  }

  /** c names sectors of the disk. */
  ghost predicate OnDisk(disk: seq<seq<byte>>, c: seq<int>) {
    Sectors(disk) && forall i {:trigger c[i]} :: 0 <= i < |c| ==> 0 <= c[i] < |disk|
  }

  /** Byte j of the file stored along c. Behind the end of its chain a file goes on in block 0, where
      the walk along the FAT stays. */
  function FileByte(disk: seq<seq<byte>>, c: seq<int>, j: nat): byte
    requires OnDisk(disk, c) && ((j + 8) / SECTOR < |c| || 0 < |disk|)
  {
    disk[Nth(c, (j + 8) / SECTOR)][(j + 8) % SECTOR]
  }

  ghost predicate ByteIs(disk: seq<seq<byte>>, c: seq<int>, buf: seq<byte>, j: nat)
    requires OnDisk(disk, c) && j < |buf|
  {
    (j + 8) / SECTOR < |c| && FileByte(disk, c, j) == buf[j]
  }

  /** The first m bytes of buf are stored along c. */
  ghost predicate Holds(disk: seq<seq<byte>>, c: seq<int>, buf: seq<byte>, m: nat)
    requires OnDisk(disk, c) && m <= |buf|
  {
    forall j {:trigger ByteIs(disk, c, buf, j)} :: 0 <= j < m ==> ByteIs(disk, c, buf, j)
  }

  /** A 32-bit number as four bytes, low byte first. */
  function Little(n: nat): seq<byte> {
    [n % 0x100, n / 0x100 % 0x100, n / 0x1_0000 % 0x100, n / 0x100_0000 % 0x100]
  }

  function FromLittle(s: seq<byte>): nat
    requires |s| == 4
  {
    (s[0] as int) + 0x100 * (s[1] as int) + 0x1_0000 * (s[2] as int) + 0x100_0000 * (s[3] as int)
  }

  lemma LittleRoundTrip(n: nat)
    requires n < 0x1_0000_0000
    ensures FromLittle(Little(n)) == n
  {
    assert n == n % 0x100 + 0x100 * (n / 0x100);
    assert n / 0x100 == n / 0x100 % 0x100 + 0x100 * (n / 0x1_0000);
    assert n / 0x1_0000 == n / 0x1_0000 % 0x100 + 0x100 * (n / 0x100_0000);
  }

  /** The length recorded in the second word of the file's first block. */
  function StoredLength(disk: seq<seq<byte>>, start: int): nat
    requires 0 <= start < |disk| && |disk[start]| == SECTOR
  {
    FromLittle(disk[start][4..8])
  }
}
