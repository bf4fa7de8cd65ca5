/** The image builder's blocks: a new file takes the head of the free chain and grows behind its
    last block. */
module MkfsModel {
  import opened FatModel
  import opened FatWrite
  import opened FatRead
  import opened FatDirectory

  /** Blocks that mkfs gives a file of n bytes: one more than needed when the last is full. */
  function ImageBlocks(n: nat): nat {
    (n + 8) / SECTOR + 1
  }

  lemma ImageBlocksEnough(n: nat)
    ensures n + 8 <= SECTOR * ImageBlocks(n) && ImageBlocks(n) == Blocks(n) + (if (n + 8) % SECTOR == 0 then 1 else 0)
  {
  }

  // ---------------------------------------------------------------- the empty image

  /** Data blocks from `first` on, the last one first. */
  function Descending(first: int, n: int): seq<int>
    requires first <= n
  {
    seq(n - first, i requires 0 <= i < n - first => n - 1 - i)
  }

  /** The FAT that links them, all other entries 0. */
  ghost predicate EmptyFat(fat: seq<int>, first: int) {
    0 < first < |fat| && forall b {:trigger fat[b]} :: 0 <= b < |fat| ==> fat[b] == if b > first then b - 1 else 0
  }

  lemma EmptyImage(fat: seq<int>, first: int)
    requires EmptyFat(fat, first)
    ensures Partition(fat, |fat| - 1, Descending(first, |fat|), map[], first)
  {
    var f := Descending(first, |fat|);
    forall i {:trigger LinkAt(fat, f, i)} | 0 <= i < |f|
      ensures LinkAt(fat, f, i)
    {
    }
    forall b {:trigger Owned(f, map[], b)}
      ensures Owned(f, map[], b) <==> first <= b < |fat|
    {
      if first <= b < |fat| { assert f[|fat| - 1 - b] == b; }
    }
  }

  /** With blocks for data the start leaves a partition into one free chain; without any, the first
      `free` block is one of the FAT's own, and no chain makes a partition. */
  lemma ImageSplits(fat: seq<int>, first: int)
    requires 0 < |fat| && 2 <= first && forall b {:trigger fat[b]} :: 0 <= b < |fat| ==> fat[b] == if b > first then b - 1 else 0
    ensures (exists f {:trigger Partition(fat, |fat| - 1, f, map[], first)} :: Partition(fat, |fat| - 1, f, map[], first)) <==> first < |fat|
  {
    if first < |fat| {
      EmptyImage(fat, first);
    } else {
      NeverSplit(fat, |fat| - 1, first);
    }
  }

  lemma NeverSplit(fat: seq<int>, avail: int, first: int)
    requires 0 < |fat| <= first && 2 <= first && avail == |fat| - 1 && forall b {:trigger fat[b]} :: 0 <= b < |fat| ==> fat[b] == if b > first then b - 1 else 0
    ensures forall f {:trigger Partition(fat, avail, f, map[], first)} :: !Partition(fat, avail, f, map[], first)
  {
    forall f {:trigger Partition(fat, avail, f, map[], first)}
      ensures !Partition(fat, avail, f, map[], first)
    {
      if Partition(fat, avail, f, map[], first) { NoDataBlock(fat, f, first); }
    }
  }

  lemma NoDataBlock(fat: seq<int>, f: seq<int>, first: int)
    requires Partition(fat, |fat| - 1, f, map[], first) && |fat| <= first
    ensures |fat| == 1 == first
  {
    if f != [] { assert Owned(f, map[], f[0]); }
  }

  // ---------------------------------------------------------------- getBlock

  /** The first free block becomes the only block of a new file. */
  lemma NewFile(fat: seq<int>, avail: int, free: seq<int>, files: map<int, seq<int>>, first: int)
    requires Partition(fat, avail, free, files, first) && fat[0] == 0 && avail != 0
    ensures free != [] && avail == free[0] && 0 < avail < |fat| && avail !in files && fat[avail] == Nth(free[1..], 0)
    ensures Partition(fat[avail := 0], fat[avail], free[1..], files[avail := [avail]], first)
  {
    var b := free[0];
    ChainStep(fat, free, 0);
    ChainTail(fat, free);
    assert b in free;
    var after, later, rest := fat[b := 0], files[b := [b]], free[1..];
    assert free == [b] + rest;
    FreeIsNoStart(fat, avail, free, files, first, b);
    RestKept(fat, free, after);
    forall s {:trigger FileChain(after, rest, later, s)} | s in later
      ensures FileChain(after, rest, later, s)
    {
      if s != b { FileKept(fat, free, files, after, s); } else { assert LinkAt(after, [b], 0); }
    }
    forall s, t {:trigger later[s], later[t]} | s in later && t in later && s != t
      ensures Disjoint(later[s], later[t])
    {
      if s == b { FileKept(fat, free, files, after, t); }
      if t == b { FileKept(fat, free, files, after, s); }
    }
    forall x {:trigger Owned(rest, later, x)}
      ensures Owned(rest, later, x) <==> first <= x < |after|
    {
      OwnedNew(free, files, b, x);
    }
  }

  lemma FreeIsNoStart(fat: seq<int>, avail: int, free: seq<int>, files: map<int, seq<int>>, first: int, b: int)
    requires Partition(fat, avail, free, files, first) && b in free
    ensures b !in files
  {
    forall s {:trigger s in files} | s in files
      ensures s !in free
    {
      assert FileChain(fat, free, files, s) && files[s][0] in files[s];
    }
  }

  lemma RestKept(fat: seq<int>, free: seq<int>, after: seq<int>)
    requires IsChain(fat, free) && Distinct(free) && free != [] && 0 <= free[0] < |fat| && after == fat[free[0] := 0]
    ensures IsChain(after, free[1..]) && Distinct(free[1..]) && free[0] !in free[1..]
  {
    ChainTail(fat, free);
    forall i {:trigger free[1..][i]} | 0 <= i < |free[1..]|
      ensures free[1..][i] != free[0]
    {
    }
    ChainKept(fat, after, free[1..]);
  }

  lemma FileKept(fat: seq<int>, free: seq<int>, files: map<int, seq<int>>, after: seq<int>, s: int)
    requires s in files && FileChain(fat, free, files, s) && free != [] && 0 <= free[0] < |fat| && after == fat[free[0] := 0]
    ensures free[0] !in files[s] && IsChain(after, files[s]) && Separate(files[s], free[1..])
    ensures Disjoint(files[s], [free[0]])
  {
    assert free[0] in free;
    assert free == [free[0]] + free[1..];
    ChainKept(fat, after, files[s]);
  }

  lemma OwnedNew(free: seq<int>, files: map<int, seq<int>>, b: int, x: int)
    requires free != [] && b == free[0] && b !in files
    ensures Owned(free[1..], files[b := [b]], x) <==> Owned(free, files, x)
  {
    var later := files[b := [b]];
    assert free == [b] + free[1..];
    if Owned(free, files, x) && x !in free {
      var t :| t in files && x in files[t];
      assert x in later[t];
    }
    if Owned(free[1..], later, x) && x !in free {
      var t :| t in later && x in later[t];
      assert x in files[t];
    }
    assert x == b ==> x in later[b];
  }

  /** The next free block is linked behind the last block of file s. */
  lemma ExtendFile(fat: seq<int>, avail: int, free: seq<int>, files: map<int, seq<int>>, first: int, s: int)
    requires Partition(fat, avail, free, files, first) && s in files && avail != 0
    ensures FileChain(fat, free, files, s) && free != [] && avail == free[0] && 0 < avail < |fat|
    ensures 0 < files[s][|files[s]| - 1] < |fat|
    ensures Partition(Grown(fat, files[s][|files[s]| - 1], avail), fat[avail], free[1..], files[s := files[s] + [avail]], first)
  {
    assert FileChain(fat, free, files, s);
    var c := files[s];
    GrowChains(fat, c, free);
    ChainTail(fat, free);
    assert c[|c| - 1] in c && free[0] in free;
    SliceMembers(c, free, 1);
    assert free[..1] == [free[0]];
    PartitionMoved(fat, avail, free, files, first, Grown(fat, c[|c| - 1], avail), s, c + [avail], free[1..]);
  }

  // ---------------------------------------------------------------- bytes

  /** The sector with `data` written at `off`. */
  function Placed(sector: seq<byte>, off: nat, data: seq<byte>): (s: seq<byte>)
    requires off + |data| <= |sector|
    ensures |s| == |sector|
    ensures forall k {:trigger s[k]} :: 0 <= k < |s| ==> s[k] == if off <= k < off + |data| then data[k - off] else sector[k]
  {
    sector[..off] + data + sector[off + |data|..]
  }

  /** The next n bytes go behind the bytes already stored in the last block of c. */
  lemma PlaceNext(disk: seq<seq<byte>>, c: seq<int>, content: seq<byte>, total: nat, off: nat, n: nat)
    requires OnDisk(disk, c) && Distinct(c) && c != [] && total + n <= |content| && off + n <= SECTOR
    requires total + 8 == SECTOR * (|c| - 1) + off && Holds(disk, c, content, total)
    ensures var after := disk[c[|c| - 1] := Placed(disk[c[|c| - 1]], off, content[total..total + n])];
      OnDisk(after, c) && Holds(after, c, content, total + n)
  {
    var last := c[|c| - 1];
    var after := disk[last := Placed(disk[last], off, content[total..total + n])];
    forall j {:trigger ByteIs(after, c, content, j)} | 0 <= j < total + n
      ensures ByteIs(after, c, content, j)
    {
      if j < total {
        assert ByteIs(disk, c, content, j);
        assert (j + 8) / SECTOR < |c| - 1 ==> c[(j + 8) / SECTOR] != last;
      } else {
        assert (j + 8) / SECTOR == |c| - 1 && (j + 8) % SECTOR == off + (j - total);
      }
    }
  }

  lemma LongerHolds(disk: seq<seq<byte>>, c: seq<int>, b: int, content: seq<byte>, total: nat)
    requires OnDisk(disk, c) && 0 <= b < |disk| && total <= |content| && Holds(disk, c, content, total)
    ensures OnDisk(disk, c + [b]) && Holds(disk, c + [b], content, total)
  {
    forall j {:trigger ByteIs(disk, c + [b], content, j)} | 0 <= j < total
      ensures ByteIs(disk, c + [b], content, j)
    {
      assert ByteIs(disk, c, content, j);
    }
  }

  /** A write to the metadata of the first block leaves the file's bytes alone. */
  lemma MetadataHolds(disk: seq<seq<byte>>, c: seq<int>, content: seq<byte>, total: nat, word: nat, v: nat)
    requires OnDisk(disk, c) && Distinct(c) && c != [] && total <= |content| && Holds(disk, c, content, total) && word < 2
    ensures var after := disk[c[0] := Placed(disk[c[0]], 4 * word, Little(v))];
      OnDisk(after, c) && Holds(after, c, content, total) && (word == 1 ==> after[c[0]][4..8] == Little(v))
  {
    var after := disk[c[0] := Placed(disk[c[0]], 4 * word, Little(v))];
    forall j {:trigger ByteIs(after, c, content, j)} | 0 <= j < total
      ensures ByteIs(after, c, content, j)
    {
      assert ByteIs(disk, c, content, j);
      assert (j + 8) / SECTOR > 0 ==> c[(j + 8) / SECTOR] != c[0];
    }
  }

  /** Only sectors named by c differ. */
  ghost predicate OnlyIn(disk: seq<seq<byte>>, before: seq<seq<byte>>, c: seq<int>) {
    |disk| == |before| && forall b {:trigger disk[b]} :: 0 <= b < |disk| && b !in c ==> disk[b] == before[b]
  }

  /** oneFile between two reads: `total` bytes are stored and the next goes to `off`. */
  ghost predicate Growing(disk: seq<seq<byte>>, before: seq<seq<byte>>, c: seq<int>, content: seq<byte>, total: nat, off: nat) {
    && OnDisk(disk, c) && Distinct(c) && c != [] && total <= |content| && Holds(disk, c, content, total)
    && total + 8 == SECTOR * (|c| - 1) + off && off <= SECTOR && OnlyIn(disk, before, c) && disk[c[0]][0..4] == Little(1)
  }

  /** A file as mkfs leaves it: of type 1, with its length. */
  ghost predicate StoredFile(disk: seq<seq<byte>>, c: seq<int>, content: seq<byte>) {
    && OnDisk(disk, c) && |c| == ImageBlocks(|content|) && Holds(disk, c, content, |content|)
    && disk[c[0]][0..4] == Little(1) && disk[c[0]][4..8] == Little(|content|)
  }

  lemma StartGrowing(before: seq<seq<byte>>, start: int, content: seq<byte>)
    requires Sectors(before) && 0 <= start < |before|
    ensures Growing(before[start := Placed(before[start], 0, Little(1))], before, [start], content, 0, 8)
  {
  }

  lemma GrowOn(disk: seq<seq<byte>>, before: seq<seq<byte>>, c: seq<int>, content: seq<byte>, total: nat, b: int)
    requires Growing(disk, before, c, content, total, SECTOR) && 0 <= b < |disk| && b !in c
    ensures Growing(disk, before, c + [b], content, total, 0)
  {
    LongerHolds(disk, c, b, content, total);
    forall i, j {:trigger (c + [b])[i], (c + [b])[j]} | 0 <= i < j < |c + [b]|
      ensures (c + [b])[i] != (c + [b])[j]
    {
      assert c[i] in c;
    }
    forall x {:trigger disk[x]} | 0 <= x < |disk| && x !in c + [b]
      ensures disk[x] == before[x]
    {
      assert x in c ==> x in c + [b];
    }
  }

  lemma GrowBytes(disk: seq<seq<byte>>, before: seq<seq<byte>>, c: seq<int>, content: seq<byte>, total: nat, off: nat, n: nat)
    requires Growing(disk, before, c, content, total, off) && total + n <= |content| && off + n <= SECTOR
    ensures Growing(disk[c[|c| - 1] := Placed(disk[c[|c| - 1]], off, content[total..total + n])], before, c, content, total + n, off + n)
  {
    PlaceNext(disk, c, content, total, off, n);
    assert c[|c| - 1] in c;
  }

  lemma DoneGrowing(disk: seq<seq<byte>>, before: seq<seq<byte>>, c: seq<int>, content: seq<byte>, off: nat)
    requires Growing(disk, before, c, content, |content|, off) && off < SECTOR
    ensures var after := disk[c[0] := Placed(disk[c[0]], 4, Little(|content|))];
      StoredFile(after, c, content) && OnlyIn(after, before, c)
  {
    MetadataHolds(disk, c, content, |content|, 1, |content|);
    assert c[0] in c;
  }

  /** Sectors outside c may change without harm to the file stored along c. */
  lemma StoredKept(disk: seq<seq<byte>>, after: seq<seq<byte>>, c: seq<int>, content: seq<byte>)
    requires StoredFile(disk, c, content) && Sectors(after) && |after| == |disk|
    requires forall i {:trigger c[i]} :: 0 <= i < |c| && 0 <= c[i] < |disk| ==> after[c[i]] == disk[c[i]]
    ensures StoredFile(after, c, content)
  {
    forall j {:trigger ByteIs(after, c, content, j)} | 0 <= j < |content|
      ensures ByteIs(after, c, content, j)
    {
      assert ByteIs(disk, c, content, j);
    }
  }

  lemma StoredReads(disk: seq<seq<byte>>, c: seq<int>, content: seq<byte>)
    requires StoredFile(disk, c, content) && |content| < 0x1_0000_0000
    ensures |content| + 8 <= SECTOR * |c| && 0 <= c[0] < |disk|
    ensures Content(disk, c, |content|) == content && StoredLength(disk, c[0]) == |content|
  {
    ImageBlocksEnough(|content|);
    HoldsContent(disk, c, content);
    LittleRoundTrip(|content|);
  }

  // ---------------------------------------------------------------- the root directory

  /** strncpy of a name into the first twelve bytes of an entry. */
  function Padded(name: seq<byte>): (s: seq<byte>)
    ensures |s| == 12
    ensures forall k {:trigger s[k]} :: 0 <= k < 12 ==> s[k] == if k < |name| then name[k] else 0
  {
    seq(12, k requires 0 <= k < 12 => if k < |name| then name[k] else 0)
  }

  function Entry(name: seq<byte>, start: nat): (e: seq<byte>)
    ensures |e| == ENTRY
  {
    Padded(name) + Little(start)
  }

  /** Among the entries written for NUL-free names only one matches a name of at most eleven
      bytes, and it carries the file's first block. */
  lemma EntryNames(name: seq<byte>, other: seq<byte>, start: nat)
    requires 0 !in name && 0 !in other && |name| < 12
    ensures Names(Entry(other, start), name) <==> name == other
    ensures start < 0x1_0000_0000 ==> StartOf(Entry(other, start)) == start
  {
    var e := Entry(other, start);
    assert e[12..] == Little(start);
    if start < 0x1_0000_0000 { LittleRoundTrip(start); }
    assert e[|name|] == if |name| < |other| then other[|name|] else 0;
    assert forall k :: 0 <= k < |other| ==> other[k] != 0;
    if Names(e, name) {
      assert |other| <= |name|;
      NamePrefix(name, other, start);
    }
    if name == other { assert e[..|name|] == name; }
  }

  lemma ShorterPrefix(e: seq<byte>, name: seq<byte>, k: nat)
    requires 0 !in name && e == name && (k < |e| ==> e[k] == 0)
    ensures |name| <= k
  {
  }

  lemma NamePrefix(name: seq<byte>, other: seq<byte>, start: nat)
    requires 0 !in name && |other| <= |name| < 12 && Entry(other, start)[..|name|] == name
    ensures name == other
  {
    var e := Entry(other, start);
    ShorterPrefix(e[..|name|], name, |other|);
    forall k | 0 <= k < |name|
      ensures name[k] == other[k]
    {
      assert e[..|name|][k] == e[k] == Padded(other)[k];
    }
  }

  /** The i-th entry in the sector of the root directory. */
  ghost predicate EntryAt(sector: seq<byte>, i: nat, name: seq<byte>, start: nat) {
    |sector| == SECTOR && i < 31 && sector[8 + ENTRY * i..24 + ENTRY * i] == Entry(name, start)
  }

  lemma PlaceEntry(sector: seq<byte>, i: nat, name: seq<byte>, start: nat)
    requires |sector| == SECTOR && i < 31
    ensures EntryAt(Placed(Placed(sector, 8 + ENTRY * i, Padded(name)), 20 + ENTRY * i, Little(start)), i, name, start)
  {
  }

  lemma PlaceKeepsEntry(sector: seq<byte>, i: nat, name: seq<byte>, start: nat, j: nat, name': seq<byte>, start': nat)
    requires EntryAt(sector, j, name', start') && j < i < 31
    ensures EntryAt(Placed(Placed(sector, 8 + ENTRY * i, Padded(name)), 20 + ENTRY * i, Little(start)), j, name', start')
  {
    var after := Placed(Placed(sector, 8 + ENTRY * i, Padded(name)), 20 + ENTRY * i, Little(start));
    assert after[8 + ENTRY * j..24 + ENTRY * j] == sector[8 + ENTRY * j..24 + ENTRY * j];
  }

  /** Blocks that the files take. */
  function Needed(contents: seq<seq<byte>>): nat {
    if contents == [] then 0 else Needed(contents[..|contents| - 1]) + ImageBlocks(|contents[|contents| - 1]|)
  }

  lemma {:induction false} NeededPrefix(contents: seq<seq<byte>>, k: nat)
    requires k <= |contents|
    ensures Needed(contents[..k]) <= Needed(contents)
  {
    if k < |contents| {
      NeededPrefix(contents[..|contents| - 1], k);
      assert contents[..|contents| - 1][..k] == contents[..k];
    } else {
      assert contents[..k] == contents;
    }
  }

  // ---------------------------------------------------------------- the image so far

  /** The j-th file is stored and entered in the root directory. */
  ghost predicate FileBuilt(disk: seq<seq<byte>>, files: map<int, seq<int>>, root: int,
                            name: seq<byte>, content: seq<byte>, start: int, j: nat) {
    && start in files && start != root && 0 < start < |disk| && 0 <= root < |disk|
    && StoredFile(disk, files[start], content) && files[start][0] == start
    && EntryAt(disk[root], j, name, start)
  }

  /** Storing another file disturbs none of the earlier ones. */
  lemma BuiltKept(fat: seq<int>, avail: int, free: seq<int>, files: map<int, seq<int>>, first: int,
                  disk: seq<seq<byte>>, after: seq<seq<byte>>, root: int, name: seq<byte>, content: seq<byte>,
                  start: int, j: nat, added: int, old_: map<int, seq<int>>)
    requires Partition(fat, avail, free, files, first) && root in files && files[root] == [root] && added in files
    requires added !in old_ && files == old_[added := files[added]]
    requires OnlyIn(after, disk, files[added]) && Sectors(after) && FileBuilt(disk, old_, root, name, content, start, j)
    requires root != added
    ensures FileBuilt(after, files, root, name, content, start, j)
  {
    assert Disjoint(files[start], files[added]) && Disjoint(files[root], files[added]);
    assert root in files[root];
    var c := files[start];
    forall i {:trigger c[i]} | 0 <= i < |c| && 0 <= c[i] < |disk|
      ensures after[c[i]] == disk[c[i]]
    {
      assert c[i] in c;
    }
    StoredKept(disk, after, c, content);
  }

  /** A change to the root sector that keeps the j-th entry keeps the j-th file. */
  lemma BuiltRootChanged(fat: seq<int>, avail: int, free: seq<int>, files: map<int, seq<int>>, first: int,
                         disk: seq<seq<byte>>, sector: seq<byte>, root: int, name: seq<byte>, content: seq<byte>, start: int, j: nat)
    requires Partition(fat, avail, free, files, first) && root in files && files[root] == [root] && 0 <= root < |disk|
    requires start in files && start != root && 0 < start < |disk| && files[start] != [] && files[start][0] == start
    requires StoredFile(disk, files[start], content) && |sector| == SECTOR && EntryAt(sector, j, name, start)
    ensures FileBuilt(disk[root := sector], files, root, name, content, start, j)
  {
    assert Disjoint(files[start], files[root]) && root in files[root];
    var c := files[start];
    forall i {:trigger c[i]} | 0 <= i < |c| && 0 <= c[i] < |disk|
      ensures c[i] != root
    {
      assert c[i] in c;
    }
    StoredKept(disk, disk[root := sector], c, content);
  }
}
