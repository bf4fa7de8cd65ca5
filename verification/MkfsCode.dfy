/** mkfs: the image is built by changing its super block, FAT and sectors in place. */
module MkfsCode {
  import opened FatModel
  import opened FatWrite
  import opened FatRead
  import opened FatDirectory
  import opened MkfsModel

  /** How mkfs ends: with an image, with the message that the disk is full, or by writing outside
      the image. */
  datatype End = Done | DiskFull | Outside

  class Image {
    const first: int
    const fat: array<int>
    const disk: array<seq<byte>>
    var avail: int
    var root: int
    ghost var free: seq<int>
    ghost var files: map<int, seq<int>>

    ghost predicate Valid()
      reads this`avail, this`free, this`files, fat, disk
    {
      && Partition(fat[..], avail, free, files, first)
      && fat.Length == disk.Length && fat[0] == 0 && Sectors(disk[..])
    }

    /** The zeroed image with every data block on the free chain. With no data block there is no
        sound split: the program takes one of the FAT's own blocks for free. */
    constructor (nBlocks: nat)
      requires nBlocks > 0
      ensures fresh(fat) && fresh(disk) && fat.Length == disk.Length == nBlocks && first == 1 + (4 * nBlocks + 511) / 512
      ensures avail == nBlocks - 1 && files == map[]
      ensures first < nBlocks ==> Valid() && |free| == nBlocks - first && free[0] == nBlocks - 1
      ensures first >= nBlocks ==> forall f {:trigger Partition(fat[..], avail, f, map[], first)} :: !Partition(fat[..], avail, f, map[], first)
    {
      first := 1 + (4 * nBlocks + 511) / 512;
      fat := new int[nBlocks](_ => 0);
      disk := new seq<byte>[nBlocks](_ => seq(SECTOR, _ => 0));
      avail := nBlocks - 1;
      root := 0;
      files := map[];
      free := if 1 + (4 * nBlocks + 511) / 512 < nBlocks then Descending(1 + (4 * nBlocks + 511) / 512, nBlocks) else [];
      new;
      var i := avail;
      while i > first
        invariant i <= nBlocks - 1 == avail && files == map[] && if first < nBlocks then first <= i && free == Descending(first, nBlocks) else i == nBlocks - 1
        invariant forall b {:trigger fat[b]} :: 0 <= b < nBlocks ==> fat[b] == if b > i then b - 1 else 0
        invariant forall b {:trigger disk[b]} :: 0 <= b < nBlocks ==> |disk[b]| == SECTOR
      {
        fat[i] := i - 1;
        i := i - 1;
      }
      assert first < nBlocks ==> i == first;
      if first < nBlocks { EmptyImage(fat[..], first); } else { NeverSplit(fat[..], avail, first); }
    }

    /** getBlock; 0 where the program ends with "disk is full". */
    method GetBlock() returns (idx: int)
      requires 0 <= avail < fat.Length && 0 < fat.Length
      modifies this`avail, fat
      ensures idx == old(avail)
      ensures idx == 0 ==> avail == old(avail) && fat[..] == old(fat[..])
      ensures idx != 0 ==> avail == old(fat[idx]) && fat[..] == old(fat[..])[idx := 0]
    {
      idx := avail;
      if idx == 0 { return; }
      avail := fat[idx];
      fat[idx] := 0;
    }

    method Place(block: int, off: nat, data: seq<byte>)
      requires 0 <= block < disk.Length && off + |data| <= |disk[block]|
      modifies disk
      ensures disk[..] == old(disk[..])[block := Placed(old(disk[block]), off, data)]
    {
      disk[block] := Placed(disk[block], off, data);
    }

    /** The first block of a new file. */
    method Begin() returns (start: int)
      requires Valid()
      modifies this`avail, this`free, this`files, fat
      ensures start == 0 <==> old(free) == []
      ensures start != 0 ==>
        && Valid() && start !in old(files) && files == old(files)[start := [start]] && old(free) == [start] + free
    {
      if free != [] {
        ChainStep(fat[..], free, 0);
        NewFile(fat[..], avail, free, files, first);
      }
      start := GetBlock();
      if start != 0 {
        files := files[start := [start]];
        free := free[1..];
      }
    }

    /** The next block of the file that starts at `start`. */
    method Continue(start: int, current: int) returns (block: int)
      requires Valid() && start in files && files[start] != [] && current == files[start][|files[start]| - 1]
      modifies this`avail, this`free, this`files, fat
      ensures block == 0 <==> old(free) == []
      ensures block != 0 ==>
        && Valid() && files == old(files)[start := old(files)[start] + [block]] && old(free) == [block] + free
    {
      if free != [] {
        ChainStep(fat[..], free, 0);
        ExtendFile(fat[..], avail, free, files, first, start);
      }
      block := GetBlock();
      if block != 0 {
        fat[current] := block;
        files := files[start := files[start] + [block]];
        free := free[1..];
      }
    }
  
    /** oneFile: the whole content is stored, whatever sizes the reads return. It fails exactly
        when there are too few free blocks. */
    method OneFile(content: seq<byte>) returns (ok: bool, start: int)
      requires Valid() && |content| < 0x1_0000_0000
      modifies this`avail, this`free, this`files, fat, disk
      ensures ok <==> ImageBlocks(|content|) <= |old(free)|
      ensures ok ==> Valid() && start !in old(files) && start in files && files == old(files)[start := files[start]]
      ensures ok ==> StoredFile(disk[..], files[start], content) && old(free) == files[start] + free
      ensures ok ==> OnlyIn(disk[..], old(disk[..]), files[start]) && files[start][0] == start
    {
      hide Partition, Growing, StoredFile, OnlyIn;
      ghost var before, all := disk[..], free;
      start := Begin();
      if start == 0 { return false, 0; }
      ghost var c := [start];
      BlockInRange(start, 0);
      StartGrowing(disk[..], start, content);
      Place(start, 0, Little(1));
      var current, off, total := start, 8, 0;
      while true
        invariant Valid() && start in files && files == old(files)[start := c] && all == c + free
        invariant c != [] && c[0] == start && current == c[|c| - 1] && total <= |content|
        invariant Growing(disk[..], before, c, content, total, off) && off <= SECTOR && total + 8 == SECTOR * (|c| - 1) + off
        decreases |content| - total
      {
        if SECTOR - off == 0 {
          var b := Continue(start, current);
          if b == 0 { return false, 0; }
          BlockInRange(start, |c|);
          assert files[start][..|c|] == c;
          GrowOn(disk[..], before, c, content, total, b);
          c := c + [b];
          current, off := b, 0;
        }
        if total == |content| {
          break;
        }
        var n: nat :| 1 <= n <= SECTOR - off && n <= |content| - total;
        BlockInRange(start, |c| - 1);
        GrowBytes(disk[..], before, c, content, total, off, n);
        Place(current, off, content[total..total + n]);
        off, total := off + n, total + n;
      }
      BlockInRange(start, 0);
      DoneGrowing(disk[..], before, c, content, off);
      Place(start, 4, Little(total));
      ok := true;
    }

    lemma BlockInRange(s: int, i: nat)
      requires Valid() && s in files && i < |files[s]|
      ensures 0 < files[s][i] < disk.Length && |disk[files[s][i]]| == SECTOR
      ensures Distinct(files[s]) && files[s][i] !in files[s][..i]
    {
      assert FileChain(fat[..], free, files, s) && LinkAt(fat[..], files[s], i);
      assert disk[..][files[s][i]] == disk[files[s][i]];
    }
  
    /** The image holds the first k files, and the root directory lists them. */
    ghost predicate Built(names: seq<seq<byte>>, contents: seq<seq<byte>>, starts: seq<int>)
      reads this`avail, this`free, this`files, this`root, fat, disk
    {
      && Valid() && root in files && files[root] == [root] && 0 < root < disk.Length
      && |starts| <= |names| == |contents| && |starts| <= 31
      && disk[root][0..4] == Little(2) && disk[root][4..8] == Little(ENTRY * |names|)
      && (forall s {:trigger s in files} :: s in files ==> s == root || s in starts)
      && forall j {:trigger starts[j]} :: 0 <= j < |starts| ==> FileBuilt(disk[..], files, root, names[j], contents[j], starts[j], j)
    }
  
    /** The root directory takes the first block of the free chain. */
    method MakeRoot(names: seq<seq<byte>>, contents: seq<seq<byte>>) returns (ok: bool)
      requires Valid() && files == map[] && |names| == |contents|
      modifies this`avail, this`free, this`files, this`root, fat, disk
      ensures ok <==> old(free) != []
      ensures ok ==> Built(names, contents, []) && old(free) == [root] + free && root == old(avail)
    {
      root := Begin();
      ok := root != 0;
      if !ok { return; }
      BlockInRange(root, 0);
      Place(root, 0, Little(2));
      Place(root, 4, Little(ENTRY * |names|));
      assert disk[root][4..8] == Little(ENTRY * |names|);
    }

    /** One turn of the loop over the files: store the file, then enter it. */
    method AddFile(names: seq<seq<byte>>, contents: seq<seq<byte>>, ghost starts: seq<int>, i: nat) returns (ok: bool, start: int)
      requires Built(names, contents, starts) && i == |starts| < |names| && i < 31 && |contents[i]| < 0x1_0000_0000
      modifies this`avail, this`free, this`files, fat, disk
      ensures ok <==> ImageBlocks(|contents[i]|) <= |old(free)|
      ensures ok ==> Built(names, contents, starts + [start]) && |old(free)| == ImageBlocks(|contents[i]|) + |free|
    {
      ghost var before, earlier := disk[..], files;
      ok, start := OneFile(contents[i]);
      if !ok { return; }
      EarlierKept(names, contents, starts, before, earlier, start);
      ghost var stored := disk[..];
      BlockInRange(start, 0);
      Place(root, 8 + ENTRY * i, Padded(names[i]));
      Place(root, 20 + ENTRY * i, Little(start));
      Entered(names, contents, starts, stored, start);
    }

    lemma EarlierKept(names: seq<seq<byte>>, contents: seq<seq<byte>>, starts: seq<int>,
                      before: seq<seq<byte>>, earlier: map<int, seq<int>>, start: int)
      requires Valid() && start in files && start !in earlier && files == earlier[start := files[start]] && root in earlier && earlier[root] == [root]
      requires |before| == disk.Length && 0 <= root < |before| && OnlyIn(disk[..], before, files[start])
      requires |starts| <= |names| == |contents|
      requires forall j {:trigger starts[j]} :: 0 <= j < |starts| ==> FileBuilt(before, earlier, root, names[j], contents[j], starts[j], j)
      ensures disk[root] == before[root] && start != root
      ensures forall j {:trigger starts[j]} :: 0 <= j < |starts| ==> FileBuilt(disk[..], files, root, names[j], contents[j], starts[j], j)
    {
      forall j {:trigger starts[j]} | 0 <= j < |starts|
        ensures FileBuilt(disk[..], files, root, names[j], contents[j], starts[j], j)
      {
        BuiltKept(fat[..], avail, free, files, first, before, disk[..], root, names[j], contents[j], starts[j], j, start, earlier);
      }
      assert Disjoint(files[root], files[start]) && root in files[root];
      assert disk[..][root] == before[root];
    }

    lemma Entered(names: seq<seq<byte>>, contents: seq<seq<byte>>, starts: seq<int>, stored: seq<seq<byte>>, start: int)
      requires Valid() && root in files && files[root] == [root] && 0 < root < disk.Length == |stored|
      requires |starts| < |names| == |contents| && |starts| < 31 && |stored[root]| == SECTOR
      requires start in files && start != root && 0 < start < |stored| && files[start] != [] && files[start][0] == start
      requires StoredFile(stored, files[start], contents[|starts|])
      requires forall j {:trigger starts[j]} :: 0 <= j < |starts| ==> FileBuilt(stored, files, root, names[j], contents[j], starts[j], j)
      requires disk[..] == stored[root := Placed(Placed(stored[root], 8 + ENTRY * |starts|, Padded(names[|starts|])), 20 + ENTRY * |starts|, Little(start))]
      ensures forall j {:trigger (starts + [start])[j]} :: 0 <= j <= |starts| ==>
        FileBuilt(disk[..], files, root, names[j], contents[j], (starts + [start])[j], j)
      ensures disk[root][4..8] == stored[root][4..8]
    {
      var i := |starts|;
      forall j {:trigger (starts + [start])[j]} | 0 <= j <= i
        ensures FileBuilt(disk[..], files, root, names[j], contents[j], (starts + [start])[j], j)
      {
        if j < i {
          PlaceKeepsEntry(stored[root], i, names[i], start, j, names[j], starts[j]);
        } else {
          PlaceEntry(stored[root], i, names[i], start);
        }
        BuiltRootChanged(fat[..], avail, free, files, first, stored, disk[root], root, names[j], contents[j], (starts + [start])[j], j);
      }
      assert disk[..][root] == disk[root];
    }

    /** The loop of main. The image is finished exactly when the blocks suffice and there are at most
        31 files. The entry of a thirty-second would lie behind the root block, and that is the last
        block of the image. */
    method Build(names: seq<seq<byte>>, contents: seq<seq<byte>>) returns (end: End, starts: seq<int>)
      requires Valid() && files == map[] && |names| == |contents|
      requires forall i {:trigger contents[i]} :: 0 <= i < |contents| ==> |contents[i]| < 0x1_0000_0000
      modifies this`avail, this`free, this`files, this`root, fat, disk
      ensures end == Done <==> 1 + Needed(contents) <= |old(free)| && |names| <= 31
      ensures end == DiskFull <==> 1 + Needed(if |contents| <= 32 then contents else contents[..32]) > |old(free)|
      ensures end == Done ==> Built(names, contents, starts) && |starts| == |names|
      ensures end == Outside ==> root == old(avail) && SECTOR * root + 8 + ENTRY * 31 + 12 > SECTOR * (root + 1)
    {
      hide Built, Valid;
      var ok := MakeRoot(names, contents);
      starts := [];
      NeededPrefix(contents, if |contents| <= 32 then |contents| else 32);
      assert contents[..|contents|] == contents;
      if !ok { return DiskFull, starts; }
      var i := 0;
      assert contents[..0] == [];
      while i < |names|
        invariant 0 <= i == |starts| <= |names| && i <= 31 && Built(names, contents, starts) && root == old(avail)
        invariant |old(free)| == 1 + Needed(contents[..i]) + |free|
      {
        NeededNext(contents, i);
        if i == 31 {
          BuiltValid(names, contents, starts);
          var stored, last := OneFile(contents[i]);
          return if stored then Outside else DiskFull, starts;
        }
        var done, start := AddFile(names, contents, starts, i);
        if !done { return DiskFull, starts; }
        starts := starts + [start];
        i := i + 1;
      }
      assert contents[..i] == contents;
      end := Done;
    }

    lemma NeededNext(contents: seq<seq<byte>>, i: nat)
      requires i < |contents| && i < 32
      ensures Needed(contents[..i + 1]) == Needed(contents[..i]) + ImageBlocks(|contents[i]|) && Needed(contents[..i + 1]) <= Needed(contents)
      ensures Needed(contents[..i + 1]) <= Needed(if |contents| <= 32 then contents else contents[..32])
      ensures i == 31 && |contents| > 32 ==> contents[..i + 1] == contents[..32]
    {
      assert contents[..i + 1][..i] == contents[..i];
      NeededPrefix(contents, i + 1);
      NeededPrefix(if |contents| <= 32 then contents else contents[..32], i + 1);
      assert |contents| > 32 ==> contents[..32][..i + 1] == contents[..i + 1];
    }

    lemma BuiltValid(names: seq<seq<byte>>, contents: seq<seq<byte>>, starts: seq<int>)
      requires Built(names, contents, starts)
      ensures Valid()
    {
    }
  }
}
