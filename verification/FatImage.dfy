/** Mounting an image that mkfs has built: every file is found by name and reads back whole. */
module FatImage {
  import opened FatModel
  import opened FatRead
  import opened FatCode
  import opened FatDirectory
  import opened MkfsModel
  import opened MkfsCode

  /** The root directory's bytes as a reader sees them. */
  lemma RootText(disk: seq<seq<byte>>, root: int, n: nat, j: nat, name: seq<byte>, start: nat)
    requires 0 <= root < |disk| && OnDisk(disk, [root]) && j < n <= 31 && EntryAt(disk[root], j, name, start)
    ensures ENTRY * n + 8 <= SECTOR
    ensures EntryRead(Content(disk, [root], ENTRY * n), j) == Entry(name, start)
  {
    var text := Content(disk, [root], ENTRY * n);
    EntryReadRight(text, j);
    RootBytes(disk, root, n, j);
  }

  lemma RootBytes(disk: seq<seq<byte>>, root: int, n: nat, j: nat)
    requires 0 <= root < |disk| && OnDisk(disk, [root]) && j < n <= 31
    ensures |disk[root]| == SECTOR && ENTRY * n + 8 <= SECTOR
    ensures Content(disk, [root], ENTRY * n)[ENTRY * j..ENTRY * (j + 1)] == disk[root][8 + ENTRY * j..24 + ENTRY * j]
  {
    assert [root][0] == root;
    var text := Content(disk, [root], ENTRY * n);
    forall t {:trigger text[t]} | 0 <= t < ENTRY * n
      ensures text[t] == disk[root][t + 8]
    {
      assert text[t] == FileByte(disk, [root], t) && (t + 8) / SECTOR == 0;
    }
  }

  /** Looking a name up in the root directory gives the first block of the file of that name,
      for NUL-free names of which the wanted one has at most eleven bytes and occurs once. */
  lemma LookupFinds(disk: seq<seq<byte>>, files: map<int, seq<int>>, root: int,
                    names: seq<seq<byte>>, contents: seq<seq<byte>>, starts: seq<int>, k: nat)
    requires 0 <= root < |disk| && OnDisk(disk, [root]) && |disk| < 0x1_0000_0000 && |starts| == |names| == |contents| <= 31 && k < |names|
    requires forall j {:trigger starts[j]} :: 0 <= j < |starts| ==> FileBuilt(disk, files, root, names[j], contents[j], starts[j], j)
    requires forall j {:trigger names[j]} :: 0 <= j < |names| ==> 0 !in names[j] && (j != k ==> names[j] != names[k])
    requires |names[k]| <= 11
    ensures ENTRY * |names| + 8 <= SECTOR
    ensures Find(Content(disk, [root], ENTRY * |names|), |names|, names[k], 0) == starts[k]
  {
    var text := Content(disk, [root], ENTRY * |names|);
    forall j {:trigger EntryRead(text, j)} | 0 <= j < |names|
      ensures EntryRead(text, j) == Entry(names[j], starts[j])
      ensures Names(EntryRead(text, j), names[k]) <==> j == k
      ensures StartOf(EntryRead(text, j)) == starts[j]
    {
      assert FileBuilt(disk, files, root, names[j], contents[j], starts[j], j);
      RootText(disk, root, |names|, j, names[j], starts[j]);
      EntryNames(names[k], names[j], starts[j]);
    }
    FindFirst(text, |names|, names[k], 0, k);
  }

  /** Looking up any other name, or one of twelve bytes or more, finds nothing. */
  lemma LookupMisses(disk: seq<seq<byte>>, files: map<int, seq<int>>, root: int,
                     names: seq<seq<byte>>, contents: seq<seq<byte>>, starts: seq<int>, name: seq<byte>)
    requires 0 <= root < |disk| && OnDisk(disk, [root]) && |disk| < 0x1_0000_0000 && |starts| == |names| == |contents| <= 31
    requires forall j {:trigger starts[j]} :: 0 <= j < |starts| ==> FileBuilt(disk, files, root, names[j], contents[j], starts[j], j)
    requires forall j {:trigger names[j]} :: 0 <= j < |names| ==> 0 !in names[j]
    requires 0 !in name && (name !in names || |name| >= 12)
    ensures ENTRY * |names| + 8 <= SECTOR
    ensures NoneNamed(Content(disk, [root], ENTRY * |names|), |names|, name, 0)
    ensures Find(Content(disk, [root], ENTRY * |names|), |names|, name, 0) == 0
  {
    var text := Content(disk, [root], ENTRY * |names|);
    forall j {:trigger EntryRead(text, j)} | 0 <= j < |names|
      ensures !Names(EntryRead(text, j), name)
    {
      assert FileBuilt(disk, files, root, names[j], contents[j], starts[j], j);
      RootText(disk, root, |names|, j, names[j], starts[j]);
      if |name| < 12 { EntryNames(name, names[j], starts[j]); }
    }
    FindAnswers(text, |names|, name, 0);
  }

  /** Mounting an image and looking up a name that it does not hold gives 0, for which lookupFile
      returns no file. */
  method MissInImage(image: Image, name: seq<byte>, ghost names: seq<seq<byte>>, ghost contents: seq<seq<byte>>, ghost starts: seq<int>)
    returns (idx: int)
    requires image.Built(names, contents, starts) && |starts| == |names| && image.disk.Length < 0x1_0000_0000
    requires forall j {:trigger names[j]} :: 0 <= j < |names| ==> 0 !in names[j]
    requires 0 !in name && name != [46] && (name !in names || |name| >= 12)
    ensures idx == 0
  {
    hide FileBuilt, Find, Content, StoredFile, Partition, IsChain, OnDisk, StoredLength;
    assert image.Valid();
    var fs := new Fat439(image.disk, image.fat, image.avail, image.root, image.first, image.free, image.files);
    ghost var disk := fs.disk[..];
    RootReadable(image, names, contents, starts);
    var dir := new Directory(fs, image.root);
    LookupMisses(disk, image.files, image.root, names, contents, starts, name);
    idx := dir.Lookup(name, [image.root]);
  }

  /** Mount, look up, open, read: the bytes that were put into the image come back. */
  method ReadFromImage(image: Image, name: seq<byte>, n: nat, ghost names: seq<seq<byte>>, ghost contents: seq<seq<byte>>,
                       ghost starts: seq<int>, ghost k: nat)
    returns (idx: int, r: ReadResult)
    requires image.Built(names, contents, starts) && |starts| == |names| && k < |names| && name == names[k]
    requires image.disk.Length < 0x1_0000_0000 && |contents[k]| < 0x1_0000_0000
    requires forall j {:trigger names[j]} :: 0 <= j < |names| ==> 0 !in names[j] && (j != k ==> names[j] != name)
    requires |name| <= 11 && name != [46] && n >= |contents[k]|
    ensures idx == starts[k] && r == Bytes(contents[k])
  {
    hide FileBuilt, Find, Content, StoredFile, Partition, IsChain, OnDisk, StoredLength, Wanted;
    assert image.Valid();
    WantedAll(contents[k], n);
    var fs := new Fat439(image.disk, image.fat, image.avail, image.root, image.first, image.free, image.files);
    ghost var disk := fs.disk[..];
    RootReadable(image, names, contents, starts);
    var dir := new Directory(fs, image.root);
    LookupFinds(disk, image.files, image.root, names, contents, starts, k);
    idx := dir.Lookup(name, [image.root]);
    FileReadable(image, names, contents, starts, k);
    ghost var c := image.files[starts[k]];
    var file := new OpenFile(fs, idx);
    var handle := new FileHandle(file);
    r := handle.ReadFully(n, c);
  }

  lemma WantedAll(text: seq<byte>, n: nat)
    requires n >= |text|
    ensures Wanted(text, 0, n) == text && (n == 0 ==> text == [])
  {
  }

  lemma RootReadable(image: Image, names: seq<seq<byte>>, contents: seq<seq<byte>>, starts: seq<int>)
    requires image.Built(names, contents, starts) && |names| <= 31
    ensures IsChain(image.fat[..], [image.root]) && OnDisk(image.disk[..], [image.root])
    ensures 0 < image.root < image.disk.Length && |image.disk[image.root]| == SECTOR
    ensures StoredLength(image.disk[..], image.root) == ENTRY * |names|
  {
    assert FileChain(image.fat[..], image.free, image.files, image.root);
    assert image.disk[..][image.root] == image.disk[image.root];
    LittleRoundTrip(ENTRY * |names|);
  }

  lemma FileReadable(image: Image, names: seq<seq<byte>>, contents: seq<seq<byte>>, starts: seq<int>, k: nat)
    requires image.Built(names, contents, starts) && k < |starts| && |contents[k]| < 0x1_0000_0000
    ensures starts[k] in image.files && 0 <= starts[k] < image.disk.Length && |image.disk[starts[k]]| == SECTOR
    ensures var c, content := image.files[starts[k]], contents[k];
      && IsChain(image.fat[..], c) && c != [] && c[0] == starts[k] && OnDisk(image.disk[..], c) && |content| + 8 <= SECTOR * |c|
      && Content(image.disk[..], c, |content|) == content && StoredLength(image.disk[..], starts[k]) == |content|
  {
    assert FileBuilt(image.disk[..], image.files, image.root, names[k], contents[k], starts[k], k);
    assert FileChain(image.fat[..], image.free, image.files, starts[k]);
    StoredReads(image.disk[..], image.files[starts[k]], contents[k]);
    assert image.disk[..][starts[k]] == image.disk[starts[k]];
  }
}
