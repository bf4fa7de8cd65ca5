/** Directories, handles with a position, and the round trips through them. */
module FatDirectory {
  import opened FatModel
  import opened FatWrite
  import opened FatSafety
  import opened FatRead
  import opened FatCode

  const ENTRY := 16

  /** A 16-byte entry names a file when the name and its terminator are the first bytes of it. */
  predicate Names(entry: seq<byte>, name: seq<byte>)
    requires |entry| == ENTRY
  {
    |name| < 12 && entry[..|name|] == name && entry[|name|] == 0
  }

  function StartOf(entry: seq<byte>): nat
    requires |entry| == ENTRY
  {
    FromLittle(entry[12..])
  }

  /** What readFully delivers for the i-th entry of the directory. */
  ghost function EntryRead(text: seq<byte>, i: nat): (e: seq<byte>)
    requires ENTRY * (i + 1) <= |text|
    ensures |e| == ENTRY
  {
    Repeated(text, ENTRY * i, Piece(|text|, ENTRY * i), ENTRY)
  }

  /** Every entry but the last of each 32 lies inside one sector and is delivered as stored. */
  lemma EntryReadRight(text: seq<byte>, i: nat)
    requires ENTRY * (i + 1) <= |text| && i % 32 != 31
    ensures EntryRead(text, i) == text[ENTRY * i..ENTRY * (i + 1)]
  {
    var m := Piece(|text|, ENTRY * i);
    assert (ENTRY * i + 8) % SECTOR == ENTRY * (i % 32) + 8;
    assert m >= ENTRY;
    assert forall t :: 0 <= t < ENTRY ==> Wrap(t, m) == t;
  }

  /** The start of the first entry from i on that names the file; 0 if none does. */
  ghost function Find(text: seq<byte>, entries: nat, name: seq<byte>, i: nat): nat
    requires ENTRY * entries <= |text| && i <= entries
    decreases entries - i
  {
    if i == entries then 0
    else if Names(EntryRead(text, i), name) then StartOf(EntryRead(text, i))
    else Find(text, entries, name, i + 1)
  }

  /** Find returns the k-th start if the k-th entry names the file and no earlier one does. */
  lemma {:induction false} FindFirst(text: seq<byte>, entries: nat, name: seq<byte>, i: nat, k: nat)
    requires ENTRY * entries <= |text| && i <= k < entries
    requires Names(EntryRead(text, k), name)
    requires forall j :: i <= j < k ==> !Names(EntryRead(text, j), name)
    ensures Find(text, entries, name, i) == StartOf(EntryRead(text, k))
    decreases k - i
  {
    if i < k { FindFirst(text, entries, name, i + 1, k); }
  }

  /** Entry k is the first from i on that names the file. */
  ghost predicate FirstNamed(text: seq<byte>, entries: nat, name: seq<byte>, i: nat, k: nat) {
    i <= k < entries && ENTRY * entries <= |text| && Names(EntryRead(text, k), name)
    && forall j {:trigger EntryRead(text, j)} :: i <= j < k ==> !Names(EntryRead(text, j), name)
  }

  ghost predicate NoneNamed(text: seq<byte>, entries: nat, name: seq<byte>, i: nat) {
    ENTRY * entries <= |text| && forall j {:trigger EntryRead(text, j)} :: i <= j < entries ==> !Names(EntryRead(text, j), name)
  }

  /** The answer to a lookup: the start of the first entry of that name, or 0 if there is none. */
  ghost predicate Answers(text: seq<byte>, entries: nat, name: seq<byte>, i: nat, idx: int) {
    || (idx == 0 && NoneNamed(text, entries, name, i))
    || exists k: nat {:trigger FirstNamed(text, entries, name, i, k)} :: FirstNamed(text, entries, name, i, k) && idx == StartOf(EntryRead(text, k))
  }

  /** The search answers for names that occur and for names that do not: with none, 0; and an answer
      other than 0 is the start of an entry that names the file. */
  lemma {:induction false} FindAnswers(text: seq<byte>, entries: nat, name: seq<byte>, i: nat)
    requires ENTRY * entries <= |text| && i <= entries
    ensures Answers(text, entries, name, i, Find(text, entries, name, i))
    ensures NoneNamed(text, entries, name, i) ==> Find(text, entries, name, i) == 0
    decreases entries - i
  {
    hide Names, StartOf, EntryRead;
    if i < entries {
      if Names(EntryRead(text, i), name) {
        assert FirstNamed(text, entries, name, i, i);
      } else {
        FindAnswers(text, entries, name, i + 1);
        if NoneNamed(text, entries, name, i + 1) {
          assert NoneNamed(text, entries, name, i);
        } else {
          var k: nat :| FirstNamed(text, entries, name, i + 1, k) && Find(text, entries, name, i + 1) == StartOf(EntryRead(text, k));
          assert FirstNamed(text, entries, name, i, k);
        }
      }
    }
  }

  lemma StringEnd(name: seq<byte>, i: nat)
    requires 0 !in name && i <= |name| && (i < |name| ==> name[i] == 0)
    ensures i == |name|
  {
  }

  class Directory {
    const start: int
    const content: OpenFile
    const entries: nat

    constructor (fs: Fat439, start: int)
      requires 0 <= start < fs.disk.Length && |fs.disk[start]| == SECTOR
      ensures this.start == start && content.fs == fs && content.start == start
      ensures content.length == StoredLength(fs.disk[..], start) && entries == content.length / ENTRY
    {
      this.start := start;
      var file := new OpenFile(fs, start);
      content := file;
      entries := file.length / ENTRY;
    }

    /** The comparison of one entry with a C string. */
    method Compare(entry: seq<byte>, name: seq<byte>) returns (same: bool)
      requires |entry| == ENTRY && 0 !in name
      ensures same == Names(entry, name)
    {
      var i := 0;
      while i < 12
        invariant 0 <= i <= 12 && i <= |name| && entry[..i] == name[..i]
      {
        var x := entry[i];
        var y := if i < |name| then name[i] else 0;
        if x != y {
          assert i < |name| && |name| < 12 ==> entry[..|name|][i] == entry[i];
          return false;
        }
        if x == 0 {
          StringEnd(name, i);
          return true;
        }
        i := i + 1;
      }
      return false;
    }

    /** Fat439Directory::lookup. */
    method Lookup(name: seq<byte>, ghost c: seq<int>) returns (idx: int)
      requires content.Readable(c) && entries == content.length / ENTRY && 0 !in name
      ensures name == [46] ==> idx == start
      ensures name != [46] ==> idx == Find(content.Text(c), entries, name, 0) && Answers(content.Text(c), entries, name, 0, idx)
      ensures name != [46] && NoneNamed(content.Text(c), entries, name, 0) ==> idx == 0
    {
      hide Answers, NoneNamed, Content, Repeated;
      FindAnswers(content.Text(c), entries, name, 0);
      if name == [46] { return start; }
      var offset := 0;
      var i := 0;
      while i < entries
        invariant 0 <= i <= entries && offset == ENTRY * i
        invariant Find(content.Text(c), entries, name, 0) == Find(content.Text(c), entries, name, i)
      {
        var r := content.ReadFully(offset, ENTRY, c);
        assert r.data == EntryRead(content.Text(c), i);
        offset := offset + ENTRY;
        var same := Compare(r.data, name);
        if same { return FromLittle(r.data[12..]); }
        i := i + 1;
      }
      return 0;
    }
  }

  /** Fat439File: an open file with a position of its own. */
  class FileHandle {
    const file: OpenFile
    var offset: nat

    constructor (file: OpenFile)
      ensures this.file == file && offset == 0
    {
      this.file := file;
      offset := 0;
    }

    method Seek(offset: nat)
      modifies this
      ensures this.offset == offset
    {
      this.offset := offset;
    }

    /** The copy that a forked process gets: the same open file, at the same position. */
    method ForkMe() returns (other: FileHandle)
      ensures fresh(other) && other.file == file && other.offset == offset
    {
      other := new FileHandle(file);
      other.offset := offset;
    }

    method Read(n: nat, ghost c: seq<int>) returns (r: ReadResult)
      requires file.Readable(c)
      modifies this
      ensures old(offset) > file.length ==> r == TooLong && offset == old(offset)
      ensures old(offset) <= file.length ==>
        var k := Count(file.length, old(offset), n);
        r == Bytes(file.Text(c)[old(offset)..old(offset) + k]) && offset == old(offset) + k
    {
      r := file.Read(offset, n, c);
      if r.Bytes? && |r.data| > 0 { offset := offset + |r.data|; }
    }

    /** File::readFully: the position moves on, so all the wanted bytes come in order. */
    method ReadFully(n: nat, ghost c: seq<int>) returns (r: ReadResult)
      requires file.Readable(c)
      modifies this
      ensures n == 0 ==> r == Bytes([]) && offset == old(offset)
      ensures n > 0 && old(offset) > file.length ==> r == TooLong && offset == old(offset)
      ensures n > 0 && old(offset) <= file.length ==>
        r == Bytes(Wanted(file.Text(c), old(offset), n)) && offset == old(offset) + |r.data|
    {
      hide Piece;
      var data: seq<byte> := [];
      var togo := n;
      ghost var o := offset;
      while togo > 0
        invariant 0 <= togo && togo + |data| == n && offset == o + |data|
        invariant o <= file.length ==> offset <= file.length && data == file.Text(c)[o..offset]
        invariant o > file.length ==> data == []
      {
        ghost var at := offset;
        if at <= file.length { CountFits(file.length, at, togo); }
        var got := Read(togo, c);
        if got == TooLong { return TooLong; }
        if |got.data| == 0 {
          if o <= file.length { NothingLeft(file.Text(c), o, at, n); }
          return Bytes(data);
        }
        if o <= file.length { MoreRead(file.Text(c), o, at, offset); }
        data := data + got.data;
        togo := togo - |got.data|;
      }
      assert n == 0 ==> data == [];
      return Bytes(data);
    }
  }

  lemma CountFits(length: nat, offset: nat, n: nat)
    requires offset <= length
    ensures offset + Count(length, offset, n) <= length && Count(length, offset, n) <= n
  {
  }

  lemma MoreRead(text: seq<byte>, o: nat, from: nat, to: nat)
    requires o <= from <= to <= |text|
    ensures text[o..from] + text[from..to] == text[o..to]
  {
  }

  /** A read that delivers nothing has reached the end of the file. */
  lemma NothingLeft(text: seq<byte>, o: nat, offset: nat, n: nat)
    requires o <= offset <= |text| && offset < o + n && Count(|text|, offset, o + n - offset) == 0
    ensures text[o..offset] == Wanted(text, o, n)
  {
    assert Piece(|text|, offset) == 0;
  }

  // ---------------------------------------------------------------- write, reopen, read

  /** After a write that fits, the stored length and the bytes along the new chain are those of
      the buffer. */
  lemma WriteReadsBack(job: Job, v: Vol)
    requires Ready(job) && Enough(job) && Finished(job, v)
    ensures var d := NewChain(job);
      && OnDisk(v.disk, d) && |job.buf| + 8 <= SECTOR * |d| && 0 <= d[0] < |v.disk|
      && StoredLength(v.disk, d[0]) == |job.buf|
      && Content(v.disk, d, |job.buf|) == job.buf
  {
    HoldsContent(v.disk, NewChain(job), job.buf);
    LittleRoundTrip(|job.buf|);
    assert NewChain(job)[0] == job.c[0];
  }

  /** What a handle that was opened with some other length reads after the write: that many bytes
      along the new chain. They are the buffer exactly if request and old length allow just its
      length; otherwise they fall short of it or go on behind it. */
  lemma OldLengthReads(job: Job, v: Vol, length: nat, n: nat)
    requires Ready(job) && Enough(job) && Finished(job, v)
    ensures OnDisk(v.disk, NewChain(job)) && 0 < |v.disk|
    ensures var got := Wanted(Content(v.disk, NewChain(job), length), 0, n);
      && |got| == (if n < length then n else length)
      && (got == job.buf <==> |got| == |job.buf|)
      && if |got| < |job.buf| then got == job.buf[..|got|] else got[..|job.buf|] == job.buf
  {
    var d := NewChain(job);
    var got := Wanted(Content(v.disk, d, length), 0, n);
    var m := if |got| < |job.buf| then |got| else |job.buf|;
    forall j | 0 <= j < m
      ensures got[j] == job.buf[j]
    {
      assert ByteIs(v.disk, d, job.buf, j);
    }
    assert got[..m] == job.buf[..m];
    assert job.buf[..|job.buf|] == job.buf && got[..|got|] == got;
  }

  /** A write, and a read from the start of the file through a handle that was there before. */
  method WriteReadOld(handle: FileHandle, buf: seq<byte>, n: nat) returns (r: ReadResult)
    requires handle.file.fs.Valid() && handle.file.start in handle.file.fs.files && |buf| < 0x1_0000_0000
    requires Enough(handle.file.JobOf(buf))
    modifies handle, handle.file.fs`avail, handle.file.fs`free, handle.file.fs`files, handle.file.fs.fat, handle.file.fs.disk
    ensures handle.file.fs.Valid() && r.Bytes? && |r.data| == (if n < handle.file.length then n else handle.file.length)
    ensures r.data == buf <==> |r.data| == |buf|
    ensures |r.data| < |buf| ==> r.data == buf[..|r.data|]
  {
    var file := handle.file;
    ghost var job := file.JobOf(buf);
    file.WriteReady(buf);
    file.Write(buf);
    OldLengthReads(job, file.fs.View(), file.length, n);
    assert file.Readable(NewChain(job));
    handle.Seek(0);
    r := handle.ReadFully(n, NewChain(job));
  }

  /** An input: a file of 5 bytes is opened and 600 bytes are written to it; the handle reads 5. */
  method GrowReadOld(buf: seq<byte>) returns (r: ReadResult)
    requires |buf| == 600
    ensures r.Bytes? && |r.data| == 5 && r.data == buf[..5]
  {
    var zeros: seq<byte> := seq(SECTOR, _ => 0);
    var image := new seq<byte>[3](i => if i == 1 then zeros[4 := 5] else zeros);
    var table := new int[3](_ => 0);
    SmallPartition(table[..]);
    var fs := new Fat439(image, table, 2, 1, 1, [2], map[1 := [1]]);
    var file := new OpenFile(fs, 1);
    var handle := new FileHandle(file);
    assert Enough(file.JobOf(buf));
    r := WriteReadOld(handle, buf, 600);
  }

  lemma SmallPartition(fat: seq<int>)
    requires fat == [0, 0, 0]
    ensures Partition(fat, 2, [2], map[1 := [1]], 1)
  {
    var files: map<int, seq<int>> := map[1 := [1]];
    assert LinkAt(fat, [2], 0) && LinkAt(fat, [1], 0);
    assert FileChain(fat, [2], files, 1);
    forall b {:trigger Owned([2], files, b)} ensures Owned([2], files, b) <==> 1 <= b < 3 { assert 1 in files[1]; }
  }

  /** Writing a buffer and reading the file through an open file that is made after the write gives
      the buffer back. */
  method WriteReopenRead(file: OpenFile, buf: seq<byte>, n: nat) returns (length: nat, r: ReadResult)
    requires file.fs.Valid() && file.start in file.fs.files && |buf| < 0x1_0000_0000
    requires Enough(file.JobOf(buf)) && n >= |buf|
    modifies file.fs`avail, file.fs`free, file.fs`files, file.fs.fat, file.fs.disk
    ensures length == |buf| && r == Bytes(buf) && file.fs.Valid()
  {
    ghost var job := file.JobOf(buf);
    file.WriteReady(buf);
    file.Write(buf);
    WriteReadsBack(job, file.fs.View());
    var again := new OpenFile(file.fs, file.start);
    var handle := new FileHandle(again);
    assert again.Readable(NewChain(job));
    length := again.length;
    r := handle.ReadFully(n, NewChain(job));
  }
}
