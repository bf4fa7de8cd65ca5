/** The mounted file system and its open files, with the FAT and the sectors changed in place. */
module FatCode {
  import opened FatModel
  import opened FatWrite
  import opened FatSafety
  import opened FatRead

  lemma AnySector(n: nat)
    ensures exists r: seq<byte> :: |r| == n
  {
    assert |seq<byte>(n, _ => 0)| == n;
  }

  class Fat439 {
    ghost const first: int
    const root: int
    const fat: array<int>
    const disk: array<seq<byte>>
    var avail: int
    ghost var free: seq<int>
    ghost var files: map<int, seq<int>>

    ghost function View(): Vol
      reads this`avail, fat, disk
    {
      Vol(fat[..], avail, disk[..])
    }

    ghost predicate Valid()
      reads this`avail, this`free, this`files, fat, disk
    {
      && Partition(fat[..], avail, free, files, first)
      && fat.Length == disk.Length && fat[0] == 0 && Sectors(disk[..])
    }

    /** Mounting: the FAT is read into memory, the sectors stay on the device. */
    constructor (image: array<seq<byte>>, imageFat: array<int>, imageAvail: int, imageRoot: int,
                 ghost dataStart: int, ghost freeChain: seq<int>, ghost chains: map<int, seq<int>>)
      requires Partition(imageFat[..], imageAvail, freeChain, chains, dataStart)
      requires imageFat.Length == image.Length && imageFat[0] == 0 && Sectors(image[..])
      ensures Valid() && disk == image && fresh(fat) && fat[..] == imageFat[..] && avail == imageAvail && root == imageRoot
      ensures first == dataStart && free == freeChain && files == chains
    {
      first := dataStart;
      root := imageRoot;
      disk := image;
      fat := new int[imageFat.Length](i requires 0 <= i < imageFat.Length reads imageFat => imageFat[i]);
      avail := imageAvail;
      free := freeChain;
      files := chains;
      new;
      assert fat[..] == imageFat[..];
    }

    method FindFreeBlock() returns (val: int)
      requires 0 <= avail < fat.Length
      modifies this`avail
      ensures val == old(avail) && avail == fat[val]
    {
      val := avail;
      avail := fat[avail];
    }

    /** findFreeBlock, and the block found becomes the end of the chain behind oldBlock. */
    method Extend(oldBlock: int) returns (val: int)
      requires 0 <= oldBlock < fat.Length && 0 <= avail < fat.Length
      modifies this`avail, fat
      ensures val == old(avail) && View() == Extended(old(View()), oldBlock)
    {
      val := FindFreeBlock();
      fat[val] := 0;
      fat[oldBlock] := val;
    }

    /** Walks the free chain and hangs `block` on its end. */
    method AddToAvail(block: int, ghost f: seq<int>)
      requires IsChain(fat[..], f) && avail == Nth(f, 0) && 0 < fat.Length && fat[0] == 0
      modifies fat
      ensures 0 <= Tail(f) < fat.Length && View() == old(View()).(fat := old(fat[..])[Tail(f) := block])
    {
      var val := avail;
      ghost var k := 0;
      if f != [] { assert LinkAt(fat[..], f, 0); }
      while fat[val] != 0
        invariant 0 <= val < fat.Length
        invariant f == [] ==> val == 0
        invariant f != [] ==> k < |f| && val == f[k]
        invariant fat[..] == old(fat[..])
        decreases |f| - k
      {
        ChainStep(fat[..], f, k);
        val := fat[val];
        k := k + 1;
      }
      if f != [] { ChainStep(fat[..], f, k); }
      fat[val] := block;
    }

    /** addToAvail, and the file's chain is cut behind oldBlock. */
    method GiveBack(block: int, oldBlock: int, ghost f: seq<int>)
      requires IsChain(fat[..], f) && avail == Nth(f, 0) && 0 <= oldBlock < fat.Length && fat[0] == 0
      modifies fat
      ensures 0 <= Tail(f) < fat.Length && View() == GivenBack(old(View()), f, block, oldBlock)
    {
      AddToAvail(block, f);
      fat[oldBlock] := 0;
    }

    /** BlockDevice::write of one sector; what follows the data in the sector is arbitrary, and
        so are the four type bytes as far as the reader is concerned. */
    method DevWrite(block: int, data: seq<byte>, isFirst: bool, headerSize: nat)
      requires 0 <= block < disk.Length && |data| + (if isFirst then 8 else 0) <= SECTOR && headerSize < 0x1_0000_0000
      modifies disk
      ensures |disk[block]| == SECTOR && Written(disk[block], data, isFirst, headerSize)
      ensures View() == WithSector(old(View()), block, disk[block])
    {
      var header: seq<byte> := if isFirst then [0, 0, 0, 1] + Little(headerSize) else [];
      AnySector(SECTOR - |header| - |data|);
      var rest: seq<byte> :| |rest| == SECTOR - |header| - |data|;
      disk[block] := header + data + rest;
      assert isFirst ==> (header + data + rest)[4..8] == Little(headerSize) && (header + data + rest)[8..8 + |data|] == data;
      assert !isFirst ==> (header + data + rest)[..|data|] == data;
    }
  }

  /** A negative count, or the bytes read. */
  datatype ReadResult = TooLong | Bytes(data: seq<byte>)

  /** An open file. The length is read from the disk once, when the object is made. */
  class OpenFile {
    const fs: Fat439
    const start: int
    const length: nat

    constructor (fs: Fat439, start: int)
      requires 0 <= start < fs.disk.Length && |fs.disk[start]| == SECTOR
      ensures this.fs == fs && this.start == start && length == StoredLength(fs.disk[..], start)
    {
      this.fs := fs;
      this.start := start;
      this.length := StoredLength(fs.disk[..], start);
    }

    ghost function JobOf(buf: seq<byte>): Job
      requires start in fs.files
      reads fs, fs.fat, fs.disk
    {
      Job(fs.View(), fs.files[start], fs.free, buf)
    }

    lemma WriteReady(buf: seq<byte>)
      requires fs.Valid() && start in fs.files && |buf| < 0x1_0000_0000
      ensures JobFor(JobOf(buf), fs.files, fs.first, start) && Ready(JobOf(buf)) && InLoop(JobOf(buf), JobOf(buf).v, 0, 0)
      ensures Current(JobOf(buf), 0, 0) == start && Thrifty(JobOf(buf), 0, 0)
    {
      assert FileChain(fs.fat[..], fs.free, fs.files, start);
      LoopStart(JobOf(buf));
    }

    /** The block for the i-th iteration when the file's chain is used up. */
    method NextFree(oldBlock: int, ghost job: Job, ghost i: nat, ghost g: int) returns (block: int, ghost g': int)
      requires InLoop(job, fs.View(), i, g) && Thrifty(job, i, g) && |Chain(job, g)| <= i && oldBlock == Previous(job, g, i)
      modifies fs`avail, fs.fat
      ensures InLoop(job, fs.View(), i, g') && block == Current(job, g', i) && oldBlock == Previous(job, g', i)
      ensures 0 <= g' <= |job.f| && (i < |Chain(job, g')| || g' == |job.f|)
    {
      if g < |job.f| {
        GrowStep(job, fs.View(), i, g);
        g' := g + 1;
      } else {
        NoGrowStep(job, fs.View(), i, g);
        g' := g;
      }
      block := fs.Extend(oldBlock);
    }

    /** Writes the i-th piece of the buffer to `block`. */
    method WritePiece(block: int, piece: seq<byte>, isFirst: bool, headerSize: nat, ghost job: Job, ghost i: nat, ghost g: int)
      requires InLoop(job, fs.View(), i, g) && block == Current(job, g, i) && (i < |Chain(job, g)| || g == |job.f|)
      requires Reached(|job.buf|, i) < |job.buf| && headerSize < 0x1_0000_0000 && (i == 0 ==> headerSize == |job.buf|) && isFirst == (i == 0)
      requires piece == job.buf[Reached(|job.buf|, i)..Reached(|job.buf|, i) + Chunk(|job.buf|, i)]
      modifies fs.disk
      ensures InLoop(job, fs.View(), i + 1, g) && Thrifty(job, i + 1, g)
    {
      ghost var v := fs.View();
      ReachedNext(|job.buf|, i);
      if i < |Chain(job, g)| { CurrentBlock(job, v, i, g); }
      fs.DevWrite(block, piece, isFirst, headerSize);
      if i < |Chain(job, g)| {
        WriteStep(job, v, i, g, fs.disk[block]);
      } else {
        WriteNowhere(job, v, i, g, fs.disk[block]);
      }
    }
  
    /** The part of write after its loop: surplus blocks go to the free chain. */
    method Finish(block: int, oldBlock: int, ghost job: Job, ghost i: nat, ghost g: int)
      requires InLoop(job, fs.View(), i, g) && Thrifty(job, i, g)
      requires block == Current(job, g, i) && oldBlock == Previous(job, g, i)
      requires if |job.buf| > 0 then AtEnd(job, fs.View(), i, g) else i == 0 && fs.View() == job.v
      modifies fs.fat
      ensures Outcome(job, fs.View())
    {
      ghost var v := fs.View();
      if i < |Chain(job, g)| { CurrentBlock(job, v, i, g); }
      if block != 0 {
        assert i < |Chain(job, g)|;
        assert g == 0 && job.f[0..] == job.f;
        PreviousInFat(job, v, i, g);
        fs.GiveBack(block, oldBlock, job.f);
        if |job.buf| == 0 {
          assert Chain(job, 0) == job.c;
          if job.f == [] { EmptyWriteFull(job); } else { EmptyWrite(job); }
        } else if job.f == [] {
          Leaked(job, v, i, g);
        } else {
          FinishShrunk(job, v, i, g);
        }
      } else if i <= |job.c| + |job.f| {
        FinishGrown(job, v, i, g);
      } else {
        Overrun(job, v, i, g);
      }
    }
  
    /** The statements of OpenFile::write. */
    method Transfer(buf: seq<byte>, ghost job: Job)
      requires fs.Valid() && start in fs.files && |buf| < 0x1_0000_0000 && job == JobOf(buf)
      modifies fs`avail, fs.fat, fs.disk
      ensures Outcome(job, fs.View())
    {
      hide InLoop, Outcome, Enough, AtEnd, Thrifty, Ready, Partition;
      WriteReady(buf);
      var block, oldBlock, offset, left, isFirst := start, 0, 0, |buf|, true;
      ghost var i: nat, g: int := 0, 0;
      while left > 0
        invariant 0 <= g <= |job.f| && InLoop(job, fs.View(), i, g) && Thrifty(job, i, g)
        invariant block == Current(job, g, i) && oldBlock == Previous(job, g, i)
        invariant offset == Reached(|buf|, i) && left == |buf| - offset && isFirst == (i == 0)
        invariant i <= Blocks(|buf|) && (i == 0 ==> fs.View() == job.v) && (|buf| == 0 ==> i == 0)
      {
        ReachedNext(|buf|, i);
        LoopBounds(job, fs.View(), i, g);
        if block == 0 {
          ChainUsedUp(job, fs.View(), i, g);
          block, g := NextFree(oldBlock, job, i, g);
        }
        var num := if isFirst then (if 504 < left then 504 else left) else (if 512 < left then 512 else left);
        WritePiece(block, buf[offset..offset + num], isFirst, left, job, i, g);
        NextBlock(job, fs.View(), i, g);
        oldBlock := block;
        block := fs.fat[block];
        offset, left, isFirst := offset + num, left - num, false;
        i := i + 1;
      }
      ReachedNext(|buf|, i);
      if |buf| > 0 { EndReached(job, fs.View(), i, g); }
      Finish(block, oldBlock, job, i, g);
    }

    /** With n > 0 the blocks are soundly split afterwards, with ceil((n + 8) / 512) of them in
        this file, exactly if there was room and, when the file shrinks, a free chain to give
        blocks to. With n == 0 they are soundly split exactly if there was no free block. */
    method Write(buf: seq<byte>)
      requires fs.Valid() && start in fs.files && |buf| < 0x1_0000_0000
      modifies fs`avail, fs`free, fs`files, fs.fat, fs.disk
      ensures |buf| > 0 ==> (Enough(old(JobOf(buf))) <==> Sound(fs.View(), old(fs.files), fs.first, start, Blocks(|buf|)))
      ensures |buf| == 0 ==> (old(fs.free) == [] <==> Whole(fs.View(), old(fs.files), fs.first, start))
      ensures Enough(old(JobOf(buf))) ==>
        var job := old(JobOf(buf));
        fs.Valid() && Finished(job, fs.View()) && fs.files == old(fs.files)[start := NewChain(job)] && fs.free == NewFree(job)
    {
      ghost var job := JobOf(buf);
      WriteReady(buf);
      Transfer(buf, job);
      WriteVerdict(job, fs.View(), fs.files, fs.first, start);
      if Enough(job) {
        fs.files := fs.files[start := NewChain(job)];
        fs.free := NewFree(job);
      }
    }
  
    /** c is the chain of the file's first block. It need not cover the length: a handle keeps the
        length it was opened with when the file is written through another one. */
    ghost predicate Readable(c: seq<int>)
      reads fs, fs.fat, fs.disk
    {
      && fs.fat.Length == fs.disk.Length && 0 < fs.fat.Length && IsChain(fs.fat[..], c) && c != [] && c[0] == start
      && OnDisk(fs.disk[..], c) && fs.fat[0] == 0
    }

    ghost function Text(c: seq<int>): (s: seq<byte>)
      requires Readable(c)
      reads fs, fs.fat, fs.disk
      ensures |s| == length
    {
      Content(fs.disk[..], c, length)
    }

    /** OpenFile::read: at most up to the end of the sector. */
    method Read(offset: nat, n: nat, ghost c: seq<int>) returns (r: ReadResult)
      requires Readable(c)
      ensures offset > length ==> r == TooLong
      ensures offset <= length ==> r == Bytes(Text(c)[offset..offset + Count(length, offset, n)])
    {
      if offset > length { return TooLong; }
      var len := if n < length - offset then n else length - offset;
      var actual := offset + 8;
      var blockInFile, offsetInBlock := actual / SECTOR, actual % SECTOR;
      var block := start;
      var i := 0;
      while i < blockInFile
        invariant 0 <= i <= blockInFile && block == Nth(c, i) && 0 <= block < fs.fat.Length
      {
        if i < |c| { ChainStep(fs.fat[..], c, i); }
        block := fs.fat[block];
        i := i + 1;
      }
      var m := if len < SECTOR - offsetInBlock then len else SECTOR - offsetInBlock;
      SectorAt(fs.disk[..], c, block);
      var data := fs.disk[block][offsetInBlock..offsetInBlock + m];
      ReadPiece(fs.disk[..], c, length, offset, m, block);
      return Bytes(data);
    }

    /** OpenFile::readFully. The offset is not advanced between reads, so what comes after the
        first piece is that piece again. */
    method ReadFully(offset: nat, n: nat, ghost c: seq<int>) returns (r: ReadResult)
      requires Readable(c)
      ensures n == 0 ==> r == Bytes([])
      ensures n > 0 && offset > length ==> r == TooLong
      ensures n > 0 && offset == length ==> r == Bytes([])
      ensures n > 0 && offset < length ==> r == Bytes(Repeated(Text(c), offset, Piece(length, offset), n))
    {
      var data: seq<byte> := [];
      var togo := n;
      while togo > 0
        invariant 0 <= togo && togo + |data| == n
        invariant data == [] || (offset < length && Again(Text(c), offset, Piece(length, offset), data, togo == 0))
        decreases togo
      {
        var got := Read(offset, togo, c);
        if got == TooLong { return TooLong; }
        if |got.data| == 0 { return Bytes(data); }
        AgainStep(Text(c), offset, Piece(length, offset), data, got.data, togo);
        data := data + got.data;
        togo := togo - |got.data|;
      }
      if data != [] { AgainDone(Text(c), offset, Piece(length, offset), data); }
      assert n == 0 ==> data == [];
      return Bytes(data);
    }
  }
}
