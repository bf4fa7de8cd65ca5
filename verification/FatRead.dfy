/** Reading a file along its chain, piece by piece. */
module FatRead {
  import opened FatModel

  /** The first n bytes stored along c. */
  ghost function Content(disk: seq<seq<byte>>, c: seq<int>, n: nat): (s: seq<byte>)
    requires OnDisk(disk, c) && (n + 8 <= SECTOR * |c| || 0 < |disk|)
    ensures |s| == n
    ensures forall j {:trigger s[j]} :: 0 <= j < n ==> s[j] == FileByte(disk, c, j)
  {
    seq(n, j requires 0 <= j < n => FileByte(disk, c, j))
  }

  /** What Holds says about the whole buffer. */
  lemma HoldsContent(disk: seq<seq<byte>>, c: seq<int>, buf: seq<byte>)
    requires OnDisk(disk, c) && Holds(disk, c, buf, |buf|) && |buf| + 8 <= SECTOR * |c|
    ensures Content(disk, c, |buf|) == buf
  {
    forall j | 0 <= j < |buf|
      ensures Content(disk, c, |buf|)[j] == buf[j]
    {
      assert ByteIs(disk, c, buf, j);
    }
  }

  /** Bytes from offset to the end of its sector or of the file, whichever comes first. */
  function Piece(length: nat, offset: nat): nat
    requires offset <= length
  {
    var room := SECTOR - (offset + 8) % SECTOR;
    if length - offset < room then length - offset else room
  }

  /** How many bytes one read delivers. */
  function Count(length: nat, offset: nat, n: nat): nat
    requires offset <= length
  {
    if n < Piece(length, offset) then n else Piece(length, offset)
  }

  lemma SectorAt(disk: seq<seq<byte>>, c: seq<int>, block: int)
    requires OnDisk(disk, c) && 0 < |disk| && (block == 0 || block in c)
    ensures 0 <= block < |disk| && |disk[block]| == SECTOR
  {
  }

  lemma ReadPiece(disk: seq<seq<byte>>, c: seq<int>, length: nat, offset: nat, m: nat, block: int)
    requires OnDisk(disk, c) && 0 < |disk| && offset <= length && m <= Piece(length, offset)
    requires 0 <= block < |disk| && |disk[block]| == SECTOR && block == Nth(c, (offset + 8) / SECTOR)
    ensures (offset + 8) % SECTOR + m <= SECTOR
    ensures disk[block][(offset + 8) % SECTOR..(offset + 8) % SECTOR + m] == Content(disk, c, length)[offset..offset + m]
  {
    var s, o := Content(disk, c, length), (offset + 8) % SECTOR;
    var left, right := disk[block][o..o + m], s[offset..offset + m];
    forall k {:trigger left[k]} | 0 <= k < m
      ensures left[k] == right[k]
    {
      assert (offset + k + 8) / SECTOR == (offset + 8) / SECTOR && (offset + k + 8) % SECTOR == o + k;
      assert s[offset + k] == FileByte(disk, c, offset + k);
    }
  }

  // ---------------------------------------------------------------- reading without moving on

  /** t modulo m. */
  function Wrap(t: nat, m: nat): (r: nat)
    requires 0 < m
    ensures r < m && (t < m ==> r == t)
  {
    if t < m then t else Wrap(t - m, m)
  }

  /** n bytes made of the m bytes at offset over and over. */
  ghost function Repeated(text: seq<byte>, offset: nat, m: nat, n: nat): (s: seq<byte>)
    requires 0 < m && offset + m <= |text|
    ensures |s| == n
    ensures forall t {:trigger s[t]} :: 0 <= t < n ==> s[t] == text[offset + Wrap(t, m)]
  {
    seq(n, t requires 0 <= t < n => text[offset + Wrap(t, m)])
  }

  /** data repeats the piece, and ends with a whole piece unless it is complete. */
  ghost predicate Again(text: seq<byte>, offset: nat, m: nat, data: seq<byte>, complete: bool) {
    && 0 < m && offset + m <= |text|
    && data == Repeated(text, offset, m, |data|)
    && (complete || Wrap(|data|, m) == 0)
  }

  lemma {:induction false} WrapAdd(t: nat, m: nat, k: nat)
    requires 0 < m && Wrap(t, m) == 0 && k < m
    ensures Wrap(t + k, m) == k
    ensures Wrap(t + m, m) == 0
    decreases t
  {
    if t >= m { WrapAdd(t - m, m, k); }
  }

  lemma AgainStep(text: seq<byte>, offset: nat, m: nat, data: seq<byte>, got: seq<byte>, togo: nat)
    requires 0 < m && offset + m <= |text| && (data == [] || Again(text, offset, m, data, false))
    requires 0 < togo && |got| == (if togo < m then togo else m) && got == text[offset..offset + |got|]
    ensures Again(text, offset, m, data + got, togo == |got|)
  {
    var both := data + got;
    forall t | 0 <= t < |both|
      ensures both[t] == text[offset + Wrap(t, m)]
    {
      if t >= |data| { WrapAdd(|data|, m, t - |data|); }
    }
    WrapAdd(|data|, m, 0);
  }

  lemma AgainDone(text: seq<byte>, offset: nat, m: nat, data: seq<byte>)
    requires Again(text, offset, m, data, true)
    ensures data == Repeated(text, offset, m, |data|)
  {
  }

  /** What the caller of readFully expects: the bytes in order, fewer at the end of the file. */
  function Wanted(text: seq<byte>, offset: nat, n: nat): seq<byte>
    requires offset <= |text|
  {
    if offset + n <= |text| then text[offset..offset + n] else text[offset..]
  }

  /** readFully without advancing is right whatever the file holds exactly when one piece is
      enough: the request crosses neither a sector boundary nor the end of the file. */
  lemma RepeatedIsWanted(length: nat, offset: nat, n: nat)
    requires offset < length
    ensures (forall text: seq<byte> :: |text| == length ==> Repeated(text, offset, Piece(length, offset), n) == Wanted(text, offset, n))
      <==> n <= Piece(length, offset)
  {
    var m := Piece(length, offset);
    if n <= m {
      forall text: seq<byte> | |text| == length
        ensures Repeated(text, offset, m, n) == Wanted(text, offset, n)
      {
        assert forall t :: 0 <= t < n ==> Wrap(t, m) == t;
      }
    } else {
      var text: seq<byte> := seq(length, t => if t == offset then 1 else 0);
      var got := Repeated(text, offset, m, n);
      WrapAdd(0, m, 0);
      assert got[m] == text[offset];
      if offset + n <= length { assert Wanted(text, offset, n)[m] == text[offset + m]; }
      assert got != Wanted(text, offset, n);
    }
  }
}
