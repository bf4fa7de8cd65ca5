/** Payloads as bytes, little end first, for the byte-wise copy in realloc. */
module HeapBytes {

  function Place(i: nat): (p: int)
    requires i < 4
    ensures p == if i == 0 then 1 else if i == 1 then 0x100 else if i == 2 then 0x1_0000 else 0x100_0000
  {
    if i == 0 then 1 else 256 * Place(i - 1)
  }

  /** Byte i of a word in two's complement. */
  function ByteOf(w: int, i: nat): (b: int)
    requires i < 4
    ensures 0 <= b < 256
  {
    if i == 0 then w % 256 else if i == 1 then w / 0x100 % 256 else if i == 2 then w / 0x1_0000 % 256 else w / 0x100_0000 % 256
  }

  function SetByte(w: int, i: nat, b: int): int
    requires i < 4
  {
    w + (b - ByteOf(w, i)) * Place(i)
  }

  lemma LowDigit(x: int, b: int)
    requires 0 <= b < 256
    ensures (x + (b - x % 256)) % 256 == b
  {
    assert x + (b - x % 256) == 256 * (x / 256) + b;
  }

  lemma HighDigits(x: int, k: int)
    ensures (x + 256 * k) % 256 == x % 256
  {
  }

  lemma SetByteSame(w: int, i: nat, b: int)
    requires i < 4 && 0 <= b < 256
    ensures ByteOf(SetByte(w, i, b), i) == b
  {
    var v := SetByte(w, i, b);
    LowDigit(w / Place(i), b);
    assert i == 1 ==> v / 0x100 == w / 0x100 + (b - ByteOf(w, i));
    assert i == 2 ==> v / 0x1_0000 == w / 0x1_0000 + (b - ByteOf(w, i));
    assert i == 3 ==> v / 0x100_0000 == w / 0x100_0000 + (b - ByteOf(w, i));
  }

  lemma SetByteLow(w: int, i: nat, b: int, j: nat)
    requires j < i < 4 && 0 <= b < 256
    ensures ByteOf(SetByte(w, i, b), j) == ByteOf(w, j)
  {
    var v, d := SetByte(w, i, b), b - ByteOf(w, i);
    if j == 0 {
      HighDigits(w, d * if i == 1 then 1 else if i == 2 then 0x100 else 0x1_0000);
    } else if j == 1 {
      assert v / 0x100 == w / 0x100 + 256 * (d * if i == 2 then 1 else 0x100);
      HighDigits(w / 0x100, d * if i == 2 then 1 else 0x100);
    } else {
      assert v / 0x1_0000 == w / 0x1_0000 + 256 * d;
      HighDigits(w / 0x1_0000, d);
    }
  }

  lemma SetByteHigh(w: int, i: nat, b: int, j: nat)
    requires i < j < 4 && 0 <= b < 256
    ensures ByteOf(SetByte(w, i, b), j) == ByteOf(w, j)
  {
    var v, d := SetByte(w, i, b), b - ByteOf(w, i);
    if i == 0 {
      assert v / 0x100 == w / 0x100;
      assert v / 0x1_0000 == v / 0x100 / 0x100 && w / 0x1_0000 == w / 0x100 / 0x100;
      assert v / 0x100_0000 == v / 0x100 / 0x1_0000 && w / 0x100_0000 == w / 0x100 / 0x1_0000;
    } else if i == 1 {
      assert v / 0x100 == w / 0x100 + d;
      assert v / 0x1_0000 == v / 0x100 / 0x100 && w / 0x1_0000 == w / 0x100 / 0x100;
      assert v / 0x100_0000 == v / 0x1_0000 / 0x100 && w / 0x100_0000 == w / 0x1_0000 / 0x100;
    } else {
      assert v / 0x1_0000 == w / 0x1_0000 + d;
      assert v / 0x100_0000 == v / 0x1_0000 / 0x100 && w / 0x100_0000 == w / 0x1_0000 / 0x100;
    }
  }

  /** Byte j of a payload. */
  function ByteAt(p: seq<int>, j: nat): (b: int)
    requires j < 4 * |p|
  {
    ByteOf(p[j / 4], j % 4)
  }

  /** p with byte j replaced. */
  function PutByte(p: seq<int>, j: nat, b: int): (q: seq<int>)
    requires j < 4 * |p|
    ensures |q| == |p|
  {
    p[j / 4 := SetByte(p[j / 4], j % 4, b)]
  }

  lemma PutByteAt(p: seq<int>, j: nat, b: int, t: nat)
    requires j < 4 * |p| && t < 4 * |p| && 0 <= b < 256
    ensures ByteAt(PutByte(p, j, b), t) == if t == j then b else ByteAt(p, t)
  {
    var w := p[j / 4];
    if t / 4 == j / 4 {
      if t % 4 == j % 4 {
        assert t == 4 * (t / 4) + t % 4 && j == 4 * (j / 4) + j % 4;
        SetByteSame(w, j % 4, b);
      } else if t % 4 < j % 4 {
        SetByteLow(w, j % 4, b, t % 4);
      } else {
        SetByteHigh(w, j % 4, b, t % 4);
      }
    }
  }
}
