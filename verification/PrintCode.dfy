/** fmtint and strtol as the code has them: a digit buffer, counters and a moving pointer. */
module PrintCode {
  import opened PrintParse

  /** The stream that the printer appends to. */
  class OutputStream {
    var out: seq<char>

    constructor ()
      ensures out == []
    {
      out := [];
    }

    method Put(c: char)
      modifies this
      ensures out == old(out) + [c]
    {
      out := out + [c];
    }

    /** n times the same character. */
    method Pad(c: char, n: int)
      modifies this
      ensures out == old(out) + Repeat(c, n)
    {
      var left := n;
      while left > 0
        invariant left <= n && (if n > 0 then left >= 0 else left == n)
        invariant out == old(out) + Repeat(c, n - Max(left, 0))
      {
        Put(c);
        left := left - 1;
      }
    }
  }

  function Reversed(s: seq<char>): seq<char> {
    if s == [] then [] else [s[|s| - 1]] + Reversed(s[..|s| - 1])
  }

  lemma {:induction false} DigitsShort(u: nat, base: nat, up: bool, bound: nat, k: nat)
    requires Base(base) && u < bound && bound == Power8(k) && k > 0
    ensures |Digits(u, base, up)| <= k
    decreases k
  {
    if u >= base {
      if k == 1 {
        assert false;
      } else {
        QuotientRemainder(u, base);
        DigitsShort(Quotient(u, base), base, up, Power8(k - 1), k - 1);
      }
    }
  }

  function Power8(k: nat): nat {
    if k == 0 then 1 else 8 * Power8(k - 1)
  }

  lemma Eleven(u: nat, base: nat, up: bool)
    requires Base(base) && u < WRAP
    ensures |Digits(u, base, up)| <= 11
  {
    assert Power8(11) == 0x2_0000_0000 by {
      assert Power8(4) == 4096 && Power8(8) == 4096 * 4096;
    }
    DigitsShort(u, base, up, Power8(11), 11);
  }

  /** fmtint. */
  method FmtInt(buffer: OutputStream, value: int, base: nat, min: int, max: int, flags: Flags)
    requires Long(value) && Base(base)
    modifies buffer
    ensures buffer.out == old(buffer.out) + Format(value, base, min, max, flags)
  {
    hide Digits, Reversed;
    var prec := if max < 0 then 0 else max;
    var sign, uvalue := Front(value, flags);
    var convert, place := Convert(uvalue, base, flags.up);
    ghost var digits := Digits(uvalue, base, flags.up);
    var zpadlen := prec - place;
    var spadlen := min - Max(prec, place) - |sign|;
    if zpadlen < 0 { zpadlen := 0; }
    if spadlen < 0 { spadlen := 0; }
    assert spadlen == SpacePad(|sign|, |digits|, min, max) && zpadlen == ZeroPad(|digits|, max);
    if flags.zero {
      zpadlen := Max(zpadlen, spadlen);
      spadlen := 0;
    }
    if flags.minus { spadlen := -spadlen; }
    Emit(buffer, sign, spadlen, zpadlen, convert, place);
    Assemble(value, base, min, max, flags, spadlen, zpadlen);
  }

  /** The pieces of Format in the terms of the counters. */
  lemma Assemble(v: int, base: nat, min: int, max: int, flags: Flags, spad: int, zpad: int)
    requires Long(v) && Base(base)
    requires var sign, digits := Sign(v, flags), Digits(Magnitude(v, flags), base, flags.up);
      var spaces, zeros := SpacePad(|sign|, |digits|, min, max), ZeroPad(|digits|, max);
      zpad == (if flags.zero then Max(zeros, spaces) else zeros) && spad == (if flags.zero then 0 else if flags.minus then -spaces else spaces)
    ensures Format(v, base, min, max, flags) == Repeat(' ', spad) + Sign(v, flags) + Repeat('0', zpad) + Digits(Magnitude(v, flags), base, flags.up) + Repeat(' ', -spad)
  {
    hide Digits, Sign, Magnitude;
  }

  /** The sign character, and what is left to print. */
  method Front(value: int, flags: Flags) returns (sign: seq<char>, uvalue: nat)
    requires Long(value)
    ensures sign == Sign(value, flags) && uvalue == Magnitude(value, flags) && uvalue < WRAP
  {
    sign := "";
    uvalue := Bits(value);
    if !flags.unsigned {
      if value < 0 {
        sign := "-";
        uvalue := -value;
      } else if flags.plus {
        sign := "+";
      } else if flags.space {
        sign := " ";
      }
    }
  }

  /** Spaces, sign, zeros, the digits from the last one in the buffer, spaces. */
  method Emit(buffer: OutputStream, sign: seq<char>, spadlen: int, zpadlen: int, convert: array<char>, place: nat)
    requires place <= convert.Length && |sign| <= 1
    modifies buffer
    ensures buffer.out == old(buffer.out) + (Repeat(' ', spadlen) + sign + Repeat('0', zpadlen) + Reversed(convert[..place]) + Repeat(' ', -spadlen))
  {
    hide Repeat;
    buffer.Pad(' ', spadlen);
    if sign != "" { buffer.Put(sign[0]); }
    buffer.Pad('0', zpadlen);
    ghost var front := buffer.out;
    ghost var digits := Reversed(convert[..place]);
    assert front == old(buffer.out) + (Repeat(' ', spadlen) + sign + Repeat('0', zpadlen));
    var left := place;
    while left > 0
      invariant 0 <= left <= place
      invariant buffer.out + Reversed(convert[..left]) == front + digits
    {
      assert convert[..left][..left - 1] == convert[..left - 1];
      left := left - 1;
      buffer.Put(convert[left]);
    }
    assert convert[..0] == [] && Reversed([]) == [];
    assert buffer.out == front + digits;
    buffer.Pad(' ', -spadlen);
    assert buffer.out == front + digits + Repeat(' ', -spadlen);
  }

  /** The digits, least significant first, in a buffer that is never filled. */
  method Convert(u: nat, base: nat, up: bool) returns (convert: array<char>, place: nat)
    requires Base(base) && u < WRAP
    ensures fresh(convert) && convert.Length == 20 && place < 20
    ensures Reversed(convert[..place]) == Digits(u, base, up) && place == |Digits(u, base, up)|
  {
    hide Digits, Digit, Quotient, Remainder, Reversed;
    convert := new char[20];
    Eleven(u, base, up);
    MoreDigits(u, base, up, [], Digit(Remainder(u, base), up));
    convert[0] := Digit(Remainder(u, base), up);
    place := 1;
    assert convert[..1] == [] + [convert[0]];
    var uvalue := Quotient(u, base);
    while uvalue != 0 && place < 20
      invariant 0 < place <= 20 && place + (if uvalue == 0 then 0 else |Digits(uvalue, base, up)|) == |Digits(u, base, up)|
      invariant (if uvalue == 0 then [] else Digits(uvalue, base, up)) + Reversed(convert[..place]) == Digits(u, base, up)
      decreases uvalue
    {
      ghost var before := convert[..place];
      MoreDigits(uvalue, base, up, before, Digit(Remainder(uvalue, base), up));
      SomeDigit(uvalue, base, up);
      convert[place] := Digit(Remainder(uvalue, base), up);
      assert convert[..place + 1] == before + [convert[place]];
      place := place + 1;
      uvalue := Quotient(uvalue, base);
    }
  }

  lemma SomeDigit(u: nat, base: nat, up: bool)
    requires Base(base)
    ensures |Digits(u, base, up)| > 0
  {
  }

  /** One more digit in the buffer. */
  lemma MoreDigits(u: nat, base: nat, up: bool, before: seq<char>, c: char)
    requires Base(base) && c == Digit(Remainder(u, base), up)
    ensures Reversed(before + [c]) == [c] + Reversed(before) && Reversed([]) == []
    ensures u > 0 ==> Quotient(u, base) < u
    ensures Digits(u, base, up) == (if Quotient(u, base) == 0 then [] else Digits(Quotient(u, base), base, up)) + [c]
  {
    hide Digit;
    QuotientRemainder(u, base);
    assert (before + [c])[..|before|] == before;
  }

  // ---------------------------------------------------------------- strtol

  /** The character at s[i], with the terminator behind the last one. */
  function CharAt(s: seq<char>, i: nat): char {
    if i < |s| then s[i] else '\0'
  }

  method SkipBlanks(s: seq<char>) returns (i: nat)
    ensures i == Blanks(s)
  {
    i := 0;
    while CharAt(s, i) == ' ' || CharAt(s, i) == '\t'
      invariant 0 <= i <= |s| && i + Blanks(s[i..]) == Blanks(s)
      decreases |s| - i
    {
      assert s[i..][1..] == s[i + 1..];
      i := i + 1;
    }
  }

  method ReadSign(s: seq<char>, b: nat) returns (neg: bool, i: nat)
    requires b <= |s|
    ensures neg == (b < |s| && s[b] == '-') && i == b + SignLength(s[b..]) && i <= |s|
  {
    neg, i := false, b;
    if CharAt(s, i) == '+' {
      i := i + 1;
    } else if CharAt(s, i) == '-' {
      i := i + 1;
      neg := true;
    }
  }

  method ReadPrefix(s: seq<char>, start: nat, base: nat) returns (radix: nat, i: nat)
    requires start <= |s|
    ensures start <= i <= |s| && (radix, i - start) == Prefix(s[start..], base)
  {
    radix, i := base, start;
    if (base == 0 || base == 16) && CharAt(s, i) == '0' && CharAt(s, i + 1) == 'x' {
      i := i + 2;
      radix := 16;
    } else if base == 0 && CharAt(s, i) == '0' {
      i := i + 1;
      radix := 8;
    } else if base == 0 {
      radix := 10;
    }
  }

  method ReadDigits(s: seq<char>, first: nat, radix: nat) returns (val: nat, i: nat)
    requires first <= |s| && radix <= 36
    ensures val < WRAP && first <= i <= |s| && (val, i - first) == Accumulate(s[first..], radix, 0)
  {
    val, i := 0, first;
    while DigitValue(CharAt(s, i)) < radix
      invariant first <= i <= |s| && val < WRAP
      invariant Accumulate(s[first..], radix, 0).0 == Accumulate(s[i..], radix, val).0
      invariant Accumulate(s[first..], radix, 0).1 == i - first + Accumulate(s[i..], radix, val).1
      decreases |s| - i
    {
      assert s[i..][1..] == s[i + 1..];
      val := (val * radix + DigitValue(CharAt(s, i))) % WRAP;
      i := i + 1;
    }
  }

  /** strtol: the value, and where endptr points. */
  method Strtol(s: seq<char>, base: nat) returns (value: int, end: nat)
    requires '\0' !in s && base <= 36
    ensures (value, end) == Parse(s, base)
  {
    hide Accumulate, Blanks;
    var b := SkipBlanks(s);
    var neg, start := ReadSign(s, b);
    var radix, first := ReadPrefix(s, start, base);
    assert radix <= 36;
    var val;
    val, end := ReadDigits(s, first, radix);
    assert s[start + (first - start)..] == s[first..];
    value := Signed(if neg then (WRAP - val) % WRAP else val);
  }

  /** What a number looks like after it has been printed and read. */
  method PrintAndRead(value: int, base: nat, min: int, max: int, flags: Flags) returns (read: int)
    requires Long(value) && Base(base)
    ensures read == value
  {
    var buffer := new OutputStream();
    FmtInt(buffer, value, base, min, max, flags);
    var end;
    NoTerminator(value, base, min, max, flags);
    read, end := Strtol(buffer.out, base);
    RoundTrip(value, base, min, max, flags);
    assert buffer.out == Format(value, base, min, max, flags);
  }

  lemma {:induction false} DigitsPlain(u: nat, base: nat, up: bool)
    requires Base(base)
    ensures '\0' !in Digits(u, base, up)
  {
    QuotientRemainder(u, base);
    if u >= base { DigitsPlain(Quotient(u, base), base, up); }
  }

  lemma NoTerminator(value: int, base: nat, min: int, max: int, flags: Flags)
    requires Long(value) && Base(base)
    ensures '\0' !in Format(value, base, min, max, flags)
  {
    DigitsPlain(Magnitude(value, flags), base, flags.up);
  }
}
