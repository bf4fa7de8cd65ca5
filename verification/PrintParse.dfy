/** Printing an integer and reading it back: what fmtint writes and what strtol makes of a text. */
module PrintParse {

  /** Values of unsigned long: 32 bits. */
  const WRAP: nat := 0x1_0000_0000

  datatype Flags = Flags(minus: bool, plus: bool, space: bool, zero: bool, up: bool, unsigned: bool)

  /** A long: 32 bits, two's complement. */
  predicate Long(v: int) {
    -0x8000_0000 <= v < 0x8000_0000
  }

  /** The bits of a long, and the long with given bits. */
  function Bits(v: int): nat
    requires Long(v)
  {
    if v < 0 then v + WRAP else v
  }

  function Signed(u: nat): int
    requires u < WRAP
  {
    if u < 0x8000_0000 then u else u - WRAP
  }

  function Max(p: int, q: int): int {
    if p >= q then p else q
  }

  predicate Base(base: nat) {
    base == 8 || base == 10 || base == 16
  }

  // ---------------------------------------------------------------- printing

  function Digit(d: nat, up: bool): char
    requires d < 16
  {
    if up then "0123456789ABCDEF"[d] else "0123456789abcdef"[d]
  }

  function Quotient(u: nat, base: nat): nat
    requires Base(base)
  {
    u / base
  }

  function Remainder(u: nat, base: nat): (r: nat)
    requires Base(base)
    ensures r < base
  {
    u % base
  }

  /** A number in a base, most significant digit first. */
  function Digits(u: nat, base: nat, up: bool): seq<char>
    requires Base(base)
  {
    if u < base then [Digit(u, up)] else Digits(Quotient(u, base), base, up) + [Digit(Remainder(u, base), up)]
  }

  function Sign(v: int, flags: Flags): seq<char> {
    if flags.unsigned then ""
    else if v < 0 then "-"
    else if flags.plus then "+"
    else if flags.space then " "
    else ""
  }

  /** What is printed in digits; the negation wraps for the least long. */
  function Magnitude(v: int, flags: Flags): nat
    requires Long(v)
  {
    if !flags.unsigned && v < 0 then -v else Bits(v)
  }

  function Repeat(c: char, n: int): (s: seq<char>)
    ensures |s| == Max(n, 0) && forall k {:trigger s[k]} :: 0 <= k < |s| ==> s[k] == c
    decreases Max(n, 0)
  {
    if n <= 0 then [] else Repeat(c, n - 1) + [c]
  }

  function SpacePad(sign: nat, place: nat, min: int, max: int): int {
    Max(0, min - Max(Max(max, 0), place) - sign)
  }

  function ZeroPad(place: nat, max: int): int {
    Max(0, Max(max, 0) - place)
  }

  /** What fmtint writes: padding, sign, zeros, digits, padding on the right. */
  function Format(v: int, base: nat, min: int, max: int, flags: Flags): seq<char>
    requires Long(v) && Base(base)
  {
    var sign, digits := Sign(v, flags), Digits(Magnitude(v, flags), base, flags.up);
    var spaces, zeros := SpacePad(|sign|, |digits|, min, max), ZeroPad(|digits|, max);
    Repeat(' ', if flags.zero || flags.minus then 0 else spaces)
    + sign
    + Repeat('0', if flags.zero then Max(zeros, spaces) else zeros)
    + digits
    + Repeat(' ', if flags.minus && !flags.zero then spaces else 0)
  }

  // ---------------------------------------------------------------- parsing

  predicate Blank(c: char) {
    c == ' ' || c == '\t'
  }

  /** The value of a digit; 36 for a character that is none. */
  function DigitValue(c: char): nat {
    if '0' <= c <= '9' then (c - '0') as int
    else if 'a' <= c <= 'z' then (c - 'a') as int + 10
    else if 'A' <= c <= 'Z' then (c - 'A') as int + 10
    else 36
  }

  function Blanks(s: seq<char>): (n: nat)
    ensures n <= |s|
  {
    if s == [] || !Blank(s[0]) then 0 else 1 + Blanks(s[1..])
  }

  /** Digits of the base at the front of s, and the bits of the value they add up to from `val`. */
  function Accumulate(s: seq<char>, base: nat, val: nat): (r: (nat, nat))
    ensures r.1 <= |s|
  {
    if s == [] || DigitValue(s[0]) >= base then (val, 0)
    else
      var r := Accumulate(s[1..], base, (val * base + DigitValue(s[0])) % WRAP);
      (r.0, r.1 + 1)
  }

  /** The base and the number of characters of the prefix. */
  function Prefix(s: seq<char>, base: nat): (r: (nat, nat))
    ensures r.1 <= |s|
  {
    if (base == 0 || base == 16) && |s| > 1 && s[0] == '0' && s[1] == 'x' then (16, 2)
    else if base == 0 && |s| > 0 && s[0] == '0' then (8, 1)
    else if base == 0 then (10, 0)
    else (base, 0)
  }

  function SignLength(s: seq<char>): (n: nat)
    ensures n <= |s|
  {
    if s != [] && (s[0] == '+' || s[0] == '-') then 1 else 0
  }

  /** strtol on the characters before the terminator: the value and how far it read. */
  function Parse(s: seq<char>, base: nat): (r: (int, nat))
    requires base <= 36
    ensures Long(r.0)
  {
    var b := Blanks(s);
    var neg := b < |s| && s[b] == '-';
    var start := b + SignLength(s[b..]);
    var p := Prefix(s[start..], base);
    var a := Accumulate(s[start + p.1..], p.0, 0);
    var bits := a.0 % WRAP;
    (Signed(if neg then (WRAP - bits) % WRAP else bits), start + p.1 + a.1)
  }

  // ---------------------------------------------------------------- digits

  predicate AllDigits(s: seq<char>, base: nat) {
    forall k {:trigger s[k]} :: 0 <= k < |s| ==> DigitValue(s[k]) < base
  }

  /** The value of a text of digits. */
  function Fold(s: seq<char>, base: nat, val: nat): nat {
    if s == [] then val else (Fold(s[..|s| - 1], base, val) * base + DigitValue(s[|s| - 1])) % WRAP
  }

  lemma DigitReads(d: nat, up: bool)
    requires d < 16
    ensures DigitValue(Digit(d, up)) == d
  {
  }

  lemma FoldLast(s: seq<char>, c: char, base: nat, val: nat)
    ensures Fold(s + [c], base, val) == (Fold(s, base, val) * base + DigitValue(c)) % WRAP
  {
    assert (s + [c])[..|s|] == s;
  }

  lemma QuotientRemainder(u: nat, base: nat)
    requires Base(base)
    ensures Quotient(u, base) * base + Remainder(u, base) == u && Quotient(u, base) <= u / 8
    ensures (u > 0 ==> Quotient(u, base) < u) && (Quotient(u, base) == 0 <==> u < base)
  {
    if base == 8 { assert u / 8 * 8 + u % 8 == u; }
    if base == 10 { assert u / 10 * 10 + u % 10 == u; }
    if base == 16 { assert u / 16 * 16 + u % 16 == u; }
  }

  /** The digits of u read as u. */
  lemma {:induction false} DigitsRead(u: nat, base: nat, up: bool)
    requires Base(base) && u < WRAP
    ensures AllDigits(Digits(u, base, up), base) && Fold(Digits(u, base, up), base, 0) == u && |Digits(u, base, up)| > 0
  {
    hide Fold, Digit, DigitValue, Quotient, Remainder;
    QuotientRemainder(u, base);
    if u < base {
      OneDigit(u, base, up);
    } else {
      var ds, c := Digits(Quotient(u, base), base, up), Digit(Remainder(u, base), up);
      DigitReads(Remainder(u, base), up);
      DigitsRead(Quotient(u, base), base, up);
      FoldLast(ds, c, base, 0);
    }
  }

  lemma OneDigit(u: nat, base: nat, up: bool)
    requires Base(base) && u < base
    ensures Fold([Digit(u, up)], base, 0) == u && DigitValue(Digit(u, up)) == u
  {
    hide Digit, DigitValue;
    DigitReads(u, up);
    assert [] + [Digit(u, up)] == [Digit(u, up)];
    FoldLast([], Digit(u, up), base, 0);
    assert Fold([], base, 0) == 0 && 0 * base == 0;
  }

  lemma {:induction false} FoldZeros(n: int, base: nat)
    ensures AllDigits(Repeat('0', n), Max(base, 1)) && Fold(Repeat('0', n), base, 0) == 0
    decreases Max(n, 0)
  {
    if n > 0 {
      FoldZeros(n - 1, base);
      assert Repeat('0', n)[..|Repeat('0', n)| - 1] == Repeat('0', n - 1);
      assert 0 * base == 0;
    }
  }

  lemma {:induction false} FoldConcat(s: seq<char>, t: seq<char>, base: nat, val: nat)
    ensures Fold(s + t, base, val) == Fold(t, base, Fold(s, base, val))
  {
    if t == [] {
      assert s + t == s;
    } else {
      assert (s + t)[..|s + t| - 1] == s + t[..|t| - 1];
      FoldConcat(s, t[..|t| - 1], base, val);
    }
  }

  /** strtol's loop reads a text of digits up to the first other character. */
  lemma {:induction false} AccumulateFold(s: seq<char>, t: seq<char>, base: nat, val: nat)
    requires AllDigits(s, base) && (t == [] || DigitValue(t[0]) >= base)
    ensures Accumulate(s + t, base, val) == (Fold(s, base, val), |s|)
    decreases |s|
  {
    if s == [] {
      assert s + t == t;
    } else {
      var next := (val * base + DigitValue(s[0])) % WRAP;
      assert (s + t)[1..] == s[1..] + t;
      AccumulateFold(s[1..], t, base, next);
      assert s == [s[0]] + s[1..];
      FoldConcat([s[0]], s[1..], base, val);
      assert Fold([s[0]], base, val) == next by {
        assert [s[0]][..0] == [];
        assert Fold([], base, val) == val;
      }
    }
  }

  lemma {:induction false} BlanksSkip(n: int, s: seq<char>)
    requires s == [] || !Blank(s[0])
    ensures Blanks(Repeat(' ', n) + s) == Max(n, 0)
    decreases Max(n, 0)
  {
    if n <= 0 {
      assert Repeat(' ', n) + s == s;
    } else {
      assert (Repeat(' ', n) + s)[1..] == Repeat(' ', n - 1) + s;
      BlanksSkip(n - 1, s);
    }
  }

  // ---------------------------------------------------------------- the round trip

  /** The number strtol finds after the sign. */
  lemma ParseNumber(zeros: int, u: nat, base: nat, up: bool, trail: int)
    requires Base(base) && u < WRAP
    ensures var s := Repeat('0', zeros) + Digits(u, base, up) + Repeat(' ', trail);
      && s != [] && DigitValue(s[0]) < base && Prefix(s, base) == (base, 0)
      && Accumulate(s, base, 0) == (u, Max(zeros, 0) + |Digits(u, base, up)|)
  {
    hide Digits, Fold, Accumulate, Prefix, DigitValue, Repeat, Max;
    var z, ds, t := Repeat('0', zeros), Digits(u, base, up), Repeat(' ', trail);
    FoldZeros(zeros, base);
    SameBase(base);
    DigitsRead(u, base, up);
    FoldConcat(z, ds, base, 0);
    DigitsTogether(z, ds, base);
    SpaceEnds(trail, base);
    AccumulateFold(z + ds, t, base, 0);
    NotPrefix(z + ds, t, base);
  }

  lemma SameBase(base: nat)
    requires Base(base)
    ensures Max(base, 1) == base
  {
  }

  lemma SpaceEnds(trail: int, base: nat)
    requires Base(base)
    ensures var t := Repeat(' ', trail); t == [] || (t[0] == ' ' && DigitValue(t[0]) >= base)
  {
  }

  lemma DigitsTogether(s: seq<char>, t: seq<char>, base: nat)
    requires AllDigits(s, base) && AllDigits(t, base)
    ensures AllDigits(s + t, base)
  {
    hide DigitValue;
    forall k {:trigger (s + t)[k]} | 0 <= k < |s + t|
      ensures DigitValue((s + t)[k]) < base
    {
      assert (s + t)[k] == if k < |s| then s[k] else t[k - |s|];
    }
  }

  /** No text of digits, with or without spaces after it, looks like a prefix of another base. */
  lemma NotPrefix(s: seq<char>, t: seq<char>, base: nat)
    requires Base(base) && AllDigits(s, base) && s != [] && (t != [] ==> t[0] == ' ')
    ensures Prefix(s + t, base) == (base, 0) && DigitValue((s + t)[0]) < base
  {
    assert (s + t)[0] == s[0];
    if |s + t| > 1 {
      assert (s + t)[1] == if |s| > 1 then s[1] else t[0];
    }
  }

  /** For every long, width, precision and combination of flags, strtol reads back what fmtint wrote,
      in base 8, 10 and 16, and stops where the digits end. For unsigned printing of a value with
      the top bit set, what comes back is the long with the same bits. */
  lemma RoundTrip(v: int, base: nat, min: int, max: int, flags: Flags)
    requires Long(v) && Base(base)
    ensures Parse(Format(v, base, min, max, flags), base).0 == v
    ensures var s, place := Format(v, base, min, max, flags), |Digits(Magnitude(v, flags), base, flags.up)|;
      s[Parse(s, base).1..] == Repeat(' ', if flags.minus && !flags.zero then SpacePad(|Sign(v, flags)|, place, min, max) else 0)
  {
    hide Digits, Accumulate, Repeat, Blanks, Prefix, SpacePad, ZeroPad, Sign, Magnitude, Parse;
    var u, sign := Magnitude(v, flags), Sign(v, flags);
    var digits := Digits(u, base, flags.up);
    var spaces, zeros := SpacePad(|sign|, |digits|, min, max), ZeroPad(|digits|, max);
    var lead, z, trail := if flags.zero || flags.minus then 0 else spaces, if flags.zero then Max(zeros, spaces) else zeros, if flags.minus && !flags.zero then spaces else 0;
    MagnitudeSigned(v, flags);
    Pads(|sign|, |digits|, min, max);
    ParseNumber(z, u, base, flags.up, trail);
    var number := Repeat('0', z) + digits + Repeat(' ', trail);
    ParseParts(lead, sign, number, base, u, z + |digits|);
    var s := Format(v, base, min, max, flags);
    assert s == Repeat(' ', lead) + sign + number;
    var front := Repeat(' ', lead) + sign + (Repeat('0', z) + digits);
    assert s == front + Repeat(' ', trail) && |front| == lead + |sign| + z + |digits|;
  }

  lemma Pads(sign: nat, place: nat, min: int, max: int)
    ensures SpacePad(sign, place, min, max) >= 0 && ZeroPad(place, max) >= 0
  {
  }

  /** Sign and magnitude determine the long. */
  lemma MagnitudeSigned(v: int, flags: Flags)
    requires Long(v)
    ensures var u, sign := Magnitude(v, flags), Sign(v, flags);
      && u < WRAP && (sign == "" || sign == "-" || sign == "+" || sign == " ")
      && Signed(if sign == "-" then (WRAP - u) % WRAP else u) == v
  {
  }

  /** strtol on blanks, a sign and a number. */
  lemma ParseParts(lead: int, sign: seq<char>, rest: seq<char>, base: nat, u: nat, n: nat)
    requires Base(base) && u < WRAP && (sign == "" || sign == "-" || sign == "+" || sign == " ")
    requires rest != [] && DigitValue(rest[0]) < base && Prefix(rest, base) == (base, 0) && Accumulate(rest, base, 0) == (u, n)
    ensures Parse(Repeat(' ', lead) + sign + rest, base) == (Signed(if sign == "-" then (WRAP - u) % WRAP else u), Max(lead, 0) + |sign| + n)
  {
    hide Accumulate, Prefix, Blanks, Parse, Signed, DigitValue, Repeat, Max;
    var s, k := Repeat(' ', lead) + sign + rest, Max(lead, 0);
    NumberStart(rest[0], base);
    if sign == " " {
      OneMore(lead);
      assert s == Repeat(' ', k + 1) + ("" + rest) && |sign| == 1;
      FrontSkipped(k + 1, "", rest, base, u, n);
    } else {
      assert s == Repeat(' ', lead) + (sign + rest);
      SameSpaces(lead);
      FrontSkipped(k, sign, rest, base, u, n);
    }
  }

  lemma SameSpaces(n: int)
    ensures Max(n, 0) >= 0 && Repeat(' ', Max(n, 0)) == Repeat(' ', n)
  {
    if n <= 0 { assert Repeat(' ', n) == [] && Repeat(' ', Max(n, 0)) == []; }
  }

  lemma OneMore(n: int)
    ensures Max(n, 0) >= 0 && Repeat(' ', Max(n, 0) + 1) == Repeat(' ', n) + [' ']
  {
    SameSpaces(n);
  }

  lemma FrontSkipped(k: nat, sign: seq<char>, rest: seq<char>, base: nat, u: nat, n: nat)
    requires Base(base) && u < WRAP && (sign == "" || sign == "-" || sign == "+")
    requires rest != [] && DigitValue(rest[0]) < base && Prefix(rest, base) == (base, 0) && Accumulate(rest, base, 0) == (u, n)
    ensures Parse(Repeat(' ', k) + (sign + rest), base) == (Signed(if sign == "-" then (WRAP - u) % WRAP else u), k + |sign| + n)
  {
    hide Accumulate, Prefix, Blanks, Parse, Signed, DigitValue;
    var s := Repeat(' ', k) + (sign + rest);
    NumberStart(rest[0], base);
    BlanksSkip(k, sign + rest);
    assert s[k..] == sign + rest;
    ParseFrom(s, k, sign, rest, base, u, n);
  }

  lemma NumberStart(c: char, base: nat)
    requires Base(base) && DigitValue(c) < base
    ensures !Blank(c) && c != '-' && c != '+'
  {
  }

  lemma ParseFrom(s: seq<char>, b: nat, sign: seq<char>, rest: seq<char>, base: nat, u: nat, n: nat)
    requires Base(base) && u < WRAP && (sign == "" || sign == "-" || sign == "+") && b <= |s|
    requires rest != [] && DigitValue(rest[0]) < base && Prefix(rest, base) == (base, 0) && Accumulate(rest, base, 0) == (u, n)
    requires Blanks(s) == b && s[b..] == sign + rest
    ensures Parse(s, base) == (Signed(if sign == "-" then (WRAP - u) % WRAP else u), b + |sign| + n)
  {
    hide Accumulate, Prefix, Blanks, Signed;
    assert s[b] == s[b..][0];
    assert SignLength(s[b..]) == |sign|;
    assert s[b + |sign|..] == rest by { assert s[b + |sign|..] == s[b..][|sign|..]; }
    assert rest[0..] == rest;
  }

  // ---------------------------------------------------------------- length

  /** The text has max(width, sign and the larger of precision and digits) characters exactly when
      the zero flag does not meet a precision above the number of digits and a width beyond it; in
      that case it is shorter. */
  lemma Length(v: int, base: nat, min: int, max: int, flags: Flags)
    requires Long(v) && Base(base)
    ensures var sign, place := |Sign(v, flags)|, |Digits(Magnitude(v, flags), base, flags.up)|;
      var usual := Max(min, sign + Max(max, place));
      && |Format(v, base, min, max, flags)| <= usual
      && (|Format(v, base, min, max, flags)| == usual <==> !flags.zero || max <= place || min <= max + sign)
  {
    hide Digits;
    DigitsRead(Magnitude(v, flags), base, flags.up);
  }

  /** With the zero flag, width 6 and precision 4, the number 7 takes only four characters. */
  lemma ZeroFlagTooShort()
    ensures |Format(7, 10, 6, 4, Flags(false, false, false, true, false, false))| == 4
  {
  }
}
