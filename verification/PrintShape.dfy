/** What fmtint writes and what strtol reads, part by part, without the functions that compute it. */
module PrintShape {
  import opened PrintParse

  /** The number that a text of digits stands for. */
  function Value(s: seq<char>, base: nat): nat {
    if s == [] then 0 else Value(s[..|s| - 1], base) * base + DigitValue(s[|s| - 1])
  }

  predicate InCase(c: char, up: bool) {
    '0' <= c <= '9' || (if up then 'A' <= c <= 'F' else 'a' <= c <= 'f')
  }

  /** u written in a base: no leading zero, letters in the wanted case. */
  ghost predicate Numeral(s: seq<char>, u: nat, base: nat, up: bool) {
    && s != [] && (|s| > 1 ==> s[0] != '0') && AllDigits(s, base) && Value(s, base) == u
    && forall k {:trigger s[k]} :: 0 <= k < |s| ==> InCase(s[k], up)
  }

  lemma DigitFits(d: nat, up: bool)
    requires d < 16
    ensures InCase(Digit(d, up), up) && DigitValue(Digit(d, up)) == d && (Digit(d, up) == '0' <==> d == 0)
  {
  }

  lemma ValueLast(s: seq<char>, c: char, base: nat)
    ensures Value(s + [c], base) == Value(s, base) * base + DigitValue(c)
  {
    assert (s + [c])[..|s|] == s;
  }

  lemma {:induction false} DigitsNumeral(u: nat, base: nat, up: bool)
    requires Base(base)
    ensures Numeral(Digits(u, base, up), u, base, up) && (Digits(u, base, up)[0] == '0' <==> u == 0)
  {
    hide Digit, DigitValue, Value, Quotient, Remainder, InCase;
    QuotientRemainder(u, base);
    if u < base {
      OneNumeral(u, base, up);
    } else {
      var ds, c := Digits(Quotient(u, base), base, up), Digit(Remainder(u, base), up);
      DigitFits(Remainder(u, base), up);
      DigitsNumeral(Quotient(u, base), base, up);
      ValueLast(ds, c, base);
      assert Digits(u, base, up) == ds + [c] && (ds + [c])[0] == ds[0];
      assert |ds| > 1 || ds[0] != '0';
    }
  }

  lemma OneNumeral(u: nat, base: nat, up: bool)
    requires Base(base) && u < base
    ensures Numeral([Digit(u, up)], u, base, up) && ([Digit(u, up)][0] == '0' <==> u == 0)
  {
    hide Digit, DigitValue;
    DigitFits(u, up);
    ValueLast([], Digit(u, up), base);
    assert [] + [Digit(u, up)] == [Digit(u, up)] && Value([], base) == 0 && 0 * base == 0;
  }

  // ---------------------------------------------------------------- fmtint

  /** A text of five parts: spaces, sign, zeros, digits, spaces. */
  datatype Parts = Parts(lead: nat, sign: seq<char>, zeros: nat, digits: seq<char>, trail: nat)

  function Text(p: Parts): seq<char> {
    Repeat(' ', p.lead) + p.sign + Repeat('0', p.zeros) + p.digits + Repeat(' ', p.trail)
  }

  predicate SignFits(sign: seq<char>, v: int, flags: Flags) {
    sign == if flags.unsigned then "" else if v < 0 then "-" else if flags.plus then "+" else if flags.space then " " else ""
  }

  /** Padding: zeros up to the precision, then spaces up to the width, on the right with the minus
      flag; with the zero flag zeros before the digits take the place of the spaces, but only as many
      as the larger of the two wants. */
  predicate PadsFit(p: Parts, min: int, max: int, flags: Flags) {
    var place := |p.digits|;
    var width := |p.sign| + (if max > place then max else place);
    var zeros, spaces := if max > place then max - place else 0, if min > width then min - width else 0;
    if flags.zero then p.lead == 0 && p.trail == 0 && p.zeros == (if zeros > spaces then zeros else spaces)
    else p.zeros == zeros && (if flags.minus then p.lead == 0 && p.trail == spaces else p.lead == spaces && p.trail == 0)
  }

  /** For every long, base, width, precision and combination of flags, the text is made of these five
      parts, with the number's own digits. */
  lemma FormatParts(v: int, base: nat, min: int, max: int, flags: Flags) returns (p: Parts)
    requires Long(v) && Base(base)
    ensures Format(v, base, min, max, flags) == Text(p) && SignFits(p.sign, v, flags) && PadsFit(p, min, max, flags)
    ensures Numeral(p.digits, if v >= 0 then v else if flags.unsigned then v + 0x1_0000_0000 else -v, base, flags.up)
  {
    hide Digits, Repeat;
    var u := Magnitude(v, flags);
    DigitsNumeral(u, base, flags.up);
    var sign, digits := Sign(v, flags), Digits(u, base, flags.up);
    var spaces, zeros := SpacePad(|sign|, |digits|, min, max), ZeroPad(|digits|, max);
    Pads(|sign|, |digits|, min, max);
    p := Parts(if flags.zero || flags.minus then 0 else spaces, sign, if flags.zero then Max(zeros, spaces) else zeros, digits, if flags.minus && !flags.zero then spaces else 0);
  }

  // ---------------------------------------------------------------- strtol

  /** The characters that count as digits, up to base 36, in either case. */
  lemma DigitCharacters(c: char)
    ensures DigitValue(c) < 36 <==> ('0' <= c <= '9' || 'a' <= c <= 'z' || 'A' <= c <= 'Z')
    ensures forall k: nat {:trigger "0123456789abcdefghijklmnopqrstuvwxyz"[k]} :: k < 36 && c == "0123456789abcdefghijklmnopqrstuvwxyz"[k] ==> DigitValue(c) == k
    ensures 'A' <= c <= 'Z' ==> DigitValue(c) == DigitValue(c + ('a' - 'A'))
  {
  }

  /** How strtol takes a text apart: blanks, sign, prefix of a base, digits, the rest. */
  datatype Read = Read(blanks: seq<char>, sign: seq<char>, prefix: seq<char>, digits: seq<char>, rest: seq<char>)

  function Whole(r: Read): seq<char> {
    r.blanks + r.sign + r.prefix + r.digits + r.rest
  }

  predicate OnlyBlanks(s: seq<char>) {
    forall k {:trigger s[k]} :: 0 <= k < |s| ==> s[k] == ' ' || s[k] == '\t'
  }

  predicate StartsHex(s: seq<char>) {
    |s| > 1 && s[0] == '0' && s[1] == 'x'
  }

  /** Each part is as long as it can be; b is the base in which the digits count. */
  ghost predicate Apart(r: Read, base: nat, b: nat) {
    var number := r.prefix + r.digits + r.rest;
    && OnlyBlanks(r.blanks) && (r.sign + number != [] ==> (r.sign + number)[0] != ' ' && (r.sign + number)[0] != '\t')
    && (r.sign == "" || r.sign == "+" || r.sign == "-")
    && (r.sign == "" && number != [] ==> number[0] != '+' && number[0] != '-')
    && (if (base == 0 || base == 16) && StartsHex(number) then r.prefix == "0x" && b == 16
        else if base == 0 && number != [] && number[0] == '0' then r.prefix == "0" && b == 8
        else r.prefix == "" && b == if base == 0 then 10 else base)
    && AllDigits(r.digits, b) && (r.rest != [] ==> DigitValue(r.rest[0]) >= b)
  }

  lemma {:induction false} BlanksSplit(s: seq<char>)
    ensures var n := Blanks(s); OnlyBlanks(s[..n]) && (n < |s| ==> !Blank(s[n]))
  {
    if s != [] && Blank(s[0]) {
      BlanksSplit(s[1..]);
      var n := Blanks(s[1..]);
      assert s[..n + 1] == [s[0]] + s[1..][..n];
    }
  }

  lemma {:induction false} DigitsSplit(s: seq<char>, base: nat, val: nat)
    ensures var n := Accumulate(s, base, val).1; AllDigits(s[..n], base) && (n < |s| ==> DigitValue(s[n]) >= base)
    decreases |s|
  {
    hide DigitValue;
    if s != [] && DigitValue(s[0]) < base {
      var next := (val * base + DigitValue(s[0])) % WRAP;
      DigitsSplit(s[1..], base, next);
      var n := Accumulate(s[1..], base, next).1;
      assert s[..n + 1] == [s[0]] + s[1..][..n];
    }
  }

  /** The value of a text of digits modulo 2^32. */
  lemma {:induction false} FoldValue(s: seq<char>, base: nat)
    ensures Fold(s, base, 0) == Value(s, base) % WRAP
  {
    if s != [] {
      FoldValue(s[..|s| - 1], base);
      WrapOnce(Value(s[..|s| - 1], base), base, DigitValue(s[|s| - 1]));
    }
  }

  lemma WrapOnce(x: nat, base: nat, d: nat)
    ensures ((x % WRAP) * base + d) % WRAP == (x * base + d) % WRAP
  {
    var q := x / WRAP;
    assert x == q * WRAP + x % WRAP;
    assert x * base == q * WRAP * base + (x % WRAP) * base;
    assert q * WRAP * base == WRAP * (q * base);
    Lap((x % WRAP) * base + d, q * base);
  }

  lemma Lap(x: nat, k: nat)
    ensures (x + WRAP * k) % WRAP == x % WRAP
  {
  }

  /** The value in 32 bits, negated or not, as a long. */
  function LongOf(value: nat, negative: bool): int {
    var u := value % 0x1_0000_0000;
    var w := if negative && u > 0 then 0x1_0000_0000 - u else u;
    if w < 0x8000_0000 then w else w - 0x1_0000_0000
  }

  /** For every text and base: strtol's value is that of the digits, with the sign, in 32 bits, and
      it stops where the rest begins. */
  lemma ParseReads(s: seq<char>, base: nat) returns (r: Read, b: nat)
    requires base <= 36
    ensures s == Whole(r) && Apart(r, base, b)
    ensures Parse(s, base) == (LongOf(Value(r.digits, b), r.sign == "-"), |s| - |r.rest|)
  {
    hide Blanks, Accumulate, Value, Apart, OnlyBlanks, AllDigits, DigitValue, Prefix, SignLength, Parse, LongOf;
    var n := Blanks(s);
    BlanksSplit(s);
    var tail := s[n..];
    var m := SignLength(tail);
    var number := tail[m..];
    var p := Prefix(number, base);
    b := p.0;
    var body := number[p.1..];
    var k := Accumulate(body, b, 0).1;
    DigitsSplit(body, b, 0);
    r := Read(s[..n], tail[..m], number[..p.1], body[..k], body[k..]);
    Rejoin(s, n, m, p.1, k);
    Regroup(r.blanks, r.sign, r.prefix, r.digits, r.rest);
    ReadApart(s, r, n, m, base, b);
    Value32(s, r, n, m, p, base);
  }

  lemma Rejoin(s: seq<char>, n: nat, m: nat, q: nat, k: nat)
    requires n + m + q + k <= |s|
    ensures var tail := s[n..]; var number := tail[m..]; var body := number[q..];
      && s == s[..n] + tail && tail == tail[..m] + number && number == number[..q] + body && body == body[..k] + body[k..]
      && s[n + m..] == number && s[n + m + q..] == body
  {
    CutAgain(s, n, m);
    CutAgain(s[n..], m, q);
    CutAgain(s, n + m, q);
    Cut(s, n);
    Cut(s[n..], m);
    Cut(s[n..][m..], q);
    Cut(s[n..][m..][q..], k);
  }

  lemma Regroup(a: seq<char>, b: seq<char>, c: seq<char>, d: seq<char>, e: seq<char>)
    ensures a + (b + (c + (d + e))) == a + b + c + d + e && c + (d + e) == c + d + e
  {
  }

  lemma Cut(s: seq<char>, n: nat)
    requires n <= |s|
    ensures s == s[..n] + s[n..]
  {
  }

  lemma CutAgain(s: seq<char>, n: nat, m: nat)
    requires n + m <= |s|
    ensures s[n..][m..] == s[n + m..]
  {
  }

  lemma Value32(s: seq<char>, r: Read, n: nat, m: nat, p: (nat, nat), base: nat)
    requires base <= 36 && n == Blanks(s) && m == SignLength(s[n..]) && p == Prefix(s[n..][m..], base) && |s| == |Whole(r)|
    requires |r.blanks| == n && r.sign == s[n..][..m] && |r.prefix| == p.1 && s[n + m..] == s[n..][m..] && s[n + m + p.1..] == r.digits + r.rest
    requires AllDigits(r.digits, p.0) && (r.rest != [] ==> DigitValue(r.rest[0]) >= p.0)
    ensures Parse(s, base) == (LongOf(Value(r.digits, p.0), r.sign == "-"), |s| - |r.rest|)
  {
    hide Blanks, Accumulate, Value, Fold, AllDigits, DigitValue, Prefix, LongOf;
    AccumulateFold(r.digits, r.rest, p.0, 0);
    FoldValue(r.digits, p.0);
    Minus(s, n, m);
    SignedLong(Value(r.digits, p.0), r.sign == "-");
  }

  lemma Minus(s: seq<char>, n: nat, m: nat)
    requires n <= |s| && m == SignLength(s[n..])
    ensures n < |s| && s[n] == '-' <==> s[n..][..m] == "-"
  {
    assert n < |s| ==> s[n..][0] == s[n];
    if m == 1 { assert s[n..][..m] == [s[n..][0]]; }
  }

  lemma SignedLong(value: nat, negative: bool)
    ensures var bits := value % WRAP;
      bits % WRAP == bits && LongOf(value, negative) == Signed(if negative then (WRAP - bits) % WRAP else bits)
  {
  }

  lemma ReadApart(s: seq<char>, r: Read, n: nat, m: nat, base: nat, b: nat)
    requires n <= |s| && OnlyBlanks(s[..n]) && (n < |s| ==> !Blank(s[n])) && m == SignLength(s[n..]) && n + m <= |s|
    requires r.blanks == s[..n] && r.sign == s[n..][..m] && r.prefix + r.digits + r.rest == s[n..][m..]
    requires Prefix(s[n..][m..], base) == (b, |r.prefix|) && r.prefix == s[n..][m..][..|r.prefix|]
    requires AllDigits(r.digits, b) && (r.rest != [] ==> DigitValue(r.rest[0]) >= b)
    ensures Apart(r, base, b)
  {
    hide DigitValue, AllDigits, Prefix;
    var number := s[n..][m..];
    assert s[n..] == r.sign + number;
    if r.sign + number != [] { assert s[n] == (r.sign + number)[0]; }
    if m == 1 { assert r.sign == [s[n..][0]]; } else { assert r.sign == [] && number == s[n..]; }
    PrefixPart(number, base);
  }

  lemma PrefixPart(number: seq<char>, base: nat)
    ensures var p := Prefix(number, base);
      if (base == 0 || base == 16) && StartsHex(number) then number[..p.1] == "0x" && p.0 == 16
      else if base == 0 && number != [] && number[0] == '0' then number[..p.1] == "0" && p.0 == 8
      else number[..p.1] == "" && p.0 == if base == 0 then 10 else base
  {
  }
}
