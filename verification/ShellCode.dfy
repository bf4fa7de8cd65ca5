/** trimSpace and tokenize as the code has them: character buffers that are scanned, copied and
    compacted in place. */
module ShellCode {
  import opened ShellText

  /** A buffer with a text and its terminator. */
  method CopyOf(s: seq<char>) returns (str: array<char>)
    ensures fresh(str) && str.Length == |s| + 1 && str[..|s|] == s && str[|s|] == '\0'
  {
    str := new char[|s| + 1];
    forall k | 0 <= k < |s| { str[k] := s[k]; }
    str[|s|] := '\0';
  }

  predicate Terminated(str: array<char>, len: nat)
    reads str
  {
    str.Length == len + 1 && str[len] == '\0' && forall k {:trigger str[k]} :: 0 <= k < len ==> str[k] != '\0'
  }

  /** Tabs become spaces. */
  method ReplaceTabs(str: array<char>, ghost len: nat)
    requires Terminated(str, len)
    modifies str
    ensures Terminated(str, len) && str[..len] == Untab(old(str[..len]))
  {
    var z := 0;
    var c := str[0];
    while c != '\0'
      invariant 0 <= z <= len && c == str[z] && Terminated(str, len)
      invariant forall k {:trigger str[k]} :: 0 <= k < len ==> str[k] == if k < z && old(str[k]) == '\t' then ' ' else old(str[k])
      decreases len - z
    {
      if c == '\t' { str[z] := ' '; }
      z := z + 1;
      c := str[z];
    }
  }

  /** Where the text without the spaces in front of it and behind it starts and ends. */
  method Ends(str: array<char>, len: nat) returns (start: nat, end: nat)
    requires Terminated(str, len)
    ensures start <= end <= len
    ensures forall k {:trigger str[k]} :: 0 <= k < start || end <= k < len ==> str[k] == ' '
    ensures start < end ==> str[start] != ' ' && str[end - 1] != ' '
  {
    start := 0;
    while str[start] == ' '
      invariant 0 <= start <= len && forall k {:trigger str[k]} :: 0 <= k < start ==> str[k] == ' '
      decreases len - start
    {
      start := start + 1;
    }
    var last := len as int - 1;
    while last > start && str[last] == ' '
      invariant start - 1 <= last < len && forall k {:trigger str[k]} :: last < k < len ==> str[k] == ' '
    {
      last := last - 1;
    }
    end := last + 1;
  }

  /** Every space that follows a space is dropped, in the same buffer: the copy never gets ahead of
      the character it looks back at. */
  method Compact(newstr: array<char>, len: nat) returns (j: nat)
    requires len < newstr.Length && (len > 0 ==> newstr[0] != ' ')
    modifies newstr
    ensures j <= len && newstr[..j] == Squeeze(false, old(newstr[..len]))
  {
    hide Squeeze;
    ghost var t := newstr[..len];
    var i := 0;
    j := 0;
    assert t[0..] == t;
    while i < len
      invariant 0 <= j <= i <= len && (i > 0 ==> j > 0)
      invariant forall k {:trigger newstr[k]} :: i <= k < len ==> newstr[k] == t[k]
      invariant i > 0 ==> newstr[i - 1] == t[i - 1]
      invariant newstr[..j] + Squeeze(i > 0 && t[i - 1] == ' ', t[i..]) == Squeeze(false, t)
    {
      SqueezeAt(t, i);
      ghost var done := newstr[..j];
      if newstr[i] != ' ' {
        newstr[j] := newstr[i];
        assert newstr[..j + 1] == done + [t[i]];
      } else if newstr[i - 1] != ' ' {
        newstr[j] := ' ';
        assert newstr[..j + 1] == done + [' '];
      } else {
        j := j - 1;
        assert newstr[..j + 1] == done;
      }
      i := i + 1;
      j := j + 1;
    }
    SqueezeEnd(t, len > 0 && t[len - 1] == ' ');
    newstr[j] := '\0';
  }

  /** One round of the compaction. */
  lemma SqueezeAt(t: seq<char>, i: nat)
    requires i < |t|
    ensures var after := i > 0 && t[i - 1] == ' ';
      Squeeze(after, t[i..]) == (if t[i] != ' ' then [t[i]] else if after then [] else [' ']) + Squeeze(t[i] == ' ', t[i + 1..])
  {
    assert t[i..][1..] == t[i + 1..];
  }

  lemma SqueezeEnd(t: seq<char>, after: bool)
    ensures t[|t|..] == [] && Squeeze(after, []) == []
  {
  }

  /** trimSpace. */
  method TrimSpace(strr: seq<char>) returns (output: seq<char>)
    requires '\0' !in strr
    ensures output == Trimmed(strr)
  {
    var str := CopyOf(strr);
    var len := |strr|;
    assert forall k {:trigger str[k]} :: 0 <= k < len ==> str[k] == str[..len][k];
    ReplaceTabs(str, len);
    ghost var s := str[..len];
    var start, end := Ends(str, len);
    var size := if end - start < len then end - start else len;
    var newstr := CopyOf(str[start..start + size]);
    ghost var t := str[start..end];
    var j := Compact(newstr, size);
    output := newstr[..j];
    Middle(strr, s, start, end);
    assert t == s[start..end];
  }

  /** The part between the ends, squeezed, is the trimmed text. */
  lemma Middle(strr: seq<char>, s: seq<char>, start: nat, end: nat)
    requires s == Untab(strr) && start <= end <= |s|
    requires forall k {:trigger s[k]} :: 0 <= k < start || end <= k < |s| ==> s[k] == ' '
    requires start < end ==> s[start] != ' ' && s[end - 1] != ' '
    ensures Squeeze(false, s[start..end]) == Trimmed(strr)
  {
    UntabWords(strr);
    TrailingBlanks(s, end);
    LeadingBlanks(s[..end], start);
    assert s[..end][start..] == s[start..end];
    SqueezeTrimmed(s[start..end]);
  }

  // ---------------------------------------------------------------- tokenize

  function CharAt(s: seq<char>, i: nat): char {
    if i < |s| then s[i] else '\0'
  }

  function Spaces(s: seq<char>): nat {
    if s == [] then 0 else Spaces(s[..|s| - 1]) + (if s[|s| - 1] == ' ' then 1 else 0)
  }

  lemma {:induction false} SpacesConcat(s: seq<char>, t: seq<char>)
    ensures Spaces(s + t) == Spaces(s) + Spaces(t)
  {
    if t == [] {
      assert s + t == s;
    } else {
      assert (s + t)[..|s + t| - 1] == s + t[..|t| - 1];
      SpacesConcat(s, t[..|t| - 1]);
    }
  }

  lemma {:induction false} NoSpaces(w: seq<char>)
    requires forall k {:trigger w[k]} :: 0 <= k < |w| ==> !Blank(w[k])
    ensures Spaces(w) == 0
  {
    if w != [] { NoSpaces(w[..|w| - 1]); }
  }

  lemma TailWords(ws: seq<seq<char>>)
    requires AllWords(ws) && ws != []
    ensures AllWords(ws[1..])
  {
    forall i {:trigger ws[1..][i]} | 0 <= i < |ws[1..]| ensures IsWord(ws[1..][i]) { assert ws[1..][i] == ws[i + 1]; }
  }

  /** The spaces of a joined text, and one more, are its words. */
  lemma {:induction false} SpacesJoin(ws: seq<seq<char>>)
    requires AllWords(ws) && ws != []
    ensures Spaces(Join(ws)) + 1 == |ws|
  {
    NoSpaces(ws[0]);
    if |ws| > 1 {
      TailWords(ws);
      SpacesJoin(ws[1..]);
      SpacesConcat(ws[0], [' ']);
      SpacesConcat(ws[0] + [' '], Join(ws[1..]));
      assert Spaces([' ']) == 1;
    }
  }

  method CountWords(str: seq<char>) returns (length: nat)
    requires '\0' !in str
    ensures length == Spaces(str) + 1
  {
    length := 1;
    var i := 0;
    var c := CharAt(str, 0);
    while c != '\0'
      invariant 0 <= i <= |str| && c == CharAt(str, i) && length == Spaces(str[..i]) + 1
      decreases |str| - i
    {
      assert str[..i + 1][..i] == str[..i];
      if c == ' ' { length := length + 1; }
      i := i + 1;
      c := CharAt(str, i);
    }
    assert str[..i] == str;
  }

  /** The characters up to the next space or the end. */
  method NextToken(str: seq<char>, from: nat, ghost w: seq<char>) returns (token: seq<char>, start: nat)
    requires from + |w| <= |str| && str[from..from + |w|] == w && IsWord(w) && CharAt(str, from + |w|) in [' ', '\0']
    requires '\0' !in str
    ensures token == w && start == from + |w| + 1
  {
    var s := new char[|str| + 1];
    start := from;
    var c := CharAt(str, start);
    var j := 0;
    assert forall k {:trigger w[k]} :: 0 <= k < |w| ==> str[from + k] == w[k] by {
      forall k {:trigger w[k]} | 0 <= k < |w| ensures str[from + k] == w[k] { assert str[from..from + |w|][k] == w[k]; }
    }
    while c != ' ' && c != '\0'
      invariant from <= start <= from + |w| && c == CharAt(str, start) && j == start - from && s[..j] == w[..j]
      invariant j < |w| ==> c == w[j]
      decreases |str| - start
    {
      assert j < |w|;
      s[j] := str[start];
      start := start + 1;
      c := CharAt(str, start);
      j := j + 1;
    }
    s[j] := '\0';
    token := s[..j];
    start := start + 1;
  }

  /** tokenize: no tokens and argc as it was for a line without words, and otherwise exactly its
      words, argc in number. */
  method Tokenize(line: seq<char>, before: int) returns (some: bool, tokens: array<seq<char>>, argc: int)
    requires '\0' !in line
    ensures some <==> Words(line) != []
    ensures if some then tokens[..] == Words(line) && argc == |Words(line)| else argc == before
  {
    hide Words, Join, IsWord, Spaces;
    var str := TrimSpace(line);
    ghost var ws := Words(line);
    argc := before;
    WordsAreWords(line);
    TrimmedWords(line);
    PlainJoin(line);
    if CharAt(str, 0) == '\0' {
      tokens := new seq<char>[0];
      some := false;
      return;
    }
    some := true;
    SpacesJoin(ws);
    var length := CountWords(str);
    tokens := new seq<char>[length];
    var start: nat, i: nat := 0, 0;
    assert ws[0..] == ws && str[0..] == str;
    while i < length
      invariant 0 <= i <= length && tokens[..i] == ws[..i]
      invariant i < length ==> start <= |str| && str[start..] == Join(ws[i..])
    {
      JoinStep(ws, i, str, start);
      var token;
      token, start := NextToken(str, start, ws[i]);
      tokens[i] := token;
      i := i + 1;
    }
    argc := length;
  }

  /** What is left of a joined text begins with the next word, then the space before the rest. */
  lemma JoinStep(ws: seq<seq<char>>, i: nat, str: seq<char>, start: nat)
    requires AllWords(ws) && i < |ws| && start <= |str| && str[start..] == Join(ws[i..])
    ensures var w := ws[i]; start + |w| <= |str| && str[start..start + |w|] == w && IsWord(w)
    ensures var w := ws[i]; CharAt(str, start + |w|) in [' ', '\0']
    ensures i + 1 < |ws| ==> start + |ws[i]| + 1 <= |str| && str[start + |ws[i]| + 1..] == Join(ws[i + 1..])
  {
    var w, rest := ws[i], ws[i..];
    assert rest[0] == w && rest[1..] == ws[i + 1..];
    var t := str[start..];
    assert t[..|w|] == w;
    assert str[start..start + |w|] == t[..|w|];
    if |rest| > 1 {
      assert t[|w|] == ' ' && str[start + |w|] == t[|w|];
      assert t[|w| + 1..] == Join(ws[i + 1..]);
      assert str[start + |w| + 1..] == t[|w| + 1..];
    }
  }

  /** The trimmed text is empty exactly when there are no words, and has no terminator inside. */
  lemma {:induction false} PlainWords(s: seq<char>)
    requires '\0' !in s
    ensures forall i {:trigger Words(s)[i]} :: 0 <= i < |Words(s)| ==> '\0' !in Words(s)[i]
    decreases |s|
  {
    if s != [] {
      if Blank(s[0]) { PlainWords(s[1..]); } else { PlainWords(s[WordLength(s)..]); }
    }
  }

  lemma {:induction false} PlainJoined(ws: seq<seq<char>>)
    requires forall i {:trigger ws[i]} :: 0 <= i < |ws| ==> '\0' !in ws[i]
    ensures '\0' !in Join(ws)
  {
    if |ws| > 1 { PlainJoined(ws[1..]); }
  }

  lemma PlainJoin(s: seq<char>)
    requires '\0' !in s
    ensures '\0' !in Trimmed(s) && (Trimmed(s) == [] <==> Words(s) == [])
  {
    PlainWords(s);
    PlainJoined(Words(s));
    WordsAreWords(s);
    assert Words(s) != [] ==> IsWord(Words(s)[0]);
  }
}
