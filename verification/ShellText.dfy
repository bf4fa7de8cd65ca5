/** Trimming a line and cutting it into words. */
module ShellText {

  predicate Blank(c: char) {
    c == ' ' || c == '\t'
  }

  function WordLength(s: seq<char>): (n: nat)
    ensures n <= |s| && (n < |s| ==> Blank(s[n])) && (forall k {:trigger s[k]} :: 0 <= k < n ==> !Blank(s[k]))
    ensures s != [] && !Blank(s[0]) ==> n > 0
  {
    if s == [] || Blank(s[0]) then 0 else 1 + WordLength(s[1..])
  }

  /** The words of a line: its maximal parts without spaces and tabs. */
  function Words(s: seq<char>): seq<seq<char>>
    decreases |s|
  {
    if s == [] then []
    else if Blank(s[0]) then Words(s[1..])
    else [s[..WordLength(s)]] + Words(s[WordLength(s)..])
  }

  /** The words with one space between them. */
  function Join(ws: seq<seq<char>>): seq<char> {
    if ws == [] then [] else if |ws| == 1 then ws[0] else ws[0] + [' '] + Join(ws[1..])
  }

  /** What trimSpace returns. */
  function Trimmed(s: seq<char>): seq<char> {
    Join(Words(s))
  }

  predicate IsWord(w: seq<char>) {
    w != [] && forall k {:trigger w[k]} :: 0 <= k < |w| ==> !Blank(w[k])
  }

  predicate AllWords(ws: seq<seq<char>>) {
    forall i {:trigger ws[i]} :: 0 <= i < |ws| ==> IsWord(ws[i])
  }

  lemma {:induction false} WordsAreWords(s: seq<char>)
    ensures AllWords(Words(s))
    decreases |s|
  {
    if s != [] {
      if Blank(s[0]) {
        WordsAreWords(s[1..]);
      } else {
        WordsAreWords(s[WordLength(s)..]);
      }
    }
  }

  // ---------------------------------------------------------------- cutting a joined text

  lemma {:induction false} WordThen(w: seq<char>, t: seq<char>)
    requires IsWord(w) && (t == [] || Blank(t[0]))
    ensures WordLength(w + t) == |w|
  {
    var s := w + t;
    if |w| == 1 {
      assert s[1..] == t;
    } else {
      assert s[1..] == w[1..] + t;
      assert IsWord(w[1..]) by { forall k {:trigger w[1..][k]} | 0 <= k < |w[1..]| ensures !Blank(w[1..][k]) { assert w[1..][k] == w[k + 1]; } }
      WordThen(w[1..], t);
    }
    assert s[0] == w[0];
  }

  lemma WordsCons(w: seq<char>, t: seq<char>)
    requires IsWord(w) && (t == [] || Blank(t[0]))
    ensures Words(w + t) == [w] + Words(t)
  {
    WordThen(w, t);
    assert (w + t)[0] == w[0];
    assert (w + t)[..|w|] == w && (w + t)[|w|..] == t;
  }

  /** Cutting gives back the words that were joined. */
  lemma {:induction false} WordsJoin(ws: seq<seq<char>>)
    requires AllWords(ws)
    ensures Words(Join(ws)) == ws
  {
    if ws == [] {
    } else if |ws| == 1 {
      assert ws[0] + [] == ws[0];
      WordsCons(ws[0], []);
    } else {
      var rest := Join(ws[1..]);
      assert AllWords(ws[1..]) by { forall i {:trigger ws[1..][i]} | 0 <= i < |ws[1..]| ensures IsWord(ws[1..][i]) { assert ws[1..][i] == ws[i + 1]; } }
      WordsJoin(ws[1..]);
      WordsCons(ws[0], [' '] + rest);
      assert ([' '] + rest)[1..] == rest;
      assert Join(ws) == ws[0] + ([' '] + rest);
    }
  }

  /** Trimming keeps the words. */
  lemma TrimmedWords(s: seq<char>)
    ensures Words(Trimmed(s)) == Words(s)
  {
    WordsAreWords(s);
    WordsJoin(Words(s));
  }

  /** Trimming twice is trimming once. */
  lemma TrimTwice(s: seq<char>)
    ensures Trimmed(Trimmed(s)) == Trimmed(s)
  {
    TrimmedWords(s);
  }

  // ---------------------------------------------------------------- what the steps of trimSpace keep

  /** Tabs become spaces. */
  function Untab(s: seq<char>): (t: seq<char>)
    ensures |t| == |s| && forall k {:trigger t[k]} :: 0 <= k < |s| ==> t[k] == if s[k] == '\t' then ' ' else s[k]
  {
    seq(|s|, k requires 0 <= k < |s| => if s[k] == '\t' then ' ' else s[k])
  }

  lemma {:induction false} UntabWordLength(s: seq<char>)
    ensures WordLength(Untab(s)) == WordLength(s)
  {
    if s != [] {
      assert Untab(s)[1..] == Untab(s[1..]);
      UntabWordLength(s[1..]);
    }
  }

  lemma {:induction false} UntabWords(s: seq<char>)
    ensures Words(Untab(s)) == Words(s)
    decreases |s|
  {
    if s != [] {
      if Blank(s[0]) {
        assert Untab(s)[1..] == Untab(s[1..]);
        UntabWords(s[1..]);
      } else {
        var n := WordLength(s);
        UntabWordLength(s);
        assert Untab(s)[..n] == s[..n];
        assert Untab(s)[n..] == Untab(s[n..]);
        UntabWords(s[n..]);
      }
    }
  }

  /** Spaces in front do not matter. */
  lemma {:induction false} LeadingBlanks(s: seq<char>, n: nat)
    requires n <= |s| && forall k {:trigger s[k]} :: 0 <= k < n ==> Blank(s[k])
    ensures Words(s[n..]) == Words(s)
  {
    if n == 0 {
      assert s[0..] == s;
    } else {
      assert s[1..][n - 1..] == s[n..];
      LeadingBlanks(s[1..], n - 1);
    }
  }

  lemma {:induction false} OneBlankBehind(s: seq<char>, c: char)
    requires Blank(c)
    ensures Words(s + [c]) == Words(s)
    decreases |s|
  {
    var t := s + [c];
    if s == [] {
      assert t[1..] == [];
    } else if Blank(s[0]) {
      assert t[1..] == s[1..] + [c];
      OneBlankBehind(s[1..], c);
    } else {
      var n := WordLength(s);
      assert IsWord(s[..n]);
      assert t == s[..n] + (s[n..] + [c]);
      assert s == s[..n] + s[n..];
      WordsCons(s[..n], s[n..] + [c]);
      WordsCons(s[..n], s[n..]);
      OneBlankBehind(s[n..], c);
    }
  }

  /** Nor do spaces behind. */
  lemma {:induction false} TrailingBlanks(s: seq<char>, n: nat)
    requires n <= |s| && forall k {:trigger s[k]} :: n <= k < |s| ==> Blank(s[k])
    ensures Words(s[..n]) == Words(s)
    decreases |s| - n
  {
    if n == |s| {
      assert s[..n] == s;
    } else {
      TrailingBlanks(s, n + 1);
      assert s[..n + 1] == s[..n] + [s[n]];
      OneBlankBehind(s[..n], s[n]);
    }
  }

  /** Spaces that follow a space are dropped; `after` says whether a space came before s. */
  function Squeeze(after: bool, s: seq<char>): seq<char>
    decreases |s|
  {
    if s == [] then []
    else if s[0] != ' ' then [s[0]] + Squeeze(false, s[1..])
    else (if after then [] else [' ']) + Squeeze(true, s[1..])
  }

  lemma {:induction false} SqueezeWord(w: seq<char>, t: seq<char>, after: bool)
    requires IsWord(w)
    ensures Squeeze(after, w + t) == w + Squeeze(false, t)
    decreases |w|
  {
    var s := w + t;
    assert s[0] == w[0];
    if |w| == 1 {
      assert s[1..] == t;
    } else {
      assert s[1..] == w[1..] + t;
      assert IsWord(w[1..]) by { forall k {:trigger w[1..][k]} | 0 <= k < |w[1..]| ensures !Blank(w[1..][k]) { assert w[1..][k] == w[k + 1]; } }
      SqueezeWord(w[1..], t, false);
    }
  }

  predicate NoTabs(s: seq<char>) {
    forall k {:trigger s[k]} :: 0 <= k < |s| ==> s[k] != '\t'
  }

  /** A text without tabs that does not end in a space is squeezed to its words. */
  lemma {:induction false} SqueezeJoin(s: seq<char>)
    requires NoTabs(s) && (s != [] ==> s[|s| - 1] != ' ')
    ensures Squeeze(true, s) == Join(Words(s)) && (s != [] ==> Words(s) != [])
    decreases |s|
  {
    if s != [] {
      if Blank(s[0]) {
        SqueezeJoin(s[1..]);
      } else {
        var n := WordLength(s);
        var w, r := s[..n], s[n..];
        assert s == w + r && IsWord(w);
        SqueezeWord(w, r, true);
        if r == [] {
          assert Words(r) == [];
        } else {
          SqueezeJoin(r[1..]);
          var ws := Words(r[1..]);
          assert Words(s) == [w] + ws && ([w] + ws)[1..] == ws;
        }
      }
    }
  }

  lemma SqueezeTrimmed(s: seq<char>)
    requires NoTabs(s) && (s != [] ==> s[|s| - 1] != ' ' && s[0] != ' ')
    ensures Squeeze(false, s) == Join(Words(s))
  {
    SqueezeJoin(s);
  }
}
