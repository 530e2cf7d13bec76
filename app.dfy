/** normalize_line_breaks: at most one blank line between paragraphs. */
module App {

  /** How many newlines s starts with. */
  function Lead(s: string): (n: nat)
    ensures n <= |s|
    ensures forall i :: 0 <= i < n ==> s[i] == '\n'
    ensures n < |s| ==> s[n] != '\n'
  {
    if s == [] || s[0] != '\n' then 0 else 1 + Lead(s[1..])
  }

  /** re.sub(r'\n{3,}', '\n\n', text): the scan tries the pattern at each
      position; a run of three or more newlines, taken whole, becomes two,
      and otherwise one character is copied. */
  function NormalizeLineBreaks(text: string): (r: string)
    ensures |r| <= |text|
    decreases |text|
  {
    if text == [] then []
    else if Lead(text) >= 3 then "\n\n" + NormalizeLineBreaks(text[Lead(text)..])
    else [text[0]] + NormalizeLineBreaks(text[1..])
  }

  /** No three newlines in a row. */
  predicate NoTriple(s: string) {
    forall i :: 0 <= i && i + 2 < |s| ==> !(s[i] == '\n' && s[i + 1] == '\n' && s[i + 2] == '\n')
  }

  /** The characters of s that are not newlines, in order. */
  function Others(s: string): string {
    if s == [] then [] else (if s[0] == '\n' then [] else [s[0]]) + Others(s[1..])
  }

  /** The output starts with as many newlines as the input, but never more
      than two. */
  lemma {:induction false} LeadOut(s: string)
    ensures Lead(NormalizeLineBreaks(s)) == if Lead(s) >= 3 then 2 else Lead(s)
    decreases |s|
  {
    var r := NormalizeLineBreaks(s);
    if s == [] {
    } else if Lead(s) >= 3 {
      var t := s[Lead(s)..];
      LeadOut(t);
      assert Lead(t) == 0;
      assert r == "\n\n" + NormalizeLineBreaks(t);
      assert r[2..] == NormalizeLineBreaks(t);
      assert r[1..][1..] == r[2..];
    } else if s[0] == '\n' {
      LeadOut(s[1..]);
      assert r[1..] == NormalizeLineBreaks(s[1..]);
    }
  }

  lemma NoTripleCons(c: char, rest: string)
    requires NoTriple(rest) && (c == '\n' ==> Lead(rest) <= 1)
    ensures NoTriple([c] + rest)
  {
    var r := [c] + rest;
    forall i | 0 <= i && i + 2 < |r|
      ensures !(r[i] == '\n' && r[i + 1] == '\n' && r[i + 2] == '\n')
    {
      if i > 0 {
        assert r[i] == rest[i - 1] && r[i + 1] == rest[i] && r[i + 2] == rest[i + 1];
      } else if c == '\n' {
        assert r[1] == rest[0] && r[2] == rest[1];
      }
    }
  }

  /** The output never holds three newlines in a row. */
  lemma {:induction false} NoTripleOut(s: string)
    ensures NoTriple(NormalizeLineBreaks(s))
    decreases |s|
  {
    if s != [] {
      if Lead(s) >= 3 {
        var t := s[Lead(s)..];
        var rest := NormalizeLineBreaks(t);
        assert NormalizeLineBreaks(s) == ['\n'] + (['\n'] + rest);
        assert Lead(t) == 0;
        NoTripleOut(t);
        LeadOut(t);
        NoTripleCons('\n', rest);
        assert (['\n'] + rest)[1..] == rest;
        NoTripleCons('\n', ['\n'] + rest);
      } else {
        NoTripleOut(s[1..]);
        LeadOut(s[1..]);
        NoTripleCons(s[0], NormalizeLineBreaks(s[1..]));
      }
    }
  }

  /** Text without three newlines in a row comes back unchanged. */
  lemma {:induction false} NormalizeKeeps(s: string)
    requires NoTriple(s)
    ensures NormalizeLineBreaks(s) == s
    decreases |s|
  {
    if s != [] {
      if |s| >= 3 {
        assert !(s[0] == '\n' && s[1] == '\n' && s[2] == '\n');
      }
      assert Lead(s) < 3;
      assert NoTriple(s[1..]) by {
        forall i | 0 <= i && i + 2 < |s[1..]|
          ensures !(s[1..][i] == '\n' && s[1..][i + 1] == '\n' && s[1..][i + 2] == '\n')
        {
          assert s[1..][i] == s[i + 1] && s[1..][i + 1] == s[i + 2] && s[1..][i + 2] == s[i + 3];
        }
      }
      NormalizeKeeps(s[1..]);
    }
  }

  /** Normalising twice is normalising once. */
  lemma NormalizeIdempotent(s: string)
    ensures NormalizeLineBreaks(NormalizeLineBreaks(s)) == NormalizeLineBreaks(s)
  {
    NoTripleOut(s);
    NormalizeKeeps(NormalizeLineBreaks(s));
  }

  lemma OthersAppend(x: string, y: string)
    ensures Others(x + y) == Others(x) + Others(y)
  {
    if x != [] {
      assert (x + y)[1..] == x[1..] + y;
      OthersAppend(x[1..], y);
    } else {
      assert x + y == y;
    }
  }

  lemma {:induction false} OthersNewlines(s: string, n: nat)
    requires n <= |s| && forall i :: 0 <= i < n ==> s[i] == '\n'
    ensures Others(s) == Others(s[n..])
    decreases n
  {
    if n > 0 {
      OthersNewlines(s[1..], n - 1);
      assert s[1..][n - 1..] == s[n..];
    }
  }

  /** Only newlines are removed: every other character is kept, in order. */
  lemma {:induction false} OthersKept(s: string)
    ensures Others(NormalizeLineBreaks(s)) == Others(s)
    decreases |s|
  {
    if s != [] {
      if Lead(s) >= 3 {
        var t := s[Lead(s)..];
        OthersKept(t);
        OthersAppend("\n\n", NormalizeLineBreaks(t));
        OthersNewlines(s, Lead(s));
      } else {
        OthersKept(s[1..]);
        OthersAppend([s[0]], NormalizeLineBreaks(s[1..]));
      }
    }
  }

  /** A character that is not a newline ends any run that reaches it, so
      the lead of the text before it is the lead of the whole. */
  lemma {:induction false} LeadAround(x: string, c: char, y: string)
    requires c != '\n'
    ensures Lead(x + [c] + y) == Lead(x)
    decreases |x|
  {
    if x == [] {
      assert x + [c] + y == [c] + y;
    } else {
      assert (x + [c] + y)[1..] == x[1..] + [c] + y;
      if x[0] == '\n' {
        LeadAround(x[1..], c, y);
      }
    }
  }

  /** The substitution works on each side of a character that is not a
      newline on its own: no run crosses it, and it is copied. */
  lemma {:induction false} NormalizeAround(x: string, c: char, y: string)
    requires c != '\n'
    ensures NormalizeLineBreaks(x + [c] + y) == NormalizeLineBreaks(x) + [c] + NormalizeLineBreaks(y)
    decreases |x|
  {
    var s := x + [c] + y;
    LeadAround(x, c, y);
    if x == [] {
      assert s == [c] + y && s[1..] == y;
    } else if Lead(x) >= 3 {
      var n := Lead(x);
      assert s[n..] == x[n..] + [c] + y;
      NormalizeAround(x[n..], c, y);
    } else {
      assert s[1..] == x[1..] + [c] + y;
      NormalizeAround(x[1..], c, y);
    }
  }

  /** n newlines. */
  function Newlines(n: nat): (s: string)
    ensures |s| == n && forall i :: 0 <= i < n ==> s[i] == '\n'
  {
    seq(n, i => '\n')
  }

  /** A run of three or more newlines becomes exactly two; a shorter run is
      kept. */
  lemma NormalizeRun(n: nat)
    ensures NormalizeLineBreaks(Newlines(n)) == Newlines(if n >= 3 then 2 else n)
  {
    var s := Newlines(n);
    if n >= 3 {
      assert Lead(s) == n by {
        LeadNewlines(s, n);
      }
      assert s[n..] == [];
      assert Newlines(2) == "\n\n";
    } else {
      NormalizeKeeps(s);
    }
  }

  lemma {:induction false} LeadNewlines(s: string, n: nat)
    requires |s| == n && forall i :: 0 <= i < n ==> s[i] == '\n'
    ensures Lead(s) == n
    decreases n
  {
    if n > 0 {
      LeadNewlines(s[1..], n - 1);
    }
  }
}
