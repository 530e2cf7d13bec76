/** Character classes and small string helpers shared by the edge reader, the
    report writer, the report parsers and the display helpers. */
module Text {

  /** Python's str.isspace(), which is also what the regular-expression class
      \s matches in a str pattern. */
  predicate IsSpace(c: char) {
    c == ' ' || c == '\t' || c == '\n' || c == '\r' || c == '\U{b}' || c == '\U{c}'
    || ('\U{1c}' <= c <= '\U{1f}') || c == '\U{85}' || c == '\U{a0}' || c == '\U{1680}'
    || ('\U{2000}' <= c <= '\U{200a}') || c == '\U{2028}' || c == '\U{2029}'
    || c == '\U{202f}' || c == '\U{205f}' || c == '\U{3000}'
  }

  /** The regular-expression class \w, restricted to ASCII. */
  predicate IsWordChar(c: char) {
    ('a' <= c <= 'z') || ('A' <= c <= 'Z') || ('0' <= c <= '9') || c == '_'
  }

  /** The regular-expression class \d, restricted to ASCII. */
  predicate IsDigit(c: char) {
    '0' <= c <= '9'
  }

  /** A non-empty run of word characters: what (\w+) captures. */
  predicate IsWord(s: string) {
    |s| > 0 && forall i :: 0 <= i < |s| ==> IsWordChar(s[i])
  }

  predicate AllDigits(s: string) {
    forall i :: 0 <= i < |s| ==> IsDigit(s[i])
  }

  /** The character classes the source's regular expressions use. */
  datatype CharClass =
    | Space        // \s
    | Word         // \w
    | Digit        // \d
    | NotNewline   // .
    | LabelText    // [^"\]]
    | NotBracket   // [^\]]

  predicate In(c: char, cls: CharClass) {
    match cls
    case Space => IsSpace(c)
    case Word => IsWordChar(c)
    case Digit => IsDigit(c)
    case NotNewline => c != '\n'
    case LabelText => c != '"' && c != ']'
    case NotBracket => c != ']'
  }

  /** Length of the longest prefix of s whose characters all belong to the class:
      what a greedy `cls*` consumes. */
  function Run(s: string, cls: CharClass): (n: nat)
    ensures n <= |s|
    ensures forall i :: 0 <= i < n ==> In(s[i], cls)
    ensures n < |s| ==> !In(s[n], cls)
  {
    if s != [] && In(s[0], cls) then 1 + Run(s[1..], cls) else 0
  }

  lemma {:induction false} RunOfPrefix(x: string, y: string, cls: CharClass)
    requires forall i :: 0 <= i < |x| ==> In(x[i], cls)
    requires y == [] || !In(y[0], cls)
    ensures Run(x + y, cls) == |x|
  {
    if x != [] {
      assert (x + y)[1..] == x[1..] + y;
      RunOfPrefix(x[1..], y, cls);
    }
  }

  /** What a greedy (\w+) captures at the start of s is a word. */
  lemma WordRun(s: string)
    requires Run(s, Word) > 0
    ensures IsWord(s[..Run(s, Word)])
  {
    var n := Run(s, Word);
    forall i | 0 <= i < n ensures IsWordChar(s[..n][i]) {
      assert In(s[i], Word);
    }
  }

  /** The longest prefix of s in the class: what a greedy `cls*` captures. */
  function Span(s: string, cls: CharClass): (r: string)
    ensures r == s[..Run(s, cls)]
    ensures forall j :: 0 <= j < |r| ==> In(r[j], cls)
  {
    s[..Run(s, cls)]
  }

  /** str.lstrip() */
  function TrimStart(s: string): (r: string)
    ensures r == s[Run(s, Space)..]
  {
    s[Run(s, Space)..]
  }

  /** str.rstrip() */
  function TrimEnd(s: string): (r: string)
    ensures r <= s
    ensures r == [] || !IsSpace(r[|r| - 1])
    ensures forall i :: |r| <= i < |s| ==> IsSpace(s[i])
  {
    if s != [] && IsSpace(s[|s| - 1]) then TrimEnd(s[..|s| - 1]) else s
  }

  /** str.strip(): the text without its leading and trailing whitespace. */
  function Strip(s: string): (r: string)
    ensures r == [] || (!IsSpace(r[0]) && !IsSpace(r[|r| - 1]))
    ensures |r| <= |s|
    ensures forall i :: 0 <= i < |s| && !IsSpace(s[i]) ==> r != []
  {
    TrimEnd(TrimStart(s))
  }

  lemma StripUnchanged(s: string)
    requires s == [] || (!IsSpace(s[0]) && !IsSpace(s[|s| - 1]))
    ensures Strip(s) == s
  {
    assert Run(s, Space) == 0;
  }

  /** The text of a non-negative integer as Python's str() writes it. */
  function Decimal(n: nat): (s: string)
    ensures |s| > 0 && AllDigits(s)
  {
    if n < 10 then [DigitChar(n)] else Decimal(n / 10) + [DigitChar(n % 10)]
  }

  function DigitChar(d: nat): (c: char)
    requires d < 10
    ensures IsDigit(c) && c as int - '0' as int == d
  {
    ('0' as int + d) as char
  }

  /** int() of a string of ASCII digits. */
  function DigitsValue(s: string): nat
    requires AllDigits(s)
  {
    if s == [] then 0 else DigitsValue(s[..|s| - 1]) * 10 + (s[|s| - 1] as int - '0' as int)
  }

  lemma {:induction false} DecimalRoundTrip(n: nat)
    ensures DigitsValue(Decimal(n)) == n
  {
    if n >= 10 {
      var s := Decimal(n);
      assert s[..|s| - 1] == Decimal(n / 10);
      DecimalRoundTrip(n / 10);
    }
  }

  /** `sub in s` for strings. */
  predicate Contains(s: string, sub: string)
    decreases |s|
  {
    sub <= s || (s != [] && Contains(s[1..], sub))
  }

  lemma {:induction false} ContainsAt(s: string, sub: string, i: nat)
    requires i + |sub| <= |s| && s[i..i + |sub|] == sub
    ensures Contains(s, sub)
  {
    if i > 0 {
      assert s[1..][i - 1..i - 1 + |sub|] == sub;
      ContainsAt(s[1..], sub, i - 1);
    }
  }

  lemma {:induction false} ContainsWitness(s: string, sub: string) returns (i: nat)
    requires Contains(s, sub)
    ensures i + |sub| <= |s| && s[i..i + |sub|] == sub
    decreases |s|
  {
    if sub <= s {
      i := 0;
    } else {
      var j := ContainsWitness(s[1..], sub);
      i := j + 1;
      assert s[i..i + |sub|] == s[1..][j..j + |sub|];
    }
  }

  /** `sub in x + y` when sub is already in x. */
  lemma ContainsInPrefix(x: string, y: string, sub: string)
    requires Contains(x, sub)
    ensures Contains(x + y, sub)
  {
    var i := ContainsWitness(x, sub);
    assert (x + y)[i..i + |sub|] == x[i..i + |sub|];
    ContainsAt(x + y, sub, i);
  }

  lemma ContainsInSuffix(x: string, y: string, sub: string)
    requires Contains(y, sub)
    ensures Contains(x + y, sub)
  {
    var i := ContainsWitness(y, sub);
    assert (x + y)[|x| + i..|x| + i + |sub|] == y[i..i + |sub|];
    ContainsAt(x + y, sub, |x| + i);
  }

  /** `sub in s` when sub is in a suffix of s. */
  lemma ContainsInDrop(s: string, k: nat, sub: string)
    requires k <= |s| && Contains(s[k..], sub)
    ensures Contains(s, sub)
  {
    var i := ContainsWitness(s[k..], sub);
    assert s[k + i..k + i + |sub|] == s[k..][i..i + |sub|];
    ContainsAt(s, sub, k + i);
  }

  function Repeat(c: char, n: nat): (s: string)
    ensures |s| == n && forall i :: 0 <= i < n ==> s[i] == c
  {
    seq(n, _ => c)
  }
}
