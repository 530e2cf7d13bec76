/** services/report_parser.py: reading a text report back into paths.

    Every regular expression the reader uses is deterministic at each start
    position (each greedy class is disjoint from the literal that follows it),
    so each is modelled as a function that either matches at the start of a
    string or does not, and re.search / re.findall / re.finditer as a scan
    over the start positions from left to right. */
module Parser {
  import opened Common
  import opened Text
  import opened Graph
  import opened Prioritize
  import opened Report

  /** A step of a parsed path; the reader never sets the tags. */
  datatype PathSegment = PathSegment(source: NodeId, target: NodeId, action: string, tag: Option<string>, tagType: Option<string>)

  /** (source, target, action) of each segment. */
  function Tuples(segs: seq<PathSegment>): (es: seq<Edge>)
    ensures |es| == |segs|
    ensures forall i :: 0 <= i < |segs| ==> es[i] == Edge(segs[i].source, segs[i].target, segs[i].action)
  {
    seq(|segs|, i requires 0 <= i < |segs| => Edge(segs[i].source, segs[i].target, segs[i].action))
  }

  // ---------------------------------------------------------------------------
  // _parse_path_segments

  /** How much a newline at the start of s and the white space after it
      take up, beyond the newline; 0 when s does not start that way. */
  function Gap(s: string): (g: nat)
    ensures g > 0 ==> s != [] && s[0] == '\n' && 1 + g <= |s|
  {
    if s != [] && s[0] == '\n' then Run(s[1..], Space) else 0
  }

  /** re.sub(r'\n\s+', ' ', s): a newline with the white space after it
      becomes one space. */
  function Normalize(s: string): (r: string)
    ensures |r| <= |s|
    decreases |s|
  {
    if s == [] then []
    else if Gap(s) > 0 then " " + Normalize(s[1 + Gap(s)..])
    else [s[0]] + Normalize(s[1..])
  }

  /** A match of `\((\w+)\)` at the start of t: the word and the length of the
      match. */
  function Parenthesized(t: string): (m: Option<(NodeId, nat)>)
    ensures m.Some? ==> IsWord(m.value.0) && m.value.1 == |m.value.0| + 2 <= |t|
  {
    if t == [] || t[0] != '(' then None
    else
      var w := Span(t[1..], Word);
      if w == [] || 1 + |w| >= |t| || t[1 + |w|] != ')' then None
      else Some((w, |w| + 2))
  }

  /** re.match(r'\((\w+)\)', t): the state in the leading parentheses. */
  function StartState(t: string): (m: Option<NodeId>)
    ensures m.Some? ==> IsWord(m.value)
  {
    match Parenthesized(t)
    case Some((w, _)) => Some(w)
    case None => None
  }

  /** An action that `[^\]]+` captures whole. */
  predicate ActionText(a: string) {
    |a| > 0 && forall k :: 0 <= k < |a| ==> a[k] != ']'
  }

  /** A match of `\[([^\]]+)\]` at the start of t: the action and the length
      of the match. */
  function Bracketed(t: string): (m: Option<(string, nat)>)
    ensures m.Some? ==> ActionText(m.value.0) && m.value.1 == |m.value.0| + 2 <= |t|
  {
    if t == [] || t[0] != '[' then None
    else
      var a := Span(t[1..], NotBracket);
      if a == [] || 1 + |a| >= |t| then None
      else
        assert forall k :: 0 <= k < |a| ==> In(a[k], NotBracket);
        Some((a, |a| + 2))
  }

  /** t without the white space at its start: where a `\s*` ends. */
  function SkipSpace(t: string, i: nat): (j: nat)
    requires i <= |t|
    ensures i <= j <= |t|
  {
    i + Run(t[i..], Space)
  }

  /** A match of `--\s*\[([^\]]+)\]\s*-->\s*\((\w+)\)` at the start of t: the
      action, the target and the length of the match. The `[` is looked for
      at a, the `-->` at b and the `(` at c. */
  function TransitionAt(t: string): (m: Option<(string, NodeId, nat)>)
    ensures m.Some? ==> ActionText(m.value.0) && IsWord(m.value.1) && 0 < m.value.2 <= |t|
  {
    if !("--" <= t) then None
    else
      var a := SkipSpace(t, 2);
      match Bracketed(t[a..])
      case None => None
      case Some((action, k)) =>
        var b := SkipSpace(t, a + k);
        if !("-->" <= t[b..]) then None
        else
          var c := SkipSpace(t, b + 3);
          match Parenthesized(t[c..])
          case None => None
          case Some((target, n)) => Some((action, target, c + n))
  }

  /** An action and a target as the transition pattern captures them. */
  predicate Captured(x: (string, NodeId)) {
    ActionText(x.0) && IsWord(x.1)
  }

  /** re.findall of the transition pattern: (action, target) pairs. */
  function Transitions(t: string): (ts: seq<(string, NodeId)>)
    ensures forall x :: x in ts ==> Captured(x)
    decreases |t|
  {
    if t == [] then []
    else match TransitionAt(t)
      case Some((action, target, len)) =>
        var rest := Transitions(t[len..]);
        assert Captured((action, target));
        [(action, target)] + rest
      case None => Transitions(t[1..])
  }

  /** Each transition becomes a segment from the state the previous one
      reached (the start state for the first). */
  function Chain(start: NodeId, ts: seq<(string, NodeId)>): seq<PathSegment> {
    seq(|ts|, i requires 0 <= i < |ts| => PathSegment(if i == 0 then start else ts[i - 1].1, ts[i].1, ts[i].0, None, None))
  }

  lemma ChainNext(start: NodeId, ts: seq<(string, NodeId)>, i: nat)
    requires i < |ts|
    ensures Chain(start, ts[..i + 1])
      == Chain(start, ts[..i]) + [PathSegment(if i == 0 then start else ts[i - 1].1, ts[i].1, ts[i].0, None, None)]
  {
    var a, b := Chain(start, ts[..i + 1]), Chain(start, ts[..i]);
    assert forall j :: 0 <= j < i ==> a[j] == b[j];
  }

  /** _parse_path_segments, in both report readers. */
  function Segments(pathText: string): (segs: seq<PathSegment>)
    ensures Strip(pathText) == [] ==> segs == []
  {
    var t := Normalize(Strip(pathText));
    if t == [] || '(' !in t then []
    else match StartState(t)
      case None => []
      case Some(s) => Chain(s, Transitions(t))
  }

  /** _parse_path_segments: the normalisation, the start match, then the loop
      that threads the current state through the transitions. */
  method ParsePathSegments(pathText: string) returns (segments: seq<PathSegment>)
    ensures segments == Segments(pathText)
  {
    segments := [];
    var normalizedText := Normalize(Strip(pathText));
    if normalizedText == [] || '(' !in normalizedText {
      return;
    }
    var startMatch := StartState(normalizedText);
    if startMatch.None? {
      return;
    }
    var currentState := startMatch.value;
    var transitions := Transitions(normalizedText);
    for i := 0 to |transitions|
      invariant segments == Chain(startMatch.value, transitions[..i])
      invariant currentState == if i == 0 then startMatch.value else transitions[i - 1].1
    {
      var (action, target) := transitions[i];
      ChainNext(startMatch.value, transitions, i);
      segments := segments + [PathSegment(currentState, target, action, None, None)];
      currentState := target;
    }
    assert transitions[..|transitions|] == transitions;
  }

  /** What _parse_path_segments returns chains: it starts at the state in the
      leading parentheses, each segment starts where the previous one ended,
      every state is a word, every action is a non-empty text without ']',
      and no tag is set. */
  lemma SegmentsChain(pathText: string)
    ensures var segs := Segments(pathText);
      && (segs != [] ==> StartState(Normalize(Strip(pathText))) == Some(segs[0].source))
      && (forall i :: 0 <= i < |segs| - 1 ==> segs[i + 1].source == segs[i].target)
      && (forall i :: 0 <= i < |segs| ==> IsWord(segs[i].source) && IsWord(segs[i].target))
      && (forall i :: 0 <= i < |segs| ==> ActionText(segs[i].action) && segs[i].tag.None? && segs[i].tagType.None?)
  {
    var segs := Segments(pathText);
    if segs != [] {
      var t := Normalize(Strip(pathText));
      var ts := Transitions(t);
      forall i | 0 <= i < |segs| ensures IsWord(segs[i].source) && IsWord(segs[i].target) && ActionText(segs[i].action) {
        assert ts[i] in ts && Captured(ts[i]);
        if i > 0 {
          assert ts[i - 1] in ts && Captured(ts[i - 1]);
        }
      }
    }
  }

  // ---------------------------------------------------------------------------
  // The report's paths read back.

  /** A path the report shows so that the reader gives it back: its steps
      chain, its states are words, and its actions are non-empty, hold no ']'
      and stay on one line. */
  predicate Readable(p: seq<Edge>) {
    |p| > 0
    && (forall i :: 0 <= i < |p| ==> IsWord(p[i].source) && IsWord(p[i].target))
    && (forall i :: 0 <= i < |p| ==> ActionText(p[i].action) && NoNewline(p[i].action))
    && forall i :: 0 <= i < |p| - 1 ==> p[i].target == p[i + 1].source
  }

  lemma WordPlain(s: string)
    requires IsWord(s)
    ensures '-' !in s && '(' !in s && ')' !in s && '.' !in s && NoNewline(s)
  {
  }

  lemma ReadableSingleLine(p: seq<Edge>)
    requires Readable(p)
    ensures SingleLine(p)
  {
    forall i | 0 <= i < |p| ensures NoNewline(p[i].source) && NoNewline(p[i].target) {
      WordPlain(p[i].source);
      WordPlain(p[i].target);
    }
  }

  lemma {:induction false} NormalizeKeeps(s: string)
    requires NoNewline(s)
    ensures Normalize(s) == s
    decreases |s|
  {
    if s != [] {
      assert Gap(s) == 0;
      NormalizeKeeps(s[1..]);
    }
  }

  /** A run that stops inside x stops at the same place in x + y. */
  lemma {:induction false} RunAppend(x: string, y: string, cls: CharClass)
    requires Run(x, cls) < |x|
    ensures Run(x + y, cls) == Run(x, cls)
  {
    if In(x[0], cls) {
      assert (x + y)[1..] == x[1..] + y;
      RunAppend(x[1..], y, cls);
    }
  }

  /** In a string that does not end in white space, a gap that starts inside
      it ends inside it. */
  lemma GapInside(x: string, y: string)
    requires x != [] && !IsSpace(x[|x| - 1])
    ensures 1 + Gap(x) < |x| || Gap(x) == 0
    ensures Gap(x + y) == Gap(x)
  {
    if x[0] == '\n' {
      var u := x[1..];
      assert (x + y)[1..] == u + y;
      if u != [] {
        assert !In(u[|u| - 1], Space);
        RunAppend(u, y, Space);
      }
    }
  }

  /** Joining lines works piece by piece after a character that is not white
      space. */
  lemma {:induction false} NormalizeAppend(x: string, y: string)
    requires x == [] || !IsSpace(x[|x| - 1])
    ensures Normalize(x + y) == Normalize(x) + Normalize(y)
    decreases |x|, 1
  {
    if x == [] {
      assert x + y == y;
    } else {
      GapInside(x, y);
      NormalizeFirst(x, y, if Gap(x) > 0 then 1 + Gap(x) else 1);
    }
  }

  /** What x + y and x normalise to after their first character or gap. */
  lemma {:induction false} NormalizeFirst(x: string, y: string, i: nat)
    requires x != [] && !IsSpace(x[|x| - 1])
    requires Gap(x + y) == Gap(x) && i == (if Gap(x) > 0 then 1 + Gap(x) else 1) && i <= |x|
    ensures Normalize(x + y) == Normalize(x) + Normalize(y)
    decreases |x|, 0
  {
    NormalizeSplit(x, y, i);
    AppendAssoc(if Gap(x) > 0 then " " else [x[0]], Normalize(x[i..]), Normalize(y));
    NormalizeAppend(x[i..], y);
  }

  /** x + y and x start their normal forms alike. */
  lemma NormalizeSplit(x: string, y: string, i: nat)
    requires x != [] && Gap(x + y) == Gap(x) && i == (if Gap(x) > 0 then 1 + Gap(x) else 1) && i <= |x|
    ensures var h := if Gap(x) > 0 then " " else [x[0]];
      Normalize(x + y) == h + Normalize(x[i..] + y) && Normalize(x) == h + Normalize(x[i..])
  {
    NormalizeHead(x + y);
    NormalizeHead(x);
    DropAppend(x, y, i);
  }

  /** Normalize takes off one space for a gap, or one character. */
  lemma NormalizeHead(s: string)
    requires s != []
    ensures Normalize(s) == (if Gap(s) > 0 then " " else [s[0]]) + Normalize(s[(if Gap(s) > 0 then 1 + Gap(s) else 1)..])
  {
  }

  /** A line break before a step joins the lines with the step's own space. */
  lemma NormalizeBreakStep(e: Edge)
    requires NoNewline(e.action) && NoNewline(e.target)
    ensures Normalize(LineBreak + Step(e)) == Step(e)
  {
    var st := Step(e);
    var rest := st[1..];
    var s := LineBreak + st;
    StepNoNewline(e);
    assert st == " " + rest && rest[0] == '-';
    assert s[1..] == "         " + rest;
    RunOfPrefix("         ", rest, Space);
    assert Gap(s) == 9;
    assert s[10..] == rest;
    NormalizeKeeps(rest);
  }

  lemma {:induction false} NormalizeSteps(p: seq<Edge>, n: nat)
    requires 1 <= n <= |p| && SingleLine(p)
    ensures Normalize(Steps(p, n - 1) + Step(p[n - 1])) == FlatSteps(p, n)
    decreases n, 1
  {
    if n == 1 {
      NormalizeFirstStep(p, n);
    } else {
      NormalizeNextStep(p, n);
    }
  }

  lemma NormalizeFirstStep(p: seq<Edge>, n: nat)
    requires n == 1 <= |p| && SingleLine(p)
    ensures Normalize(Steps(p, n - 1) + Step(p[n - 1])) == FlatSteps(p, n)
  {
    StepNoNewline(p[0]);
    assert Steps(p, 0) + Step(p[0]) == Step(p[0]);
    NormalizeKeeps(Step(p[0]));
  }

  lemma {:induction false} NormalizeNextStep(p: seq<Edge>, n: nat)
    requires 2 <= n <= |p| && SingleLine(p)
    ensures Normalize(Steps(p, n - 1) + Step(p[n - 1])) == FlatSteps(p, n)
    decreases n, 0
  {
    NormalizeSteps(p, n - 1);
    var last := Step(p[n - 1]);
    var x := Steps(p, n - 2) + Step(p[n - 2]);
    var br := Break(n - 1, |p|);
    StepNoNewline(p[n - 1]);
    assert Steps(p, n - 1) + last == x + (br + last);
    NormalizeAppend(x, br + last);
    if br == LineBreak {
      NormalizeBreakStep(p[n - 1]);
    } else {
      assert br + last == last;
      NormalizeKeeps(last);
    }
  }

  /** The reader's normalisation turns format_diff_path's text into the
      one-line form. */
  lemma NormalizeFormat(p: seq<Edge>)
    requires |p| > 0 && SingleLine(p)
    ensures Normalize(FormatPath(p)) == OneLine(p)
  {
    var head := "(" + p[0].source + ")";
    var n := |p|;
    assert Steps(p, n) == Steps(p, n - 1) + Step(p[n - 1]);
    NormalizeAppend(head, Steps(p, n));
    NormalizeKeeps(head);
    NormalizeSteps(p, n);
  }

  lemma ParenthesizedWord(w: string, rest: string)
    requires IsWord(w)
    ensures Parenthesized("(" + w + ")" + rest) == Some((w, |w| + 2))
  {
    var t := "(" + w + ")" + rest;
    assert t[1..] == w + (")" + rest);
    forall j | 0 <= j < |w| ensures In(w[j], Word) {
    }
    RunOfPrefix(w, ")" + rest, Word);
    assert Span(t[1..], Word) == w;
  }

  lemma BracketedAction(a: string, rest: string)
    requires ActionText(a)
    ensures Bracketed("[" + a + "]" + rest) == Some((a, |a| + 2))
  {
    var t := "[" + a + "]" + rest;
    assert t[1..] == a + ("]" + rest);
    forall j | 0 <= j < |a| ensures In(a[j], NotBracket) {
    }
    RunOfPrefix(a, "]" + rest, NotBracket);
    assert Span(t[1..], NotBracket) == a;
  }

  /** Where the transition pattern finds a written step. */
  lemma TransitionAtStep(action: string, tg: string, rest: string)
    requires ActionText(action) && IsWord(tg)
    ensures TransitionAt("--[" + action + "]--> (" + tg + ")" + rest) == Some((action, tg, |action| + |tg| + 10))
  {
    var t, b := "--[" + action + "]--> (" + tg + ")" + rest, |action| + 4;
    StepSlices(action, tg, rest);
    BracketedAction(action, "--> (" + tg + ")" + rest);
    ParenthesizedWord(tg, rest);
    SkipNoSpace(t, 2);
    SkipNoSpace(t, b);
    SkipOneSpace(t, b + 3);
    TransitionAtParts(t, action, tg, b, |tg| + 2);
  }

  /** Where the parts of a written step sit in it. */
  lemma StepSlices(action: string, tg: string, rest: string)
    ensures var t, b := "--[" + action + "]--> (" + tg + ")" + rest, |action| + 4;
      |t| > b + 4 && "--" <= t && t[2] == '[' && "-->" <= t[b..] && t[b] == '-' && t[b + 3] == ' ' && t[b + 4] == '('
      && t[2..] == "[" + action + "]" + ("--> (" + tg + ")" + rest)
      && t[b + 4..] == "(" + tg + ")" + rest
  {
  }

  /** The pattern matches when each of its parts is found where the one
      before it ends. */
  lemma TransitionAtParts(t: string, action: string, tg: string, b: nat, n: nat)
    requires |t| > b + 4 && b >= 2 && "--" <= t && "-->" <= t[b..]
    requires SkipSpace(t, 2) == 2 && SkipSpace(t, b) == b && SkipSpace(t, b + 3) == b + 4
    requires Bracketed(t[2..]) == Some((action, b - 2))
    requires Parenthesized(t[b + 4..]) == Some((tg, n))
    ensures TransitionAt(t) == Some((action, tg, b + 4 + n))
  {
  }

  /** `\s*` matches the one space before a character that is not white space. */
  lemma SkipOneSpace(t: string, i: nat)
    requires i + 1 < |t| && t[i] == ' ' && !IsSpace(t[i + 1])
    ensures SkipSpace(t, i) == i + 1
  {
    assert t[i..][1..] == t[i + 1..];
    SkipNoSpace(t, i + 1);
  }

  /** `\s*` matches nothing before a character that is not white space. */
  lemma SkipNoSpace(t: string, i: nat)
    requires i < |t| && !IsSpace(t[i])
    ensures SkipSpace(t, i) == i
  {
    assert t[i..][0] == t[i];
  }

  /** The (action, target) pairs of a path, in order. */
  function Pairs(p: seq<Edge>): (ts: seq<(string, NodeId)>)
    ensures |ts| == |p|
    ensures forall i :: 0 <= i < |p| ==> ts[i] == (p[i].action, p[i].target)
  {
    if p == [] then [] else Pairs(p[..|p| - 1]) + [(p[|p| - 1].action, p[|p| - 1].target)]
  }

  /** Text without a '-' holds no transition. */
  lemma {:induction false} TransitionsSkip(x: string, y: string)
    requires '-' !in x
    ensures Transitions(x + y) == Transitions(y)
    decreases |x|
  {
    if x != [] {
      assert (x + y)[1..] == x[1..] + y;
      assert x[0] != '-';
      TransitionsSkip(x[1..], y);
    } else {
      assert x + y == y;
    }
  }

  /** A written step is read back as its action and target. */
  lemma TransitionsStep(e: Edge, rest: string)
    requires ActionText(e.action) && IsWord(e.target)
    ensures Transitions(Step(e) + rest) == [(e.action, e.target)] + Transitions(rest)
  {
    StepSpace(e, rest);
    TransitionsStepText(e.action, e.target, rest);
  }

  /** A written step starts with a space, where no transition starts, and
      then the transition text. */
  lemma StepSpace(e: Edge, rest: string)
    ensures var t := Step(e) + rest;
      t != [] && TransitionAt(t).None? && t[1..] == "--[" + e.action + "]--> (" + e.target + ")" + rest
  {
    var t := Step(e) + rest;
    assert t[0] == ' ';
  }

  /** The step text after its leading space is one match, then the rest. */
  lemma TransitionsStepText(action: string, tg: string, rest: string)
    requires ActionText(action) && IsWord(tg)
    ensures Transitions("--[" + action + "]--> (" + tg + ")" + rest) == [(action, tg)] + Transitions(rest)
  {
    TransitionAtStep(action, tg, rest);
    assert ("--[" + action + "]--> (" + tg + ")" + rest)[|action| + |tg| + 10..] == rest;
  }

  lemma {:induction false} TransitionsFlat(p: seq<Edge>, n: nat, rest: string)
    requires n <= |p|
    requires forall i :: 0 <= i < |p| ==> ActionText(p[i].action) && IsWord(p[i].target)
    ensures Transitions(FlatSteps(p, n) + rest) == Pairs(p[..n]) + Transitions(rest)
    decreases n, 1
  {
    if n == 0 {
      TransitionsFlatNone(p, rest);
    } else {
      TransitionsFlatNext(p, n, rest);
    }
  }

  lemma TransitionsFlatNone(p: seq<Edge>, rest: string)
    ensures Transitions(FlatSteps(p, 0) + rest) == Pairs(p[..0]) + Transitions(rest)
  {
    FlatStepsNone(p, rest);
    PairsNone(p);
  }

  lemma FlatStepsNone(p: seq<Edge>, rest: string)
    ensures FlatSteps(p, 0) + rest == rest
  {
    assert FlatSteps(p, 0) == "";
  }

  lemma PairsNone(p: seq<Edge>)
    ensures Pairs(p[..0]) == []
  {
  }

  lemma {:induction false} TransitionsFlatNext(p: seq<Edge>, n: nat, rest: string)
    requires 1 <= n <= |p|
    requires forall i :: 0 <= i < |p| ==> ActionText(p[i].action) && IsWord(p[i].target)
    ensures Transitions(FlatSteps(p, n) + rest) == Pairs(p[..n]) + Transitions(rest)
    decreases n, 0
  {
    TransitionsFlat(p, n - 1, Step(p[n - 1]) + rest);
    FlatStepsSnoc(p, n, rest);
    TransitionsStep(p[n - 1], rest);
    PairsSnoc(p, n, Transitions(rest));
  }

  lemma FlatStepsSnoc(p: seq<Edge>, n: nat, rest: string)
    requires 1 <= n <= |p|
    ensures FlatSteps(p, n) + rest == FlatSteps(p, n - 1) + (Step(p[n - 1]) + rest)
  {
  }

  lemma PairsSnoc(p: seq<Edge>, n: nat, after: seq<(string, NodeId)>)
    requires 1 <= n <= |p|
    ensures Pairs(p[..n - 1]) + ([(p[n - 1].action, p[n - 1].target)] + after) == Pairs(p[..n]) + after
  {
    assert p[..n][..n - 1] == p[..n - 1];
  }

  /** The one-line form of a readable path starts with its first state and
      holds its steps. */
  lemma OneLineParts(p: seq<Edge>)
    requires Readable(p)
    ensures StartState(OneLine(p)) == Some(p[0].source)
    ensures Transitions(OneLine(p)) == Pairs(p)
    ensures '(' in OneLine(p)
  {
    var src := p[0].source;
    var flat := FlatSteps(p, |p|);
    WordPlain(src);
    ParenthesizedWord(src, flat);
    TransitionsSkip("(" + src + ")", flat);
    TransitionsFlat(p, |p|, []);
    assert flat + [] == flat;
    assert p[..|p|] == p;
    assert OneLine(p)[0] == '(';
  }

  /** Parsing format_diff_path's text gives the path back. */
  lemma SegmentsOfFormat(p: seq<Edge>)
    requires Readable(p)
    ensures Tuples(Segments(FormatPath(p))) == p
  {
    FormatChain(p);
    TuplesChain(p);
  }

  /** The reader chains the steps of format_diff_path's text from its first
      state. */
  lemma FormatChain(p: seq<Edge>)
    requires Readable(p)
    ensures Segments(FormatPath(p)) == Chain(p[0].source, Pairs(p))
  {
    ReadableSingleLine(p);
    StripUnchanged(FormatPath(p));
    NormalizeFormat(p);
    OneLineParts(p);
  }

  /** The segments chained from a connected path's steps give the path back. */
  lemma TuplesChain(p: seq<Edge>)
    requires |p| > 0 && forall i :: 0 <= i < |p| - 1 ==> p[i].target == p[i + 1].source
    ensures Tuples(Chain(p[0].source, Pairs(p))) == p
  {
  }

  // ---------------------------------------------------------------------------
  // extract_path_elements

  datatype ElementType = State | Action

  /** A state or an action of a path; the reader never sets the tags. */
  datatype PathElement = PathElement(text: string, tag: Option<string>, tagType: Option<string>, elementType: ElementType)

  /** Each segment's action, then the state it reaches. */
  function Tail(segs: seq<PathSegment>): (els: seq<PathElement>)
    ensures |els| == 2 * |segs|
    ensures forall i :: 0 <= i < |segs| ==>
      els[2 * i] == PathElement(segs[i].action, None, None, Action)
      && els[2 * i + 1] == PathElement(segs[i].target, None, None, State)
  {
    if segs == [] then []
    else
      var front := segs[..|segs| - 1];
      var last := segs[|segs| - 1];
      var els := Tail(front) + [PathElement(last.action, None, None, Action), PathElement(last.target, None, None, State)];
      assert forall i :: 0 <= i < |front| ==> front[i] == segs[i];
      els
  }

  /** The start state, then each action and the state it reaches: states and
      actions alternate, starting and ending with a state. */
  function Elements(segs: seq<PathSegment>): (els: seq<PathElement>)
    ensures segs == [] ==> els == []
    ensures segs != [] ==> |els| == 2 * |segs| + 1 && els[0] == PathElement(segs[0].source, None, None, State)
    ensures segs != [] ==> forall i :: 0 <= i < |segs| ==>
      els[2 * i + 1] == PathElement(segs[i].action, None, None, Action)
      && els[2 * i + 2] == PathElement(segs[i].target, None, None, State)
  {
    if segs == [] then [] else [PathElement(segs[0].source, None, None, State)] + Tail(segs)
  }

  /** extract_path_elements */
  method ExtractPathElements(segments: seq<PathSegment>) returns (elements: seq<PathElement>)
    ensures elements == Elements(segments)
  {
    elements := [];
    if segments == [] {
      return;
    }
    elements := elements + [PathElement(segments[0].source, None, None, State)];
    for i := 0 to |segments|
      invariant elements == [PathElement(segments[0].source, None, None, State)] + Tail(segments[..i])
    {
      var seg := segments[i];
      assert segments[..i + 1][..i] == segments[..i];
      elements := elements + [PathElement(seg.action, None, None, Action)];
      elements := elements + [PathElement(seg.target, None, None, State)];
    }
    assert segments[..|segments|] == segments;
  }

  // ---------------------------------------------------------------------------
  // PriorityReportParser: stats, sections, skipped lists.

  /** `lit` followed by \d+ at the start of t: the number and where the match
      ends. */
  function NumberAfter(t: string, lit: string): (m: Option<(nat, nat)>)
    ensures m.Some? ==> |lit| < m.value.1 <= |t|
  {
    if lit <= t && Run(t[|lit|..], Digit) > 0 then
      var n := Run(t[|lit|..], Digit);
      var ds := t[|lit|..|lit| + n];
      assert forall j :: 0 <= j < n ==> ds[j] == t[|lit|..][j] && In(t[|lit|..][j], Digit);
      Some((DigitsValue(ds), |lit| + n))
    else None
  }

  /** A match of `P0=(\d+) \| P1=(\d+) \| P2=(\d+) \| P3=(\d+)` at the start
      of t. */
  function StatsAt(t: string): (r: Option<Stats>)
    ensures r.Some? ==> |t| >= 3 && t[0] == 'P' && t[1] == '0' && t[2] == '='
  {
    match NumberAfter(t, "P0=")
    case None => None
    case Some((p0, i)) => StatsFromP1(t[i..], p0)
  }

  /** The rest of the stats pattern once `P0=(\d+)` has matched. */
  function StatsFromP1(u: string, p0: nat): Option<Stats> {
    match NumberAfter(u, " | P1=")
    case None => None
    case Some((p1, j)) => StatsFromP2(u[j..], p0, p1)
  }

  function StatsFromP2(u: string, p0: nat, p1: nat): Option<Stats> {
    match NumberAfter(u, " | P2=")
    case None => None
    case Some((p2, k)) => StatsFromP3(u[k..], p0, p1, p2)
  }

  function StatsFromP3(u: string, p0: nat, p1: nat, p2: nat): Option<Stats> {
    match NumberAfter(u, " | P3=")
    case None => None
    case Some((p3, _)) => Some(Stats(p0, p1, p2, p3))
  }

  /** re.search of the stats pattern: the leftmost match. */
  function FindStats(t: string): Option<Stats>
    decreases |t|
  {
    if StatsAt(t).Some? then StatsAt(t) else if t == [] then None else FindStats(t[1..])
  }

  /** _parse_stats: the four counts of the header, or zeros. */
  function StatsOf(text: string): (st: Stats)
    ensures FindStats(text).None? ==> st == Stats(0, 0, 0, 0)
    ensures FindStats(text).Some? ==> st == FindStats(text).value
  {
    match FindStats(text)
    case Some(st) => st
    case None => Stats(0, 0, 0, 0)
  }

  /** The first occurrence of pat in t. */
  function Find(t: string, pat: string): (r: Option<nat>)
    ensures r.Some? ==> r.value + |pat| <= |t| && pat <= t[r.value..]
    decreases |t|
  {
    if pat <= t then Some(0)
    else if t == [] then None
    else match Find(t[1..], pat)
      case Some(k) => assert t[1..][k..] == t[k + 1..]; Some(k + 1)
      case None => None
  }

  /** The end of a match of `header.*?===` (dot matching newlines) at the start
      of t. */
  function SectionAt(t: string, header: string): (r: Option<nat>)
    ensures r.Some? ==> r.value <= |t|
  {
    if header <= t then
      match Find(t[|header|..], "===")
      case Some(k) => Some(|header| + k + 3)
      case None => None
    else None
  }

  /** re.search(header + '.*?===', text, re.DOTALL).end() */
  function SectionEnd(t: string, header: string): (r: Option<nat>)
    ensures r.Some? ==> r.value <= |t|
    decreases |t|
  {
    if SectionAt(t, header).Some? then SectionAt(t, header)
    else if t == [] then None
    else match SectionEnd(t[1..], header)
      case Some(e) => Some(e + 1)
      case None => None
  }

  /** The lookahead `(?=Pn\.\d+|===|$)` that ends a path's text. */
  predicate EntryStop(level: char, u: string) {
    u == [] || u == "\n" || "===" <= u || (|u| > 3 && u[..3] == ['P', level, '.'] && IsDigit(u[3]))
  }

  /** How far the lazy `(.*?)` reaches. */
  function Lazy(level: char, u: string): (n: nat)
    ensures n <= |u| && EntryStop(level, u[n..])
    ensures forall j :: 0 <= j < n ==> !EntryStop(level, u[j..])
    decreases |u|
  {
    if EntryStop(level, u) then 0
    else
      var n := 1 + Lazy(level, u[1..]);
      assert forall j :: 1 <= j <= |u| ==> u[1..][j - 1..] == u[j..];
      n
  }

  /** One path of a priority section: its declared index and length, its text,
      and where the match ends. */
  datatype Found = Found(index: nat, length: nat, body: string, end: nat)

  /** A match of `Pn\.(\d+) \(Length: (\d+)\):\s*(.*?)(?=Pn\.\d+|===|$)` at
      the start of t. */
  function EntryAt(level: char, t: string): (m: Option<Found>)
    ensures m.Some? ==> 0 < m.value.end <= |t|
  {
    match NumberAfter(t, ['P', level, '.'])
    case None => None
    case Some((index, i)) =>
      match NumberAfter(t[i..], " (Length: ")
      case None => None
      case Some((length, j)) =>
        var k := i + j;
        if !("):" <= t[k..]) then None
        else
          var b := k + 2 + Run(t[k + 2..], Space);
          var e := b + Lazy(level, t[b..]);
          Some(Found(index, length, t[b..e], e))
  }

  /** re.finditer of the path pattern. */
  function EntryScan(level: char, t: string): seq<Found>
    decreases |t|
  {
    if t == [] then []
    else match EntryAt(level, t)
      case Some(f) => [f] + EntryScan(level, t[f.end..])
      case None => EntryScan(level, t[1..])
  }

  /** A path of a priority section: the index and length are the ones the
      text declares, the tuples mirror the segments, the signature is empty. */
  datatype PriorityPath = PriorityPath(priorityLevel: string, pathIndex: nat, segments: seq<PathSegment>,
                                       length: nat, rawTuples: seq<Edge>, signature: seq<NodeId>)

  /** The path a match becomes: its text's segments, the tuples they mirror,
      and the index and length the text declares. */
  function ToPath(level: char, f: Found): (p: PriorityPath)
    ensures p.priorityLevel == ['P', level] && p.pathIndex == f.index && p.length == f.length
    ensures p.segments == Segments(Strip(f.body)) && p.rawTuples == Tuples(p.segments) && p.signature == []
  {
    var segs := Segments(Strip(f.body));
    PriorityPath(['P', level], f.index, segs, f.length, Tuples(segs), [])
  }

  /** One path per match, in order. */
  function ToPaths(level: char, fs: seq<Found>): (ps: seq<PriorityPath>)
    ensures |ps| == |fs|
  {
    seq(|fs|, i requires 0 <= i < |fs| => ToPath(level, fs[i]))
  }

  /** _parse_priority_section: the paths after the first match of the header,
      each with the index and length its text declares. */
  function PrioritySection(text: string, level: char, header: string): (paths: seq<PriorityPath>)
    ensures SectionEnd(text, header).None? ==> paths == []
    ensures SectionEnd(text, header).Some? ==> paths == ToPaths(level, EntryScan(level, text[SectionEnd(text, header).value..]))
  {
    match SectionEnd(text, header)
    case None => []
    case Some(e) => ToPaths(level, EntryScan(level, text[e..]))
  }

  /** Each path of a section is one entry after the header, in order, with
      the index and length the entry declares, the segments of its text, raw
      tuples mirroring those segments and an empty signature. */
  lemma SectionPathAt(text: string, level: char, header: string, i: nat)
    requires i < |PrioritySection(text, level, header)|
    ensures SectionEnd(text, header).Some?
    ensures var fs := EntryScan(level, text[SectionEnd(text, header).value..]);
      var p := PrioritySection(text, level, header)[i];
      i < |fs| && p.priorityLevel == ['P', level] && p.pathIndex == fs[i].index && p.length == fs[i].length
      && p.segments == Segments(Strip(fs[i].body)) && p.rawTuples == Tuples(p.segments) && p.signature == []
  {
  }

  datatype PriorityPathCollection = PriorityPathCollection(
    p0Paths: seq<PriorityPath>, p1Paths: seq<PriorityPath>, p2Paths: seq<PriorityPath>, p3Paths: seq<PriorityPath>,
    skippedEdges: seq<Edge>, skippedLoops: seq<Edge>, stats: Stats)

  /** _parse_skipped: finds the warning, but reads no list out of it. */
  function SkippedOf(text: string): (r: (seq<Edge>, seq<Edge>))
    ensures r.0 == [] && r.1 == []
  {
    match Find(text, "WARNING: SKIPPED LOGIC")
    case None => ([], [])
    case Some(_) => ([], [])
  }

  /** PriorityReportParser.parse on the text of a report. */
  function Collection(text: string): PriorityPathCollection {
    var (edges, loops) := SkippedOf(text);
    PriorityPathCollection(
      PrioritySection(text, '0', P0Header), PrioritySection(text, '1', P1Header),
      PrioritySection(text, '2', P2Header), PrioritySection(text, '3', P3Header),
      edges, loops, StatsOf(text))
  }

  /** PriorityReportParser; the file read becomes the text argument. */
  class PriorityReportParser {
    var reportText: string

    constructor ()
      ensures reportText == ""
    {
      reportText := "";
    }

    /** _parse_stats */
    function ParseStats(): (st: Stats)
      reads this
      ensures st == StatsOf(reportText)
      ensures FindStats(reportText).None? ==> st == Stats(0, 0, 0, 0)
    {
      StatsOf(reportText)
    }

    /** _parse_skipped */
    function ParseSkipped(): (r: (seq<Edge>, seq<Edge>))
      reads this
      ensures r == ([], [])
    {
      SkippedOf(reportText)
    }

    /** _parse_priority_section: one path per match after the section title. */
    method ParsePrioritySection(level: char, header: string) returns (paths: seq<PriorityPath>)
      ensures paths == PrioritySection(reportText, level, header)
    {
      paths := [];
      var sectionMatch := SectionEnd(reportText, header);
      if sectionMatch.None? {
        return;
      }
      var sectionText := reportText[sectionMatch.value..];
      var pathMatches := EntryScan(level, sectionText);
      for i := 0 to |pathMatches|
        invariant paths == ToPaths(level, pathMatches)[..i]
      {
        var m := pathMatches[i];
        TakeSnoc(ToPaths(level, pathMatches), i);
        var pathText := Strip(m.body);
        var segments := ParsePathSegments(pathText);
        var rawTuples := Tuples(segments);
        paths := paths + [PriorityPath(['P', level], m.index, segments, m.length, rawTuples, [])];
      }
      assert ToPaths(level, pathMatches)[..|pathMatches|] == ToPaths(level, pathMatches);
    }

    method Parse(text: string) returns (c: PriorityPathCollection)
      modifies this
      ensures reportText == text
      ensures c == Collection(text)
    {
      reportText := text;
      var stats := ParseStats();
      var p0Paths := ParsePrioritySection('0', P0Header);
      var p1Paths := ParsePrioritySection('1', P1Header);
      var p2Paths := ParsePrioritySection('2', P2Header);
      var p3Paths := ParsePrioritySection('3', P3Header);
      var (skippedEdges, skippedLoops) := ParseSkipped();
      c := PriorityPathCollection(p0Paths, p1Paths, p2Paths, p3Paths, skippedEdges, skippedLoops, stats);
    }
  }
}
