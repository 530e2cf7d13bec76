/** Edge ingestion (script_3_ana.py, parse_dot_file): each line of the DOT
    text is searched for `SOURCE -> TARGET` with an optional `label=...`. */
module Ingest {
  import opened Common
  import opened Text
  import opened Graph

  /** The action given to an edge whose line has no label. */
  const DefaultAction := "AUTO_PROCEED"

  /** `label="?([^"\]]+)"?` tried at position p of the text after the target. */
  function LabelAt(tail: string, p: nat): (r: Option<string>)
    requires p <= |tail|
    ensures r.Some? ==> |r.value| > 0 && forall i :: 0 <= i < |r.value| ==> In(r.value[i], LabelText)
  {
    if !("label=" <= tail[p..]) then None
    else
      var q := p + 6;
      var start := if q < |tail| && tail[q] == '"' then q + 1 else q;
      var captured := Span(tail[start..], LabelText);
      if captured == [] then None else Some(captured)
  }

  /** The greedy `.*` before `label=`: the last position, at or before p, where
      the label part matches. */
  function LastLabel(tail: string, p: nat): (r: Option<string>)
    requires p <= |tail|
    ensures r.Some? ==> |r.value| > 0 && forall i :: 0 <= i < |r.value| ==> In(r.value[i], LabelText)
  {
    match LabelAt(tail, p)
    case Some(l) => Some(l)
    case None => if p == 0 then None else LastLabel(tail, p - 1)
  }

  /** The action the label part `(?:.*label="?([^"\]]+)"?)?` gives for the
      text after the target: the captured label, or AUTO_PROCEED. */
  function ActionOf(tail: string): (a: string)
    ensures a != []
    ensures a == DefaultAction || forall i :: 0 <= i < |a| ==> In(a[i], LabelText)
  {
    var found := LastLabel(tail, Run(tail, NotNewline));
    if found.Some? then found.value else DefaultAction
  }

  /** `\s*->\s*(\w+)` at the start of r: the target and the text after it. */
  function ArrowTarget(r: string): (m: Option<(NodeId, string)>)
    ensures m.Some? ==> IsWord(m.value.0) && Contains(r, "->")
  {
    var r2 := TrimStart(r);
    if !("->" <= r2) then None
    else
      var r4 := TrimStart(r2[2..]);
      var w2 := Run(r4, Word);
      if w2 == 0 then None
      else
        ArrowInside(r);
        WordRun(r4);
        Some((r4[..w2], r4[w2..]))
  }

  lemma ArrowInside(r: string)
    requires "->" <= TrimStart(r)
    ensures Contains(r, "->")
  {
    var n := Run(r, Space);
    assert r[n..n + 2] == TrimStart(r)[..2];
    ContainsAt(r, "->", n);
  }

  /** The edge pattern anchored at the start of s. \w+ and \s* are greedy and
      each is followed by a character outside its class, so only the longest
      runs can lead to a match; the label group is optional, so once the
      target is read the match succeeds. */
  function MatchAt(s: string): (r: Option<Edge>)
    ensures r.Some? ==> IsWord(r.value.source) && IsWord(r.value.target) && r.value.action != ""
    ensures r.Some? ==> r.value.action == DefaultAction
                        || forall i :: 0 <= i < |r.value.action| ==> In(r.value.action[i], LabelText)
    ensures r.Some? ==> Contains(s, "->")
  {
    var w := Run(s, Word);
    if w == 0 then None
    else
      match ArrowTarget(s[w..])
      case None => None
      case Some((tgt, rest)) =>
        ContainsInDrop(s, w, "->");
        WordRun(s);
        Some(Edge(s[..w], tgt, ActionOf(rest)))
  }

  lemma MatchAtNonWord(s: string)
    requires s != [] && !IsWordChar(s[0])
    ensures MatchAt(s).None?
  {
    assert Run(s, Word) == 0;
  }

  /** One line of parse_dot_file: `edge_pattern.search(line)`, the label or
      AUTO_PROCEED when the label group did not match. */
  function ExtractEdge(line: string): (r: Option<Edge>)
    ensures r.Some? ==> IsWord(r.value.source) && IsWord(r.value.target) && r.value.action != ""
    ensures r.Some? ==> r.value.action == DefaultAction
                        || forall i :: 0 <= i < |r.value.action| ==> In(r.value.action[i], LabelText)
    ensures r.Some? ==> Contains(line, "->")
  {
    if line == [] then None
    else
      match MatchAt(line)
      case Some(e) => Some(e)
      case None =>
        var r := ExtractEdge(line[1..]);
        assert [line[0]] + line[1..] == line;
        if r.Some? then ContainsInSuffix([line[0]], line[1..], "->"); r else r
  }

  /** The edges of all lines that match, in line order. */
  function ExtractAll(lines: seq<string>): (edges: seq<Edge>)
    ensures |edges| <= |lines|
    ensures forall e :: e in edges ==> IsWord(e.source) && IsWord(e.target) && e.action != ""
    ensures forall e :: e in edges ==>
      e.action == DefaultAction || forall i :: 0 <= i < |e.action| ==> In(e.action[i], LabelText)
  {
    if lines == [] then []
    else
      var init := ExtractAll(lines[..|lines| - 1]);
      match ExtractEdge(lines[|lines| - 1])
      case Some(e) => init + [e]
      case None => init
  }

  /** The states and actions read from DOT lines hold no `]`: states are
      words, and a label stops before the first `]`. */
  lemma ExtractedBracketless(lines: seq<string>)
    ensures forall e :: e in ExtractAll(lines) ==> ']' !in e.source && ']' !in e.target && ']' !in e.action
  {
    forall e | e in ExtractAll(lines)
      ensures ']' !in e.source && ']' !in e.target && ']' !in e.action
    {
      EdgeBracketless(e);
    }
  }

  lemma EdgeBracketless(e: Edge)
    requires IsWord(e.source) && IsWord(e.target)
    requires e.action == DefaultAction || forall i :: 0 <= i < |e.action| ==> In(e.action[i], LabelText)
    ensures ']' !in e.source && ']' !in e.target && ']' !in e.action
  {
    assert forall k :: 0 <= k < |e.source| ==> e.source[k] != ']';
    assert forall k :: 0 <= k < |e.target| ==> e.target[k] != ']';
    if e.action == DefaultAction {
      assert forall k :: 0 <= k < |DefaultAction| ==> DefaultAction[k] != ']';
    } else {
      assert forall k :: 0 <= k < |e.action| ==> e.action[k] != ']';
    }
  }

  /** parse_dot_file without the file: the per-line loop appending matches. */
  method ParseDotLines(lines: seq<string>) returns (edges: seq<Edge>)
    ensures edges == ExtractAll(lines)
  {
    edges := [];
    var i := 0;
    while i < |lines|
      invariant 0 <= i <= |lines|
      invariant edges == ExtractAll(lines[..i])
    {
      assert lines[..i + 1][..i] == lines[..i];
      var m := ExtractEdge(lines[i]);
      if m.Some? {
        edges := edges + [m.value];
      }
      i := i + 1;
    }
    assert lines[..|lines|] == lines;
  }

  // ---------------------------------------------------------------------
  // The DOT lines that the graph writer produces read back as their edges.

  /** A label the extraction can give back unchanged: non-empty, no quote or
      closing bracket (they end the capture), no '=' (a later `label=` would
      win the greedy search). */
  predicate PlainLabel(a: string) {
    |a| > 0 && forall i :: 0 <= i < |a| ==> In(a[i], LabelText) && a[i] != '='
  }

  /** ` -> TARGET<rest>` */
  function ArrowPart(tgt: NodeId, rest: string): string {
    " -> " + tgt + rest
  }

  /** ` [label="ACTION"];` */
  function LabelPart(a: string): string {
    " [label=\"" + a + "\"];"
  }

  /** `SOURCE -> TARGET [label="ACTION"];` */
  function DotLine(e: Edge): string {
    e.source + ArrowPart(e.target, LabelPart(e.action))
  }

  /** `SOURCE -> TARGET;` */
  function BareDotLine(src: NodeId, tgt: NodeId): string {
    src + ArrowPart(tgt, ";")
  }

  /** Without '=' five characters on, `label=` cannot start at p. */
  lemma LastLabelStep(tail: string, p: nat)
    requires 0 < p <= |tail| && (p + 5 < |tail| ==> tail[p + 5] != '=')
    ensures LastLabel(tail, p) == LastLabel(tail, p - 1)
  {
    assert LabelAt(tail, p).None? by {
      if p + 6 <= |tail| {
        assert tail[p..][5] == tail[p + 5];
      }
    }
  }

  /** The backward search passes over every position whose `label=` would
      need an '=' where the text has none. */
  lemma {:induction false} LastLabelSkips(tail: string, p: nat, p0: nat)
    requires p0 <= p <= |tail|
    requires forall j :: p0 + 5 < j < |tail| ==> tail[j] != '='
    ensures LastLabel(tail, p) == LastLabel(tail, p0)
    decreases p
  {
    if p > p0 {
      LastLabelStep(tail, p);
      LastLabelSkips(tail, p - 1, p0);
    }
  }

  lemma {:induction false} SkipIndent(indent: string, line: string)
    requires forall i :: 0 <= i < |indent| ==> indent[i] == ' '
    ensures ExtractEdge(indent + line) == ExtractEdge(line)
  {
    if indent != [] {
      var s := indent + line;
      assert s[0] == ' ';
      MatchAtNonWord(s);
      assert s[1..] == indent[1..] + line;
      SkipIndent(indent[1..], line);
    } else {
      assert indent + line == line;
    }
  }

  /** The only '=' of a label part is the one of `label=`. */
  lemma LabelPartEquals(a: string)
    requires PlainLabel(a)
    ensures forall j :: 7 < j < |LabelPart(a)| ==> LabelPart(a)[j] != '='
  {
    var tail := LabelPart(a);
    forall j | 7 < j < |tail| ensures tail[j] != '=' {
      if 9 <= j < 9 + |a| {
        assert tail[j] == a[j - 9];
      }
    }
  }

  /** A label part's first line reaches past its opening quote. */
  lemma LabelPartLine(a: string)
    requires PlainLabel(a)
    ensures Run(LabelPart(a), NotNewline) >= 9
  {
    var tail := LabelPart(a);
    assert tail[..9] == " [label=\"";
  }

  /** `label=` at position 2 of a label part captures the label. */
  lemma LabelPartCapture(a: string)
    requires PlainLabel(a)
    ensures LabelAt(LabelPart(a), 2) == Some(a)
  {
    var tail := LabelPart(a);
    assert tail[2..][..6] == "label=";
    assert tail[8] == '"';
    assert tail[9..] == a + "\"];";
    RunOfPrefix(a, "\"];", LabelText);
  }

  /** Everything after the target in a labelled line yields exactly the label. */
  lemma ActionOfLabel(a: string)
    requires PlainLabel(a)
    ensures ActionOf(LabelPart(a)) == a
  {
    var tail := LabelPart(a);
    LabelPartEquals(a);
    LabelPartLine(a);
    LastLabelSkips(tail, Run(tail, NotNewline), 2);
    LabelPartCapture(a);
  }

  lemma ActionOfBare()
    ensures ActionOf(";") == DefaultAction
  {
    assert Run(";", NotNewline) == 1;
    assert LabelAt(";", 1).None? && LabelAt(";", 0).None?;
  }

  lemma ArrowTargetOf(tgt: NodeId, rest: string)
    requires IsWord(tgt) && (rest == [] || !IsWordChar(rest[0]))
    ensures ArrowTarget(ArrowPart(tgt, rest)) == Some((tgt, rest))
  {
    var r1 := ArrowPart(tgt, rest);
    var r2 := "-> " + tgt + rest;
    var r3 := " " + tgt + rest;
    var r4 := tgt + rest;
    assert r1 == " " + r2;
    RunOfPrefix(" ", r2, Space);
    assert TrimStart(r1) == r2;
    assert r2[2..] == r3;
    assert r3 == " " + r4;
    RunOfPrefix(" ", r4, Space);
    assert TrimStart(r3) == r4;
    RunOfPrefix(tgt, rest, Word);
    assert r4[..|tgt|] == tgt;
    assert r4[|tgt|..] == rest;
  }

  /** The source, arrow and target of `SOURCE -> TARGET<rest>`, where rest does
      not start with a word character. */
  lemma MatchArrow(src: NodeId, tgt: NodeId, rest: string)
    requires IsWord(src) && IsWord(tgt) && (rest == [] || !IsWordChar(rest[0]))
    ensures MatchAt(src + ArrowPart(tgt, rest)) == Some(Edge(src, tgt, ActionOf(rest)))
  {
    var r1 := ArrowPart(tgt, rest);
    var s := src + r1;
    RunOfPrefix(src, r1, Word);
    assert s[..|src|] == src && s[|src|..] == r1;
    ArrowTargetOf(tgt, rest);
  }

  lemma ExtractFound(line: string)
    requires MatchAt(line).Some?
    ensures ExtractEdge(line) == MatchAt(line)
  {
  }

  /** A labelled DOT line gives back its edge. */
  lemma ExtractDotLine(e: Edge)
    requires IsWord(e.source) && IsWord(e.target) && PlainLabel(e.action)
    ensures ExtractEdge(DotLine(e)) == Some(e)
  {
    MatchArrow(e.source, e.target, LabelPart(e.action));
    ActionOfLabel(e.action);
    ExtractFound(DotLine(e));
  }

  /** Indentation before the edge changes nothing. */
  lemma ExtractIndentedDotLine(indent: string, e: Edge)
    requires forall i :: 0 <= i < |indent| ==> indent[i] == ' '
    requires IsWord(e.source) && IsWord(e.target) && PlainLabel(e.action)
    ensures ExtractEdge(indent + DotLine(e)) == Some(e)
  {
    SkipIndent(indent, DotLine(e));
    ExtractDotLine(e);
  }

  /** An unlabelled DOT line gives the default action. */
  lemma ExtractBareDotLine(src: NodeId, tgt: NodeId)
    requires IsWord(src) && IsWord(tgt)
    ensures ExtractEdge(BareDotLine(src, tgt)) == Some(Edge(src, tgt, DefaultAction))
  {
    var line := BareDotLine(src, tgt);
    MatchArrow(src, tgt, ";");
    ActionOfBare();
    ExtractFound(line);
  }

  function DotLines(g: seq<Edge>): seq<string> {
    if g == [] then [] else DotLines(g[..|g| - 1]) + [DotLine(g[|g| - 1])]
  }

  /** Reading the DOT lines of a graph gives back the graph's edge list. */
  lemma {:induction false} ExtractAllDotLines(g: seq<Edge>)
    requires forall e :: e in g ==> IsWord(e.source) && IsWord(e.target) && PlainLabel(e.action)
    ensures ExtractAll(DotLines(g)) == g
  {
    if g != [] {
      var init, last := g[..|g| - 1], g[|g| - 1];
      assert g == init + [last];
      var lines := DotLines(g);
      assert lines == DotLines(init) + [DotLine(last)];
      assert lines[..|lines| - 1] == DotLines(init);
      ExtractAllDotLines(init);
      ExtractDotLine(last);
    }
  }
}
