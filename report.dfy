/** The text report: format_diff_path and the writer at the end of
    generate_path_analysis. */
module Report {
  import Common
  import opened Text
  import opened Graph
  import opened Cluster
  import opened Prioritize

  const StepsPerLine: nat := 3

  /** What format_diff_path writes after every third step that is not the
      last one: a newline and eight spaces. */
  const LineBreak: string := "\n        "

  /** ` --[ACTION]--> (TARGET)` */
  function Step(e: Edge): string {
    " --[" + e.action + "]--> (" + e.target + ")"
  }

  function Break(n: nat, len: nat): string {
    if n % StepsPerLine == 0 && n < len then LineBreak else ""
  }

  /** The first n steps of p as format_diff_path writes them. */
  function Steps(p: seq<Edge>, n: nat): string
    requires n <= |p|
  {
    if n == 0 then "" else Steps(p, n - 1) + Step(p[n - 1]) + Break(n, |p|)
  }

  /** `(START)` and then every step, broken into lines of three steps.
      What the text holds is proved by Report.FormatWithoutBreaks (without
      its breaks it is the one-line form) and Parser.SegmentsOfFormat (the
      report reader parses it back into the path). */
  function FormatPath(p: seq<Edge>): (s: string)
    requires |p| > 0
    ensures |s| > 2 && s[0] == '(' && s[|s| - 1] == ')'
  {
    var s := "(" + p[0].source + ")" + Steps(p, |p|);
    assert Steps(p, |p|) == Steps(p, |p| - 1) + Step(p[|p| - 1]);
    s
  }

  /** format_diff_path; its second parameter is ignored by the source and is
      not modelled. */
  method FormatDiffPath(p1Tuples: seq<Edge>) returns (pathStr: string)
    requires |p1Tuples| > 0
    ensures pathStr == FormatPath(p1Tuples)
  {
    pathStr := "(" + p1Tuples[0].source + ")";
    ghost var head := pathStr;
    for i := 0 to |p1Tuples|
      invariant pathStr == head + Steps(p1Tuples, i)
    {
      var e := p1Tuples[i];
      var step := " --[" + e.action + "]--> (" + e.target + ")";
      if (i + 1) % StepsPerLine == 0 && i + 1 < |p1Tuples| {
        step := step + "\n        ";
      }
      assert step == Step(e) + Break(i + 1, |p1Tuples|);
      StepsNext(p1Tuples, i, head);
      pathStr := pathStr + step;
    }
  }

  lemma StepsNext(p: seq<Edge>, i: nat, head: string)
    requires i < |p|
    ensures head + Steps(p, i + 1) == (head + Steps(p, i)) + (Step(p[i]) + Break(i + 1, |p|))
  {
    var s, st, br := Steps(p, i), Step(p[i]), Break(i + 1, |p|);
    assert Steps(p, i + 1) == s + st + br;
    Common.AppendAssoc(s, st, br);
    Common.AppendAssoc(head, s, st + br);
  }

  /** The first n steps on one line. */
  function FlatSteps(p: seq<Edge>, n: nat): string
    requires n <= |p|
  {
    if n == 0 then "" else FlatSteps(p, n - 1) + Step(p[n - 1])
  }

  /** The path on one line: what the results view shows and what the report
      reader sees once it has joined the lines. */
  function OneLine(p: seq<Edge>): (s: string)
    ensures s == [] <==> p == []
  {
    if p == [] then "" else "(" + p[0].source + ")" + FlatSteps(p, |p|)
  }

  /** s.replace(LineBreak, "") */
  function DropBreaks(s: string): (r: string)
    ensures |r| <= |s|
    decreases |s|
  {
    if s == [] then []
    else if LineBreak <= s then DropBreaks(s[|LineBreak|..])
    else [s[0]] + DropBreaks(s[1..])
  }

  predicate NoNewline(s: string) {
    forall k :: 0 <= k < |s| ==> s[k] != '\n'
  }

  /** Every node name and action of p stays on one line. */
  predicate SingleLine(p: seq<Edge>) {
    forall i :: 0 <= i < |p| ==> NoNewline(p[i].source) && NoNewline(p[i].target) && NoNewline(p[i].action)
  }

  lemma StepNoNewline(e: Edge)
    requires NoNewline(e.action) && NoNewline(e.target)
    ensures NoNewline(Step(e))
  {
  }

  lemma {:induction false} DropBreaksKeeps(s: string)
    requires NoNewline(s)
    ensures DropBreaks(s) == s
    decreases |s|
  {
    if s != [] {
      assert !(LineBreak <= s) by { assert s[0] != LineBreak[0]; }
      DropBreaksKeeps(s[1..]);
    }
  }

  /** A break at the start of x + y lies within x when x ends in a character
      that is not white space. */
  lemma BreakWithin(x: string, y: string)
    requires x != [] && !IsSpace(x[|x| - 1]) && LineBreak <= x + y
    ensures |LineBreak| < |x| && LineBreak <= x
  {
    BreakSpaces(x + y);
    assert (x + y)[|x| - 1] == x[|x| - 1];
    assert x[..|LineBreak|] == (x + y)[..|LineBreak|];
  }

  /** A break is white space throughout. */
  lemma BreakSpaces(s: string)
    requires LineBreak <= s
    ensures forall k :: 0 <= k < |LineBreak| ==> IsSpace(s[k])
  {
    assert forall k :: 0 <= k < |LineBreak| ==> s[k] == LineBreak[k];
  }

  /** A break found in x is found in x + y. */
  lemma BreakExtends(x: string, y: string)
    requires LineBreak <= x
    ensures LineBreak <= x + y
  {
    assert (x + y)[..|LineBreak|] == x[..|LineBreak|];
  }

  /** Breaks never straddle a boundary after a character that is not white
      space, so dropping them works piece by piece. */
  lemma {:induction false} DropBreaksAppend(x: string, y: string)
    requires x == [] || !IsSpace(x[|x| - 1])
    ensures DropBreaks(x + y) == DropBreaks(x) + DropBreaks(y)
    decreases |x|
  {
    if x == [] {
      assert x + y == y;
    } else if LineBreak <= x + y {
      BreakWithin(x, y);
      var rest := x[|LineBreak|..];
      assert (x + y)[|LineBreak|..] == rest + y;
      DropBreaksAppend(rest, y);
    } else {
      if LineBreak <= x {
        BreakExtends(x, y);
      }
      assert (x + y)[1..] == x[1..] + y;
      DropBreaksAppend(x[1..], y);
    }
  }

  lemma {:induction false} FlatStepsNoNewline(p: seq<Edge>, n: nat)
    requires n <= |p| && SingleLine(p)
    ensures NoNewline(FlatSteps(p, n))
  {
    if n > 0 {
      FlatStepsNoNewline(p, n - 1);
      StepNoNewline(p[n - 1]);
    }
  }

  /** A leading break is dropped. */
  lemma DropBreaksLead(s: string)
    ensures DropBreaks(LineBreak + s) == DropBreaks(s)
  {
    assert LineBreak <= LineBreak + s;
    assert (LineBreak + s)[|LineBreak|..] == s;
  }

  /** Steps, and what ends with a step, end in a closing parenthesis. */
  lemma EndsWithStep(x: string, e: Edge)
    ensures var s := x + Step(e); |s| > 0 && s[|s| - 1] == ')'
  {
  }

  /** Text that ends in a character other than white space, then a break or
      nothing, then a line: dropping the breaks keeps the line whole. */
  lemma DropBreaksJoin(x: string, b: string, last: string)
    requires x != [] && !IsSpace(x[|x| - 1]) && (b == LineBreak || b == "") && NoNewline(last)
    ensures DropBreaks(x + b + last) == DropBreaks(x) + last
  {
    Common.AppendAssoc(x, b, last);
    DropBreaksAppend(x, b + last);
    DropBreaksKeeps(last);
    if b == LineBreak {
      DropBreaksLead(last);
    } else {
      assert b + last == last;
    }
  }

  /** The steps up to the n-th, without the break after it, lose their breaks
      and become the one-line steps. */
  lemma {:induction false} DropBreaksSteps(p: seq<Edge>, n: nat)
    requires 1 <= n <= |p| && SingleLine(p)
    ensures DropBreaks(Steps(p, n - 1) + Step(p[n - 1])) == FlatSteps(p, n)
  {
    var last := Step(p[n - 1]);
    StepNoNewline(p[n - 1]);
    if n == 1 {
      DropBreaksKeeps(last);
      assert Steps(p, 0) + last == last;
    } else {
      DropBreaksSteps(p, n - 1);
      EndsWithStep(Steps(p, n - 2), p[n - 2]);
      DropBreaksJoin(Steps(p, n - 2) + Step(p[n - 2]), Break(n - 1, |p|), last);
    }
  }

  /** format_diff_path without its line breaks is the one-line form. */
  lemma FormatWithoutBreaks(p: seq<Edge>)
    requires |p| > 0 && SingleLine(p)
    ensures DropBreaks(FormatPath(p)) == OneLine(p)
  {
    var head := "(" + p[0].source + ")";
    var n := |p|;
    assert Steps(p, n) == Steps(p, n - 1) + Step(p[n - 1]);
    DropBreaksAppend(head, Steps(p, n));
    DropBreaksKeeps(head);
    DropBreaksSteps(p, n);
  }

  // ---------------------------------------------------------------------------
  // The report writer.

  /** The section headers: the reader looks for these and the writer puts
      them at the head of each section's title. */
  const P0Header := "=== [P0] GOLDEN PATHS"
  const P1Header := "=== [P1] REQUIRED VARIATIONS"
  const P2Header := "=== [P2] LOOP STRESS TESTS"
  const P3Header := "=== [P3] REDUNDANT PATHS"

  const P0Title := P0Header + " (Unique Archetypes) ===\n"
  const P1Title := P1Header + " (New Logic Discovery) ===\n"
  const P2Title := P2Header + " (Self-Loops) ===\n"
  const P3Title := P3Header + " (Archive) ===\n"

  /** What an empty P1 or P2 section says instead of its entries. These
      texts and the warning line are written in two pieces so that the
      proofs that they hold no `P3.` check each character on a short
      literal. */
  const P1Note := "No additional logic paths " + "found beyond P0.\n\n"
  const P2Note := "All loops covered by P0/P1 " + "or none exist.\n\n"

  const WarningLine := "WARNING: SKIPPED LOGIC " + "(Unreachable/Orphaned)\n"

  function Rule(c: char): string {
    Repeat(c, 80)
  }

  /** Every record has at least one edge, as format_diff_path needs. */
  predicate Showable(rs: seq<PathRecord>) {
    forall i :: 0 <= i < |rs| ==> |rs[i].raw| > 0
  }

  /** `P0=a | P1=b | P2=c | P3=d` */
  function Counts(st: Stats): string {
    "P0=" + Decimal(st.p0Count) + " | P1=" + Decimal(st.p1Count) + " | "
    + "P2=" + Decimal(st.p2Count) + " | P3=" + Decimal(st.p3Count)
  }

  /** The text before the counts. */
  function Title(rawCount: nat): string {
    "CLUSTERING REPORT (Prioritized)\n" + "Total Raw Paths: " + Decimal(rawCount) + "\n" + "Final Counts: "
  }

  /** `P1.3 (Length: 7):` and the formatted path. */
  function Entry(level: char, i: nat, r: PathRecord): string
    requires |r.raw| > 0
  {
    "P" + [level] + "." + Decimal(i) + " (Length: " + Decimal(r.length) + "):\n" + FormatPath(r.raw) + "\n\n"
  }

  /** The entries of rs, numbered from 1. */
  function EntryList(level: char, rs: seq<PathRecord>): string
    requires Showable(rs)
  {
    if rs == [] then "" else EntryList(level, rs[..|rs| - 1]) + Entry(level, |rs|, rs[|rs| - 1])
  }

  /** A titled section, the note when it has no entries, and the closing rule. */
  function Section(title: string, level: char, rs: seq<PathRecord>, note: string): string
    requires Showable(rs)
  {
    title + (if rs == [] then note else EntryList(level, rs)) + Rule('-') + "\n\n"
  }

  function Archive(b: Buckets): string {
    P3Title + "Total: " + Decimal(|b.finalP3|) + "\n"
  }

  /** The closing warning; `show` is str() of a skipped list, whose order is
      Python's set order. */
  function Warning(b: Buckets, show: set<Edge> -> string): string {
    if b.skippedEdges != {} || b.skippedLoops != {} then
      "\n" + Rule('=') + "\n" + WarningLine
      + (if b.skippedEdges != {} then "Skipped Edges: " + show(b.skippedEdges) + "\n" else "")
      + (if b.skippedLoops != {} then "Skipped Loops: " + show(b.skippedLoops) + "\n" else "")
    else ""
  }

  predicate Writable(b: Buckets) {
    Showable(b.finalP0) && Showable(b.finalP1) && Showable(b.finalP2)
  }

  function Body(b: Buckets): string
    requires Writable(b)
  {
    Section(P0Title, '0', b.finalP0, "")
    + Section(P1Title, '1', b.finalP1, P1Note)
    + Section(P2Title, '2', b.finalP2, P2Note)
  }

  /** The report's frame around its parts: the title and the counts line,
      the rule, the sections, the archive's total and the warning. It opens
      with the title and the counts, and ends with the archive when no
      warning follows. */
  function Assemble(title: string, counts: string, body: string, archive: string, warning: string): (r: string)
    ensures title + counts <= r
    ensures warning == [] ==> |archive| <= |r| && r[|r| - |archive|..] == archive
  {
    var rest := "\n" + Rule('=') + "\n\n" + body + archive + warning;
    assert title + (counts + rest) == (title + counts) + rest;
    assert warning == [] ==> title + (counts + rest) == (title + counts + "\n" + Rule('=') + "\n\n" + body) + archive;
    title + (counts + rest)
  }

  /** The whole report for rawCount enumerated paths and the prioritised
      buckets. */
  function ReportText(rawCount: nat, b: Buckets, show: set<Edge> -> string): string
    requires Writable(b)
  {
    Assemble(Title(rawCount), Counts(b.stats), Body(b), Archive(b), Warning(b, show))
  }
}
