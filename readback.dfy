/** What the priority report reader gets back from a report that
    generate_path_analysis wrote. */
module ReadBack {
  import opened Common
  import opened Text
  import opened Graph
  import opened Cluster
  import opened Prioritize
  import opened Report
  import opened Parser

  // ---------------------------------------------------------------------------
  // The header counts.

  /** A number written after a literal is read back whole. */
  lemma NumberAfterDecimal(lit: string, n: nat, rest: string)
    requires rest == [] || !IsDigit(rest[0])
    ensures NumberAfter(lit + Decimal(n) + rest, lit) == Some((n, |lit| + |Decimal(n)|))
  {
    var d := Decimal(n);
    var t := lit + d + rest;
    assert t[|lit|..] == d + rest;
    forall j | 0 <= j < |d| ensures In(d[j], Digit) {
    }
    RunOfPrefix(d, rest, Digit);
    assert t[|lit|..][..|d|] == d;
    DecimalRoundTrip(n);
  }

  lemma ReadP3(p0: nat, p1: nat, p2: nat, p3: nat, rest: string)
    requires rest == [] || !IsDigit(rest[0])
    ensures StatsFromP3(" | P3=" + Decimal(p3) + rest, p0, p1, p2) == Some(Stats(p0, p1, p2, p3))
  {
    NumberAfterDecimal(" | P3=", p3, rest);
  }

  lemma ReadP2(p0: nat, p1: nat, p2: nat, u3: string)
    requires u3 != [] && !IsDigit(u3[0])
    ensures StatsFromP2(" | P2=" + Decimal(p2) + u3, p0, p1) == StatsFromP3(u3, p0, p1, p2)
  {
    NumberAfterDecimal(" | P2=", p2, u3);
    assert (" | P2=" + Decimal(p2) + u3)[6 + |Decimal(p2)|..] == u3;
  }

  lemma ReadP1(p0: nat, p1: nat, u2: string)
    requires u2 != [] && !IsDigit(u2[0])
    ensures StatsFromP1(" | P1=" + Decimal(p1) + u2, p0) == StatsFromP2(u2, p0, p1)
  {
    NumberAfterDecimal(" | P1=", p1, u2);
    assert (" | P1=" + Decimal(p1) + u2)[6 + |Decimal(p1)|..] == u2;
  }

  lemma ReadP0(p0: nat, u1: string)
    requires u1 != [] && !IsDigit(u1[0])
    ensures StatsAt("P0=" + Decimal(p0) + u1) == StatsFromP1(u1, p0)
  {
    NumberAfterDecimal("P0=", p0, u1);
    assert ("P0=" + Decimal(p0) + u1)[3 + |Decimal(p0)|..] == u1;
  }

  /** The counts line is read back as the counts it shows. */
  lemma StatsAtCounts(st: Stats, rest: string)
    requires rest == [] || !IsDigit(rest[0])
    ensures StatsAt(Counts(st) + rest) == Some(st)
  {
    var u3 := " | P3=" + Decimal(st.p3Count) + rest;
    var u2 := " | P2=" + Decimal(st.p2Count) + u3;
    var u1 := " | P1=" + Decimal(st.p1Count) + u2;
    assert Counts(st) + rest == "P0=" + Decimal(st.p0Count) + u1;
    ReadP0(st.p0Count, u1);
    ReadP1(st.p0Count, st.p1Count, u2);
    ReadP2(st.p0Count, st.p1Count, st.p2Count, u3);
    ReadP3(st.p0Count, st.p1Count, st.p2Count, st.p3Count, rest);
  }

  /** Text without '=' whose last two characters are not 'P' holds no start
      of the stats pattern, even with more text after it. */
  lemma NoStatsStart(x: string, y: string)
    requires x != [] && forall j :: 0 <= j < |x| ==> x[j] != '='
    requires |x| >= 1 ==> x[|x| - 1] != 'P'
    requires |x| >= 2 ==> x[|x| - 2] != 'P'
    ensures StatsAt(x + y).None?
  {
    var t := x + y;
    assert t[0] == x[0];
    if |x| >= 3 {
      assert t[2] == x[2];
    }
  }

  lemma {:induction false} FindStatsSkip(x: string, y: string)
    requires forall j :: 0 <= j < |x| ==> x[j] != '='
    requires |x| >= 1 ==> x[|x| - 1] != 'P'
    requires |x| >= 2 ==> x[|x| - 2] != 'P'
    ensures FindStats(x + y) == FindStats(y)
    decreases |x|
  {
    if x == [] {
      assert x + y == y;
    } else {
      NoStatsStart(x, y);
      assert (x + y)[1..] == x[1..] + y;
      FindStatsSkip(x[1..], y);
    }
  }

  lemma TitleHeadPlain()
    ensures '=' !in "CLUSTERING REPORT (Prioritized)\n" && '.' !in "CLUSTERING REPORT (Prioritized)\n"
  {
  }

  lemma TitlePlain(rawCount: nat)
    ensures var t := Title(rawCount); forall j :: 0 <= j < |t| ==> t[j] != '=' && t[j] != '.'
    ensures var t := Title(rawCount); |t| >= 2 && t[|t| - 1] == ' ' && t[|t| - 2] == ':'
  {
    TitleHeadPlain();
    var d := Decimal(rawCount);
    assert forall j :: 0 <= j < |d| ==> d[j] != '=' && d[j] != '.';
    var t := Title(rawCount);
    assert '=' !in t && '.' !in t;
  }

  /** _parse_stats on a generated report gives the counts the report was
      written with. */
  lemma StatsRoundTrip(rawCount: nat, b: Buckets, show: set<Edge> -> string)
    requires Writable(b)
    ensures StatsOf(ReportText(rawCount, b, show)) == b.stats
  {
    var rest := "\n" + Rule('=') + "\n\n" + Body(b) + Archive(b) + Warning(b, show);
    TitlePlain(rawCount);
    FindStatsSkip(Title(rawCount), Counts(b.stats) + rest);
    StatsAtCounts(b.stats, rest);
  }

  // ---------------------------------------------------------------------------
  // The archived paths are never listed, so the P3 section reads as empty.

  /** No '.' right after a '3': no `P3.` can start anywhere in s. */
  predicate NoP3(s: string)
    decreases |s|
  {
    |s| < 2 || (!(s[0] == '3' && s[1] == '.') && NoP3(s[1..]))
  }

  lemma {:induction false} NoP3Plain(s: string)
    requires '.' !in s || '3' !in s
    ensures NoP3(s)
    decreases |s|
  {
    if |s| >= 2 {
      assert s[0] in s && s[1] in s;
      assert forall j :: 0 <= j < |s[1..]| ==> s[1..][j] == s[j + 1] && s[j + 1] in s;
      NoP3Plain(s[1..]);
    }
  }

  lemma {:induction false} NoP3Append(x: string, y: string)
    requires NoP3(x) && NoP3(y)
    requires x == [] || y == [] || x[|x| - 1] != '3' || y[0] != '.'
    ensures NoP3(x + y)
    decreases |x|
  {
    if x == [] {
      assert x + y == y;
    } else {
      assert (x + y)[1..] == x[1..] + y;
      NoP3Append(x[1..], y);
    }
  }

  lemma {:induction false} NoP3Drop(s: string, k: nat)
    requires NoP3(s) && k <= |s|
    ensures NoP3(s[k..])
    decreases k
  {
    if k > 0 {
      NoP3Drop(s[1..], k - 1);
      assert s[1..][k - 1..] == s[k..];
    }
  }

  /** A path whose names hold no '.' and whose actions hold no `3.`. */
  predicate Quiet(p: seq<Edge>) {
    forall i :: 0 <= i < |p| ==> '.' !in p[i].source && '.' !in p[i].target && NoP3(p[i].action)
  }

  predicate QuietRecords(rs: seq<PathRecord>) {
    forall i :: 0 <= i < |rs| ==> Quiet(rs[i].raw)
  }

  lemma DecimalNoDot(n: nat)
    ensures '.' !in Decimal(n) && Decimal(n)[0] != '.'
  {
    var d := Decimal(n);
    assert forall j :: 0 <= j < |d| ==> d[j] != '.';
  }

  lemma StepNoP3(e: Edge)
    requires '.' !in e.target && NoP3(e.action)
    ensures NoP3(Step(e))
  {
    NoP3Plain(" --[");
    NoP3Append(" --[", e.action);
    NoP3Plain("]--> (");
    NoP3Append(" --[" + e.action, "]--> (");
    NoP3Plain(e.target);
    NoP3Append(" --[" + e.action + "]--> (", e.target);
    NoP3Plain(")");
    NoP3Append(" --[" + e.action + "]--> (" + e.target, ")");
  }

  lemma {:induction false} StepsNoP3(p: seq<Edge>, n: nat)
    requires n <= |p| && Quiet(p)
    ensures NoP3(Steps(p, n))
  {
    if n > 0 {
      StepsNoP3(p, n - 1);
      StepNoP3(p[n - 1]);
      NoP3Append(Steps(p, n - 1), Step(p[n - 1]));
      NoP3Plain(Break(n, |p|));
      NoP3Append(Steps(p, n - 1) + Step(p[n - 1]), Break(n, |p|));
    }
  }

  lemma FormatNoP3(p: seq<Edge>)
    requires |p| > 0 && Quiet(p)
    ensures NoP3(FormatPath(p))
  {
    var head := "(" + p[0].source + ")";
    NoP3Plain(head);
    StepsNoP3(p, |p|);
    NoP3Append(head, Steps(p, |p|));
  }

  lemma EntryHeadNoP3(level: char, i: nat, n: nat)
    requires level != '3'
    ensures NoP3("P" + [level] + "." + Decimal(i) + " (Length: " + Decimal(n) + "):\n")
  {
    var x := "P" + [level] + ".";
    var y := Decimal(i) + " (Length: " + Decimal(n) + "):\n";
    DecimalNoDot(i);
    DecimalNoDot(n);
    NoP3Plain(x);
    NoP3Plain(y);
    NoP3Append(x, y);
    assert x + y == "P" + [level] + "." + Decimal(i) + " (Length: " + Decimal(n) + "):\n";
  }

  lemma EntryNoP3(level: char, i: nat, r: PathRecord)
    requires level != '3' && |r.raw| > 0 && Quiet(r.raw)
    ensures NoP3(Entry(level, i, r))
  {
    var head := "P" + [level] + "." + Decimal(i) + " (Length: " + Decimal(r.length) + "):\n";
    EntryHeadNoP3(level, i, r.length);
    FormatNoP3(r.raw);
    NoP3Append(head, FormatPath(r.raw));
    NoP3Plain("\n\n");
    NoP3Append(head + FormatPath(r.raw), "\n\n");
  }

  lemma {:induction false} EntryListNoP3(level: char, rs: seq<PathRecord>)
    requires level != '3' && Showable(rs) && QuietRecords(rs)
    ensures NoP3(EntryList(level, rs))
    ensures EntryList(level, rs) == [] || EntryList(level, rs)[0] == 'P'
  {
    if rs != [] {
      var front := rs[..|rs| - 1];
      assert Showable(front) && QuietRecords(front);
      EntryListNoP3(level, front);
      EntryNoP3(level, |rs|, rs[|rs| - 1]);
      NoP3Append(EntryList(level, front), Entry(level, |rs|, rs[|rs| - 1]));
    }
  }

  lemma RuleNoP3(c: char)
    requires c != '.'
    ensures NoP3(Rule(c)) && Rule(c)[0] == c
  {
    NoP3Plain(Rule(c));
  }

  lemma SectionNoP3(title: string, level: char, rs: seq<PathRecord>, note: string)
    requires level != '3' && Showable(rs) && QuietRecords(rs)
    requires NoP3(title) && NoP3(note) && (note == [] || note[0] != '.')
    ensures NoP3(Section(title, level, rs, note))
  {
    var mid := if rs == [] then note else EntryList(level, rs);
    EntryListNoP3(level, rs);
    NoP3Append(title, mid);
    SectionEndNoP3(title + mid);
  }

  /** The rule and blank line that close a section add no `3.`. */
  lemma SectionEndNoP3(x: string)
    requires NoP3(x)
    ensures NoP3(x + Rule('-') + "\n\n")
  {
    RuleNoP3('-');
    NoP3Append(x, Rule('-'));
    NoP3Plain("\n\n");
    NoP3Append(x + Rule('-'), "\n\n");
  }

  /** Two pieces of text without '.' hold no `3.` together. */
  lemma NoDotNoP3(x: string, y: string)
    requires '.' !in x && '.' !in y
    ensures NoP3(x + y)
  {
    NoP3Plain(x + y);
  }

  /** Two pieces of text without '3' hold no `3.` together. */
  lemma NoThreeNoP3(x: string, y: string)
    requires '3' !in x && '3' !in y
    ensures NoP3(x + y)
  {
    NoP3Plain(x + y);
  }

  lemma P0TitleNoP3()
    ensures NoP3(P0Title) && P0Title[0] == '='
  {
    NoDotNoP3(P0Header, " (Unique Archetypes) ===\n");
  }

  lemma P1TitleNoP3()
    ensures NoP3(P1Title)
  {
    NoDotNoP3(P1Header, " (New Logic Discovery) ===\n");
  }

  lemma P2TitleNoP3()
    ensures NoP3(P2Title)
  {
    NoDotNoP3(P2Header, " (Self-Loops) ===\n");
  }

  lemma P3TitleNoP3()
    ensures NoP3(P3Title) && '.' !in P3Title
  {
    NoDotNoP3(P3Header, " (Archive) ===\n");
  }

  lemma P1NoteNoP3()
    ensures NoP3(P1Note) && P1Note[0] == 'N'
  {
    NoThreeNoP3("No additional logic paths ", "found beyond P0.\n\n");
  }

  lemma P2NoteNoP3()
    ensures NoP3(P2Note) && P2Note[0] == 'A'
  {
    NoThreeNoP3("All loops covered by P0/P1 ", "or none exist.\n\n");
  }

  lemma WarningLineNoP3()
    ensures NoP3(WarningLine)
  {
    NoDotNoP3("WARNING: SKIPPED LOGIC ", "(Unreachable/Orphaned)\n");
  }

  lemma BodyNoP3(b: Buckets)
    requires Writable(b) && QuietRecords(b.finalP0) && QuietRecords(b.finalP1) && QuietRecords(b.finalP2)
    ensures NoP3(Body(b)) && Body(b)[0] == '='
  {
    P0TitleNoP3();
    P1TitleNoP3();
    P2TitleNoP3();
    P1NoteNoP3();
    P2NoteNoP3();
    NoP3Plain("");
    var s0 := Section(P0Title, '0', b.finalP0, "");
    var s1 := Section(P1Title, '1', b.finalP1, P1Note);
    var s2 := Section(P2Title, '2', b.finalP2, P2Note);
    SectionNoP3(P0Title, '0', b.finalP0, "");
    SectionNoP3(P1Title, '1', b.finalP1, P1Note);
    SectionNoP3(P2Title, '2', b.finalP2, P2Note);
    NoP3Append(s0, s1);
    NoP3Append(s0 + s1, s2);
  }

  lemma SkippedNoP3(name: string, shown: string, present: bool)
    requires '.' !in name && name != [] && name[|name| - 1] == ' ' && (present ==> NoP3(shown))
    ensures NoP3(if present then name + shown + "\n" else "")
  {
    NoP3Plain("");
    if present {
      NoP3Plain(name);
      NoP3Append(name, shown);
      NoP3Plain("\n");
      NoP3Append(name + shown, "\n");
    }
  }

  /** A rule of '=' between two newlines. */
  lemma RuleLineNoP3(tail: string)
    requires tail == "\n" || tail == "\n\n"
    ensures NoP3("\n" + Rule('=') + tail) && ("\n" + Rule('=') + tail)[0] == '\n'
  {
    NoP3Plain("\n" + Rule('=') + tail);
  }

  /** Each skipped set that the warning prints is shown without `3.`. */
  predicate QuietWarning(b: Buckets, show: set<Edge> -> string) {
    (b.skippedEdges != {} ==> NoP3(show(b.skippedEdges))) && (b.skippedLoops != {} ==> NoP3(show(b.skippedLoops)))
  }

  lemma WarningNoP3(b: Buckets, show: set<Edge> -> string)
    requires QuietWarning(b, show)
    ensures NoP3(Warning(b, show)) && (Warning(b, show) == [] || Warning(b, show)[0] == '\n')
  {
    var e := if b.skippedEdges != {} then "Skipped Edges: " + show(b.skippedEdges) + "\n" else "";
    var l := if b.skippedLoops != {} then "Skipped Loops: " + show(b.skippedLoops) + "\n" else "";
    SkippedNoP3("Skipped Edges: ", show(b.skippedEdges), b.skippedEdges != {});
    SkippedNoP3("Skipped Loops: ", show(b.skippedLoops), b.skippedLoops != {});
    var r := "\n" + Rule('=') + "\n";
    RuleLineNoP3("\n");
    WarningLineNoP3();
    NoP3Append(r, WarningLine);
    NoP3Append(r + WarningLine, e);
    NoP3Append(r + WarningLine + e, l);
    NoP3Plain("");
  }

  lemma ArchiveNoP3(b: Buckets)
    ensures NoP3(Archive(b)) && Archive(b)[0] == '='
  {
    P3TitleNoP3();
    DecimalNoDot(|b.finalP3|);
    NoP3Plain(Archive(b));
  }

  lemma HeaderNoP3(rawCount: nat, st: Stats)
    ensures NoP3(Title(rawCount) + Counts(st))
  {
    TitlePlain(rawCount);
    DecimalNoDot(st.p0Count);
    DecimalNoDot(st.p1Count);
    DecimalNoDot(st.p2Count);
    DecimalNoDot(st.p3Count);
    NoDotNoP3(Title(rawCount), Counts(st));
  }

  /** Everything after the counts line. */
  lemma RestNoP3(b: Buckets, show: set<Edge> -> string)
    requires Writable(b) && QuietRecords(b.finalP0) && QuietRecords(b.finalP1) && QuietRecords(b.finalP2)
    requires QuietWarning(b, show)
    ensures NoP3("\n" + Rule('=') + "\n\n" + Body(b) + Archive(b) + Warning(b, show))
  {
    var r := "\n" + Rule('=') + "\n\n";
    RuleLineNoP3("\n\n");
    BodyNoP3(b);
    NoP3Append(r, Body(b));
    ArchiveNoP3(b);
    NoP3Append(r + Body(b), Archive(b));
    WarningNoP3(b, show);
    NoP3Append(r + Body(b) + Archive(b), Warning(b, show));
  }

  lemma Associative(x: string, y: string, z: string)
    ensures x + (y + z) == x + y + z
  {
  }

  /** The report's text has no `P3.` anywhere. */
  lemma ReportNoP3(rawCount: nat, b: Buckets, show: set<Edge> -> string)
    requires Writable(b) && QuietRecords(b.finalP0) && QuietRecords(b.finalP1) && QuietRecords(b.finalP2)
    requires QuietWarning(b, show)
    ensures NoP3(ReportText(rawCount, b, show))
  {
    var head := Title(rawCount) + Counts(b.stats);
    var rest := "\n" + Rule('=') + "\n\n" + Body(b) + Archive(b) + Warning(b, show);
    HeaderNoP3(rawCount, b.stats);
    RestNoP3(b, show);
    TitlePlain(rawCount);
    NoP3Append(head, rest);
    Associative(Title(rawCount), Counts(b.stats), rest);
  }

  lemma {:induction false} EntryScanNoP3(t: string)
    requires NoP3(t)
    ensures EntryScan('3', t) == []
    decreases |t|
  {
    if t != [] {
      assert EntryAt('3', t).None?;
      EntryScanNoP3(t[1..]);
    }
  }

  /** Text without `P3.` has no P3 entries under any header. */
  lemma QuietSection(text: string, header: string)
    requires NoP3(text)
    ensures PrioritySection(text, '3', header) == []
  {
    match SectionEnd(text, header)
    case None =>
    case Some(e) =>
      NoP3Drop(text, e);
      EntryScanNoP3(text[e..]);
  }

  // ---------------------------------------------------------------------------
  // The reader finds the P3 header only where the archive begins. Its
  // `3] ` cannot occur before: the section titles write `0] `, `1] ` and
  // `2] `, and a path's `]` is followed by `-->`.

  /** No `3] ` anywhere in s. */
  predicate NoMark(s: string)
    decreases |s|
  {
    |s| < 3 || (!(s[0] == '3' && s[1] == ']' && s[2] == ' ') && NoMark(s[1..]))
  }

  lemma {:induction false} MarkPlain(s: string)
    requires ']' !in s || '3' !in s
    ensures NoMark(s)
    decreases |s|
  {
    if |s| >= 3 {
      assert s[0] in s && s[1] in s;
      assert forall j :: 0 <= j < |s[1..]| ==> s[1..][j] == s[j + 1] && s[j + 1] in s;
      MarkPlain(s[1..]);
    }
  }

  /** No `3] ` straddles the join of x and y. */
  predicate Joins(x: string, y: string) {
    x == [] || y == [] || ((x[|x| - 1] != ']' || y[0] != ' ') && (y[0] != ']' || |y| < 2 || y[1] != ' '))
  }

  lemma {:induction false} MarkAppend(x: string, y: string)
    requires NoMark(x) && NoMark(y) && Joins(x, y)
    ensures NoMark(x + y)
    decreases |x|
  {
    if x == [] {
      assert x + y == y;
    } else {
      assert (x + y)[1..] == x[1..] + y;
      MarkAppend(x[1..], y);
    }
  }

  lemma {:induction false} MarkDrop(s: string, k: nat)
    requires NoMark(s) && k <= |s|
    ensures NoMark(s[k..])
    decreases k
  {
    if k > 0 {
      MarkDrop(s[1..], k - 1);
      assert s[1..][k - 1..] == s[k..];
    }
  }

  /** The states and actions of p hold no `]`. */
  predicate Bracketless(p: seq<Edge>) {
    forall i :: 0 <= i < |p| ==> ']' !in p[i].source && ']' !in p[i].target && ']' !in p[i].action
  }

  predicate BracketlessRecords(rs: seq<PathRecord>) {
    forall i :: 0 <= i < |rs| ==> Bracketless(rs[i].raw)
  }

  /** The paths the report reader can parse have word states and actions
      without `]`. */
  lemma ReadableBracketless(p: seq<Edge>)
    requires Readable(p)
    ensures Bracketless(p)
  {
    forall i | 0 <= i < |p|
      ensures ']' !in p[i].source && ']' !in p[i].target && ']' !in p[i].action
    {
      var e := p[i];
      assert IsWord(e.source) && IsWord(e.target) && ActionText(e.action);
      assert forall k :: 0 <= k < |e.source| ==> e.source[k] != ']';
      assert forall k :: 0 <= k < |e.target| ==> e.target[k] != ']';
    }
  }

  lemma DecimalNoBracket(n: nat)
    ensures ']' !in Decimal(n)
  {
    var d := Decimal(n);
    assert forall j :: 0 <= j < |d| ==> d[j] != ']';
  }

  lemma StepMark(e: Edge)
    requires ']' !in e.action && ']' !in e.target
    ensures NoMark(Step(e)) && Step(e)[|Step(e)| - 1] == ')'
  {
    var a := " --[" + e.action;
    var b := a + "]--> (";
    var c := b + e.target;
    MarkPlain(" --[");
    MarkPlain(e.action);
    assert e.action != [] ==> e.action[0] in e.action;
    MarkAppend(" --[", e.action);
    MarkPlain("]--> (");
    MarkAppend(a, "]--> (");
    MarkPlain(e.target);
    assert e.target != [] ==> e.target[0] in e.target;
    MarkAppend(b, e.target);
    MarkPlain(")");
    MarkAppend(c, ")");
  }

  /** One more step, and the line break that may follow it. */
  lemma JoinStep(s: string, st: string, br: string)
    requires NoMark(s) && (s == [] || (s[0] == ' ' && s[|s| - 1] != ']'))
    requires NoMark(st) && |st| > 0 && st[0] == ' ' && st[|st| - 1] == ')'
    requires br == [] || br == LineBreak
    ensures var r := s + st + br; NoMark(r) && r != [] && r[0] == ' ' && r[|r| - 1] != ']'
  {
    MarkAppend(s, st);
    MarkPlain(br);
    MarkAppend(s + st, br);
    assert (s + st + br)[0] == (if s == [] then st[0] else s[0]);
  }

  lemma {:induction false} StepsMark(p: seq<Edge>, n: nat)
    requires n <= |p| && Bracketless(p)
    ensures NoMark(Steps(p, n))
    ensures Steps(p, n) == [] || (Steps(p, n)[0] == ' ' && Steps(p, n)[|Steps(p, n)| - 1] != ']')
  {
    if n > 0 {
      StepsMark(p, n - 1);
      StepMark(p[n - 1]);
      JoinStep(Steps(p, n - 1), Step(p[n - 1]), Break(n, |p|));
    }
  }

  lemma FormatMark(p: seq<Edge>)
    requires |p| > 0 && Bracketless(p)
    ensures NoMark(FormatPath(p))
  {
    var head := "(" + p[0].source + ")";
    MarkPlain("(");
    MarkPlain(p[0].source);
    MarkAppend("(", p[0].source);
    MarkPlain(")");
    MarkAppend("(" + p[0].source, ")");
    StepsMark(p, |p|);
    assert head[|head| - 1] == ')';
    MarkAppend(head, Steps(p, |p|));
  }

  lemma EntryMark(level: char, i: nat, r: PathRecord)
    requires level != ']' && |r.raw| > 0 && Bracketless(r.raw)
    ensures NoMark(Entry(level, i, r)) && Entry(level, i, r)[0] == 'P'
    ensures Entry(level, i, r)[|Entry(level, i, r)| - 1] == '\n'
  {
    var head := "P" + [level] + "." + Decimal(i) + " (Length: " + Decimal(r.length) + "):\n";
    DecimalNoBracket(i);
    DecimalNoBracket(r.length);
    MarkPlain(head);
    FormatMark(r.raw);
    MarkAppend(head, FormatPath(r.raw));
    MarkPlain("\n\n");
    MarkAppend(head + FormatPath(r.raw), "\n\n");
  }

  lemma {:induction false} EntryListMark(level: char, rs: seq<PathRecord>)
    requires level != ']' && Showable(rs) && BracketlessRecords(rs)
    ensures NoMark(EntryList(level, rs))
    ensures EntryList(level, rs) == [] || EntryList(level, rs)[0] == 'P'
  {
    if rs != [] {
      var front := rs[..|rs| - 1];
      assert Showable(front) && BracketlessRecords(front);
      EntryListMark(level, front);
      EntryMark(level, |rs|, rs[|rs| - 1]);
      MarkAppend(EntryList(level, front), Entry(level, |rs|, rs[|rs| - 1]));
    }
  }

  lemma SectionMark(title: string, level: char, rs: seq<PathRecord>, note: string)
    requires level != ']' && Showable(rs) && BracketlessRecords(rs)
    requires NoMark(title) && title != [] && title[0] == '=' && title[|title| - 1] == '\n'
    requires NoMark(note) && (note == [] || note[0] != ']')
    ensures var s := Section(title, level, rs, note);
      NoMark(s) && s[0] == '=' && s[|s| - 1] == '\n'
  {
    EntryListMark(level, rs);
    SectionJoin(title, if rs == [] then note else EntryList(level, rs));
  }

  /** A title, what follows it, and the closing rule. */
  lemma SectionJoin(title: string, mid: string)
    requires NoMark(title) && title != [] && title[0] == '=' && title[|title| - 1] == '\n'
    requires NoMark(mid) && (mid == [] || mid[0] != ']')
    ensures var s := title + mid + Rule('-') + "\n\n";
      NoMark(s) && s[0] == '=' && s[|s| - 1] == '\n'
  {
    MarkAppend(title, mid);
    MarkPlain(Rule('-'));
    assert Rule('-')[0] == '-';
    MarkAppend(title + mid, Rule('-'));
    MarkPlain("\n\n");
    MarkAppend(title + mid + Rule('-'), "\n\n");
  }

  /** Two pieces of text without '3' hold no `3] ` together. */
  lemma NoThreeMark(x: string, y: string)
    requires '3' !in x && '3' !in y
    ensures NoMark(x + y)
  {
    MarkPlain(x + y);
  }

  /** Two pieces of text without ']' hold no `3] ` together. */
  lemma NoBracketMark(x: string, y: string)
    requires ']' !in x && ']' !in y
    ensures NoMark(x + y)
  {
    MarkPlain(x + y);
  }

  lemma P0TitleMark()
    ensures NoMark(P0Title) && P0Title[0] == '=' && P0Title[|P0Title| - 1] == '\n'
  {
    NoThreeMark(P0Header, " (Unique Archetypes) ===\n");
  }

  lemma P1TitleMark()
    ensures NoMark(P1Title) && P1Title[0] == '=' && P1Title[|P1Title| - 1] == '\n'
  {
    NoThreeMark(P1Header, " (New Logic Discovery) ===\n");
  }

  lemma P2TitleMark()
    ensures NoMark(P2Title) && P2Title[0] == '=' && P2Title[|P2Title| - 1] == '\n'
  {
    NoThreeMark(P2Header, " (Self-Loops) ===\n");
  }

  lemma P1NoteMark()
    ensures NoMark(P1Note) && P1Note[0] == 'N'
  {
    NoBracketMark("No additional logic paths ", "found beyond P0.\n\n");
  }

  lemma P2NoteMark()
    ensures NoMark(P2Note) && P2Note[0] == 'A'
  {
    NoBracketMark("All loops covered by P0/P1 ", "or none exist.\n\n");
  }

  lemma BodyMark(b: Buckets)
    requires Writable(b)
    requires BracketlessRecords(b.finalP0) && BracketlessRecords(b.finalP1) && BracketlessRecords(b.finalP2)
    ensures NoMark(Body(b)) && Body(b)[0] == '=' && Body(b)[|Body(b)| - 1] == '\n'
  {
    P0TitleMark();
    P1TitleMark();
    P2TitleMark();
    P1NoteMark();
    P2NoteMark();
    MarkPlain("");
    var s0 := Section(P0Title, '0', b.finalP0, "");
    var s1 := Section(P1Title, '1', b.finalP1, P1Note);
    var s2 := Section(P2Title, '2', b.finalP2, P2Note);
    SectionMark(P0Title, '0', b.finalP0, "");
    SectionMark(P1Title, '1', b.finalP1, P1Note);
    SectionMark(P2Title, '2', b.finalP2, P2Note);
    SectionsJoin(s0, s1, s2);
  }

  /** Three sections, one after the other. */
  lemma SectionsJoin(s0: string, s1: string, s2: string)
    requires NoMark(s0) && s0 != [] && s0[0] == '=' && s0[|s0| - 1] == '\n'
    requires NoMark(s1) && s1 != [] && s1[0] == '=' && s1[|s1| - 1] == '\n'
    requires NoMark(s2) && s2 != [] && s2[0] == '=' && s2[|s2| - 1] == '\n'
    ensures var s := s0 + s1 + s2; NoMark(s) && s[0] == '=' && s[|s| - 1] == '\n'
  {
    MarkAppend(s0, s1);
    MarkAppend(s0 + s1, s2);
    assert (s0 + s1 + s2)[0] == s0[0];
  }

  lemma TitleNoBracket(rawCount: nat)
    ensures ']' !in Title(rawCount)
  {
    DecimalNoBracket(rawCount);
  }

  lemma CountsNoBracket(st: Stats)
    ensures ']' !in Counts(st)
  {
    DecimalNoBracket(st.p0Count);
    DecimalNoBracket(st.p1Count);
    DecimalNoBracket(st.p2Count);
    DecimalNoBracket(st.p3Count);
  }

  /** The title, the counts line and the rule under it. */
  lemma HeadMark(rawCount: nat, st: Stats)
    ensures NoMark(Title(rawCount) + Counts(st) + ("\n" + Rule('=') + "\n\n"))
  {
    TitleNoBracket(rawCount);
    CountsNoBracket(st);
    NoBracketHead(Title(rawCount), Counts(st));
  }

  lemma NoBracketHead(t: string, c: string)
    requires ']' !in t && ']' !in c
    ensures NoMark(t + c + ("\n" + Rule('=') + "\n\n"))
  {
    var r := "\n" + Rule('=') + "\n\n";
    assert forall j :: 0 <= j < |r| ==> r[j] != ']';
    MarkPlain(t + c + r);
  }

  /** Two texts that end lines join without `3] `. */
  lemma MarkLines(x: string, y: string)
    requires NoMark(x) && x != [] && x[|x| - 1] == '\n'
    requires NoMark(y) && y != [] && y[0] != ']' && y[|y| - 1] == '\n'
    ensures NoMark(x + y) && (x + y)[|x + y| - 1] == '\n'
  {
    MarkAppend(x, y);
  }

  /** Text that ends a line and holds no `3] ` holds no P3 header either:
      the header has no newline, and its ninth character ends `3] `. */
  lemma HeaderOneLine()
    ensures '\n' !in P3Header && P3Header[6] == '3' && P3Header[7] == ']' && P3Header[8] == ' '
  {
  }

  lemma HeaderNotAt(h: string, x: string, y: string)
    requires '\n' !in h && |h| >= 9 && h[6] == '3' && h[7] == ']' && h[8] == ' '
    requires x != [] && NoMark(x) && x[|x| - 1] == '\n'
    ensures !(h <= x + y)
  {
    if |x| <= |h| {
      ShortNotAt(h, x, y);
    } else {
      LongNotAt(h, x, y);
    }
  }

  /** Text ending a line within the header's length cannot start it. */
  lemma ShortNotAt(h: string, x: string, y: string)
    requires '\n' !in h && x != [] && |x| <= |h| && x[|x| - 1] == '\n'
    ensures !(h <= x + y)
  {
    assert h[|x| - 1] in h;
    assert h[|x| - 1] != (x + y)[|x| - 1];
  }

  /** Longer text without `3] ` cannot start it either. */
  lemma LongNotAt(h: string, x: string, y: string)
    requires |h| >= 9 && h[6] == '3' && h[7] == ']' && h[8] == ' '
    requires |x| > 9 && NoMark(x)
    ensures !(h <= x + y)
  {
    MarkDrop(x, 6);
    assert x[6..][0] == x[6] && x[6..][1] == x[7] && x[6..][2] == x[8];
    assert h[6] != (x + y)[6] || h[7] != (x + y)[7] || h[8] != (x + y)[8];
  }

  /** The section search passes over such text. */
  lemma {:induction false} SkipToArchive(x: string, y: string, e: nat)
    requires NoMark(x) && (x == [] || x[|x| - 1] == '\n')
    requires SectionEnd(y, P3Header) == Some(e)
    ensures SectionEnd(x + y, P3Header) == Some(|x| + e)
    decreases |x|
  {
    if x == [] {
      assert x + y == y;
    } else {
      HeaderOneLine();
      HeaderNotAt(P3Header, x, y);
      assert (x + y)[1..] == x[1..] + y;
      MarkDrop(x, 1);
      SkipToArchive(x[1..], y, e);
    }
  }

  /** The first `===` after text without '='. */
  lemma {:induction false} FindAfter(u: string, v: string)
    requires '=' !in u
    ensures Find(u + "===" + v, "===") == Some(|u|)
    decreases |u|
  {
    if u == [] {
      assert u + "===" + v == "===" + v;
    } else {
      assert u[0] in u && (u + "===" + v)[0] == u[0];
      assert (u + "===" + v)[1..] == u[1..] + "===" + v;
      assert forall k :: 0 <= k < |u[1..]| ==> u[1..][k] in u;
      FindAfter(u[1..], v);
    }
  }

  /** The archive's title is a match of the P3 section pattern, ending at
      the title's closing `===`. */
  lemma ArchiveSection(b: Buckets, w: string)
    ensures SectionEnd(Archive(b) + w, P3Header) == Some(|P3Title| - 1)
  {
    var v := "\n" + "Total: " + Decimal(|b.finalP3|) + "\n" + w;
    assert Archive(b) + w == P3Header + (" (Archive) " + "===" + v);
    FindAfter(" (Archive) ", v);
    assert (Archive(b) + w)[|P3Header|..] == " (Archive) " + "===" + v;
  }

  /** After the archive's title come its total and the warning. */
  lemma ArchiveTail(b: Buckets, show: set<Edge> -> string)
    requires QuietWarning(b, show)
    ensures NoP3((Archive(b) + Warning(b, show))[|P3Title| - 1..])
  {
    ArchiveNoP3(b);
    WarningNoP3(b, show);
    assert Archive(b)[|Archive(b)| - 1] == '\n';
    NoP3Append(Archive(b), Warning(b, show));
    NoP3Drop(Archive(b) + Warning(b, show), |P3Title| - 1);
  }

  lemma AssembleSplit(title: string, counts: string, body: string, archive: string, warning: string)
    ensures Report.Assemble(title, counts, body, archive, warning)
      == (title + counts + ("\n" + Rule('=') + "\n\n") + body) + (archive + warning)
  {
  }

  /** A text whose P3 header first appears at y, and which holds no `P3.`
      after the header's match, lists no P3 paths. */
  lemma ListedAfter(x: string, y: string)
    requires NoMark(x) && x != [] && x[|x| - 1] == '\n'
    requires SectionEnd(y, P3Header) == Some(|P3Title| - 1)
    requires NoP3(y[|P3Title| - 1..])
    ensures PrioritySection(x + y, '3', P3Header) == []
  {
    var e := |P3Title| - 1;
    SkipToArchive(x, y, e);
    assert (x + y)[|x| + e..] == y[e..];
    EntryScanNoP3(y[e..]);
  }

  /** A report whose text before the archive holds no `3] ` and which holds
      no `P3.` after the archive's title lists no P3 paths. */
  lemma AssembledNotListed(title: string, counts: string, body: string, archive: string, warning: string)
    requires NoMark(title + counts + ("\n" + Rule('=') + "\n\n"))
    requires NoMark(body) && body != [] && body[0] != ']' && body[|body| - 1] == '\n'
    requires SectionEnd(archive + warning, P3Header) == Some(|P3Title| - 1)
    requires NoP3((archive + warning)[|P3Title| - 1..])
    ensures PrioritySection(Report.Assemble(title, counts, body, archive, warning), '3', P3Header) == []
  {
    var h := title + counts + ("\n" + Rule('=') + "\n\n");
    assert h[|h| - 1] == '\n';
    MarkLines(h, body);
    AssembleSplit(title, counts, body, archive, warning);
    ListedAfter(h + body, archive + warning);
  }

  /** The P3 list the priority reader returns for a generated report is
      empty: the writer prints only the archive's total. */
  lemma ArchiveNotListed(rawCount: nat, b: Buckets, show: set<Edge> -> string)
    requires Writable(b)
    requires BracketlessRecords(b.finalP0) && BracketlessRecords(b.finalP1) && BracketlessRecords(b.finalP2)
    requires QuietWarning(b, show)
    ensures PrioritySection(ReportText(rawCount, b, show), '3', P3Header) == []
  {
    HeadMark(rawCount, b.stats);
    BodyMark(b);
    ArchiveSection(b, Warning(b, show));
    ArchiveTail(b, show);
    AssembledNotListed(Title(rawCount), Counts(b.stats), Body(b), Archive(b), Warning(b, show));
  }

  /** What PriorityReportParser.parse returns for a generated report: the
      counts it was written with, no archived paths, no skipped lists. */
  lemma GeneratedReport(rawCount: nat, b: Buckets, show: set<Edge> -> string)
    requires Writable(b)
    requires BracketlessRecords(b.finalP0) && BracketlessRecords(b.finalP1) && BracketlessRecords(b.finalP2)
    requires QuietWarning(b, show)
    ensures var c := Collection(ReportText(rawCount, b, show));
      c.stats == b.stats && c.p3Paths == [] && c.skippedEdges == [] && c.skippedLoops == []
  {
    StatsRoundTrip(rawCount, b, show);
    ArchiveNotListed(rawCount, b, show);
  }
}
