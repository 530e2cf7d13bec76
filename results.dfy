/** The results view: a path as one line of text, and the path totals in
    its header. */
module Results {
  import opened Text
  import opened Graph
  import opened Cluster
  import opened Prioritize
  import opened Report
  import opened Parser
  import Legacy

  /** "".join of the parts. */
  function Concat(parts: seq<string>): string {
    if parts == [] then "" else Concat(parts[..|parts| - 1]) + parts[|parts| - 1]
  }

  lemma ConcatNext(parts: seq<string>, x: string)
    ensures Concat(parts + [x]) == Concat(parts) + x
  {
    assert (parts + [x])[..|parts|] == parts;
  }

  /** render_path_text: the first state in parentheses and then one
      ` --[ACTION]--> (TARGET)` per segment, all on one line; nothing for an
      empty path. */
  method RenderPathText(segments: seq<PathSegment>) returns (text: string)
    ensures text == OneLine(Tuples(segments))
    ensures segments == [] <==> text == ""
  {
    var parts: seq<string> := [];
    if |segments| > 0 {
      ConcatNext(parts, "(" + segments[0].source + ")");
      parts := parts + ["(" + segments[0].source + ")"];
    }
    for i := 0 to |segments|
      invariant Concat(parts) == Head(segments) + FlatSteps(Tuples(segments), i)
    {
      var seg := segments[i];
      var step := " --[" + seg.action + "]--> (" + seg.target + ")";
      ConcatNext(parts, step);
      RenderStep(segments, i, Head(segments));
      parts := parts + [step];
    }
    text := Concat(parts);
    RenderDone(segments);
  }

  /** The first state in parentheses, or nothing for an empty path. */
  ghost function Head(segments: seq<PathSegment>): string {
    if segments == [] then "" else "(" + segments[0].source + ")"
  }

  /** The head and every step make up the one-line text. */
  lemma RenderDone(segments: seq<PathSegment>)
    ensures Head(segments) + FlatSteps(Tuples(segments), |segments|) == OneLine(Tuples(segments))
    ensures segments == [] <==> OneLine(Tuples(segments)) == ""
  {
    var p := Tuples(segments);
    if segments != [] {
      assert p[0].source == segments[0].source;
    }
  }

  /** One more segment adds its step to the line. */
  lemma RenderStep(segments: seq<PathSegment>, i: nat, head: string)
    requires i < |segments|
    ensures head + FlatSteps(Tuples(segments), i + 1)
         == head + FlatSteps(Tuples(segments), i) + (" --[" + segments[i].action + "]--> (" + segments[i].target + ")")
  {
    var p := Tuples(segments);
    assert Step(p[i]) == " --[" + segments[i].action + "]--> (" + segments[i].target + ")";
  }

  /** The one-line text of a readable path is on one line and has no white
      space at either end. */
  lemma OneLinePlain(p: seq<Edge>)
    requires Readable(p)
    ensures NoNewline(OneLine(p)) && Strip(OneLine(p)) == OneLine(p)
  {
    var t := OneLine(p);
    ReadableSingleLine(p);
    FlatStepsNoNewline(p, |p|);
    WordPlain(p[0].source);
    assert t[|t| - 1] == ')' by {
      assert FlatSteps(p, |p|) == FlatSteps(p, |p| - 1) + Step(p[|p| - 1]);
    }
    StripUnchanged(t);
  }

  /** The one-line text of a path the report reader accepts parses back into
      the same steps. */
  lemma RenderedReadBack(p: seq<Edge>)
    requires Readable(p)
    ensures Tuples(Segments(OneLine(p))) == p
  {
    var t := OneLine(p);
    assert Segments(t) == Chain(p[0].source, Pairs(p)) by {
      OneLinePlain(p);
      NormalizeKeeps(t);
      OneLineParts(p);
    }
    TuplesChain(p);
  }

  // ---------------------------------------------------------------------------
  // Totals.

  /** The priority header: every path of the four buckets. */
  function PriorityTotal(st: Stats): nat {
    st.p0Count + st.p1Count + st.p2Count + st.p3Count
  }

  /** The header of a prioritised run counts every clustered path once. */
  lemma PriorityTotalCounts(cs: seq<ClusterRec>, pick: set<Edge> -> Edge)
    requires IsChoice(pick)
    ensures PriorityTotal(Prioritized(cs, pick).stats) == |P0s(cs)| + |Pool(cs)|
  {
    var b := Prioritized(cs, pick);
    PrioritizedKeeps(cs, pick);
    assert |multiset(b.finalP0 + b.finalP1 + b.finalP2 + b.finalP3)| == |multiset(P0s(cs) + Pool(cs))|;
  }

  /** The legacy header: each cluster's archetype and its variations. */
  function LegacyTotal(cs: seq<Legacy.Cluster>): nat {
    if cs == [] then 0 else LegacyTotal(cs[..|cs| - 1]) + (1 + |cs[|cs| - 1].p1Paths| + |cs[|cs| - 1].p2Paths|)
  }

  /** The P1 metric of the legacy view. */
  function MajorTotal(cs: seq<Legacy.Cluster>): nat {
    if cs == [] then 0 else MajorTotal(cs[..|cs| - 1]) + |cs[|cs| - 1].p1Paths|
  }

  /** The P2 metric of the legacy view. */
  function MinorTotal(cs: seq<Legacy.Cluster>): nat {
    if cs == [] then 0 else MinorTotal(cs[..|cs| - 1]) + |cs[|cs| - 1].p2Paths|
  }

  /** The header total is the sum of the archetype, P1 and P2 metrics. */
  lemma {:induction false} LegacyTotalSplit(cs: seq<Legacy.Cluster>)
    ensures LegacyTotal(cs) == |cs| + MajorTotal(cs) + MinorTotal(cs)
  {
    if cs != [] {
      LegacyTotalSplit(cs[..|cs| - 1]);
    }
  }

  /** A parsed legacy report shows one archetype per archetype marker. */
  lemma LegacyArchetypes(text: string)
    ensures LegacyTotal(Legacy.Clusters(text)) >= |Legacy.Markers(text)|
  {
    Legacy.ArchetypeIds(text);
    LegacyTotalSplit(Legacy.Clusters(text));
  }
}
