/** generate_path_analysis: read the DOT edges, check the two end states,
    enumerate, cluster and prioritise the paths, and write the report. */
module Pipeline {
  import opened Common
  import opened Graph
  import opened Cluster
  import opened Prioritize
  import opened Report
  import Ingest
  import Enumerate
  import Matcher
  import Parser
  import ReadBack

  /** What the analysis can fail with: the ValueError for an end state that
      is not in the graph, or the IndexError get_path_signature raises on the
      empty path enumerated when start and end are the same state. */
  datatype Failure = MissingNode | EmptyPath

  /** The prioritised buckets and the text written to the report file. */
  datatype Analysis = Analysis(prioritized: Buckets, report: string)

  /** The path_data records of the enumerated paths. */
  function RawRecords(g: seq<Edge>, start: NodeId, end: NodeId): seq<PathRecord>
    requires start != end
  {
    EnumeratedNonEmpty(g, start, end);
    Records(Enumerate.EnumeratePaths(g, start, end), start, end)
  }

  /** The clusters of the enumerated paths. */
  function Clustered(g: seq<Edge>, start: NodeId, end: NodeId): seq<ClusterRec>
    requires start != end
  {
    ClusterAll(Matcher.Ratio, SortByLength(RawRecords(g, start, end)))
  }

  /** With distinct end states every enumerated path has an edge. */
  lemma EnumeratedNonEmpty(g: seq<Edge>, start: NodeId, end: NodeId)
    requires start != end
    ensures NonEmptyPaths(Enumerate.EnumeratePaths(g, start, end))
  {
    var raw := Enumerate.EnumeratePaths(g, start, end);
    forall i | 0 <= i < |raw| ensures |raw[i]| > 0 {
      Enumerate.EnumeratedPathsValid(g, start, end, raw[i]);
    }
  }

  /** With start and end the same state, the enumeration yields the empty
      path alone. */
  lemma EnumeratedSame(g: seq<Edge>, s: NodeId)
    ensures Enumerate.EnumeratePaths(g, s, s) == [[]]
  {
  }

  /** The archetypes, then the variations, are the members of the clusters. */
  lemma {:induction false} PoolMembers(cs: seq<ClusterRec>)
    ensures multiset(P0s(cs) + Pool(cs)) == AllMembers(cs)
  {
    if cs != [] {
      var init, c := cs[..|cs| - 1], cs[|cs| - 1];
      PoolMembers(init);
      assert P0s(cs) == P0s(init) + [c.p0];
      calc {
        multiset(P0s(cs) + Pool(cs));
        multiset(P0s(init)) + multiset{c.p0} + multiset(Pool(init)) + multiset(c.p1) + multiset(c.p2);
        multiset(P0s(init) + Pool(init)) + Members(c);
      }
    }
  }

  /** The prioritised buckets of the clusters hold every enumerated path
      exactly once. */
  lemma {:induction false} BucketsKeepPaths(g: seq<Edge>, start: NodeId, end: NodeId, pick: set<Edge> -> Edge)
    requires start != end && IsChoice(pick)
    ensures var b := Prioritized(Clustered(g, start, end), pick);
      multiset(b.finalP0 + b.finalP1 + b.finalP2 + b.finalP3) == multiset(RawRecords(g, start, end))
  {
    var raw := Enumerate.EnumeratePaths(g, start, end);
    EnumeratedNonEmpty(g, start, end);
    var cs := Clustered(g, start, end);
    ClusterPathsSpec(raw, start, end);
    PoolMembers(cs);
    PrioritizedKeeps(cs, pick);
  }

  /** Buckets that rearrange records with an edge each hold only such records. */
  lemma ShowableParts(p0: seq<PathRecord>, p1: seq<PathRecord>, p2: seq<PathRecord>, p3: seq<PathRecord>,
                      rs: seq<PathRecord>)
    requires multiset(p0 + p1 + p2 + p3) == multiset(rs) && Showable(rs)
    ensures Showable(p0) && Showable(p1) && Showable(p2)
  {
    var all := p0 + p1 + p2 + p3;
    forall r | r in all ensures |r.raw| > 0 {
      assert r in multiset(rs);
    }
    assert forall i :: 0 <= i < |p0| ==> p0[i] == all[i];
    assert forall i :: 0 <= i < |p1| ==> p1[i] == all[|p0| + i];
    assert forall i :: 0 <= i < |p2| ==> p2[i] == all[|p0| + |p1| + i];
  }

  /** Every bucketed path has an edge, so the report can format it. */
  lemma BucketsWritable(g: seq<Edge>, start: NodeId, end: NodeId, pick: set<Edge> -> Edge)
    requires start != end && IsChoice(pick)
    ensures Writable(Prioritized(Clustered(g, start, end), pick))
  {
    var b := Prioritized(Clustered(g, start, end), pick);
    BucketsKeepPaths(g, start, end, pick);
    EnumeratedNonEmpty(g, start, end);
    ShowableParts(b.finalP0, b.finalP1, b.finalP2, b.finalP3, RawRecords(g, start, end));
  }

  /** Whatever the buckets rearrange comes from the records they were made of. */
  lemma BucketMembers(p0: seq<PathRecord>, p1: seq<PathRecord>, p2: seq<PathRecord>, p3: seq<PathRecord>,
                      rs: seq<PathRecord>)
    requires multiset(p0 + p1 + p2 + p3) == multiset(rs)
    ensures forall r :: r in p0 || r in p1 || r in p2 ==> r in rs
  {
    forall r | r in p0 || r in p1 || r in p2 ensures r in rs {
      assert r in p0 + p1 + p2 + p3;
      assert r in multiset(rs);
    }
  }

  /** An enumerated path follows edges of the graph. */
  lemma PathBracketless(g: seq<Edge>, start: NodeId, end: NodeId, p: seq<Edge>)
    requires p in Enumerate.EnumeratePaths(g, start, end)
    requires forall e :: e in g ==> ']' !in e.source && ']' !in e.target && ']' !in e.action
    ensures ReadBack.Bracketless(p)
  {
    Enumerate.EnumeratedPathsValid(g, start, end, p);
  }

  /** The records of the enumerated paths follow edges of the graph. */
  lemma RawBracketless(lines: seq<string>, start: NodeId, end: NodeId)
    requires start != end
    ensures forall r :: r in RawRecords(Ingest.ExtractAll(lines), start, end) ==> ReadBack.Bracketless(r.raw)
  {
    var g := Ingest.ExtractAll(lines);
    var raw := Enumerate.EnumeratePaths(g, start, end);
    var rs := RawRecords(g, start, end);
    Ingest.ExtractedBracketless(lines);
    forall r | r in rs ensures ReadBack.Bracketless(r.raw) {
      var i :| 0 <= i < |rs| && rs[i] == r;
      PathBracketless(g, start, end, raw[i]);
    }
  }

  /** The bucketed paths follow edges of the graph, so their states and
      actions hold no `]`. */
  lemma BucketsBracketless(lines: seq<string>, start: NodeId, end: NodeId, pick: set<Edge> -> Edge)
    requires start != end && IsChoice(pick)
    ensures var b := Prioritized(Clustered(Ingest.ExtractAll(lines), start, end), pick);
      ReadBack.BracketlessRecords(b.finalP0) && ReadBack.BracketlessRecords(b.finalP1)
      && ReadBack.BracketlessRecords(b.finalP2)
  {
    var g := Ingest.ExtractAll(lines);
    var b := Prioritized(Clustered(g, start, end), pick);
    var rs := RawRecords(g, start, end);
    RawBracketless(lines, start, end);
    BucketsKeepPaths(g, start, end, pick);
    BracketlessParts(b.finalP0, b.finalP1, b.finalP2, b.finalP3, rs);
  }

  /** Buckets that rearrange records without `]` hold only such records. */
  lemma BracketlessParts(p0: seq<PathRecord>, p1: seq<PathRecord>, p2: seq<PathRecord>, p3: seq<PathRecord>,
                         rs: seq<PathRecord>)
    requires multiset(p0 + p1 + p2 + p3) == multiset(rs)
    requires forall r :: r in rs ==> ReadBack.Bracketless(r.raw)
    ensures ReadBack.BracketlessRecords(p0) && ReadBack.BracketlessRecords(p1) && ReadBack.BracketlessRecords(p2)
  {
    BucketMembers(p0, p1, p2, p3, rs);
    assert forall i :: 0 <= i < |p0| ==> p0[i] in rs;
    assert forall i :: 0 <= i < |p1| ==> p1[i] in rs;
    assert forall i :: 0 <= i < |p2| ==> p2[i] in rs;
  }

  /** What generate_path_analysis returns for the DOT lines, the two end
      states, the set order (pick) and the rendering of an edge set (show). */
  function Analyze(lines: seq<string>, start: NodeId, end: NodeId, pick: set<Edge> -> Edge, show: set<Edge> -> string)
    : (r: Result<Analysis, Failure>)
    requires IsChoice(pick)
  {
    var g := Ingest.ExtractAll(lines);
    if start !in Nodes(g) || end !in Nodes(g) then Err(MissingNode)
    else if start == end then Err(EmptyPath)
    else
      var b := Prioritized(Clustered(g, start, end), pick);
      BucketsWritable(g, start, end, pick);
      Ok(Analysis(b, ReportText(|Enumerate.EnumeratePaths(g, start, end)|, b, show)))
  }

  /** The analysis fails exactly when an end state is missing from the graph
      or both are the same state, and says which. */
  lemma AnalyzeFails(lines: seq<string>, start: NodeId, end: NodeId, pick: set<Edge> -> Edge, show: set<Edge> -> string)
    requires IsChoice(pick)
    ensures var g := Ingest.ExtractAll(lines); var r := Analyze(lines, start, end, pick, show);
      (r == Err(MissingNode) <==> start !in Nodes(g) || end !in Nodes(g))
      && (r == Err(EmptyPath) <==> start in Nodes(g) && end in Nodes(g) && start == end)
      && (r.Ok? <==> start in Nodes(g) && end in Nodes(g) && start != end)
  {
  }

  /** A successful analysis loses and duplicates no enumerated path, and its
      counts add up to the number of enumerated paths. */
  lemma AnalyzeKeepsPaths(lines: seq<string>, start: NodeId, end: NodeId, pick: set<Edge> -> Edge, show: set<Edge> -> string)
    requires IsChoice(pick)
    ensures var g := Ingest.ExtractAll(lines); var r := Analyze(lines, start, end, pick, show);
      r.Ok? ==>
        var b := r.value.prioritized;
        multiset(b.finalP0 + b.finalP1 + b.finalP2 + b.finalP3) == multiset(RawRecords(g, start, end))
        && b.stats.p0Count + b.stats.p1Count + b.stats.p2Count + b.stats.p3Count
           == |Enumerate.EnumeratePaths(g, start, end)|
  {
    var g := Ingest.ExtractAll(lines);
    if start in Nodes(g) && end in Nodes(g) && start != end {
      var raw := Enumerate.EnumeratePaths(g, start, end);
      var cs := Clustered(g, start, end);
      var b := Prioritized(cs, pick);
      BucketsKeepPaths(g, start, end, pick);
      PrioritizedKeeps(cs, pick);
      assert |multiset(b.finalP0 + b.finalP1 + b.finalP2 + b.finalP3)| == |multiset(RawRecords(g, start, end))|;
    }
  }

  /** generate_path_analysis: the checks, then each stage in turn. */
  method GeneratePathAnalysis(lines: seq<string>, start: NodeId, end: NodeId, pick: set<Edge> -> Edge,
                              show: set<Edge> -> string)
    returns (r: Result<Analysis, Failure>)
    requires IsChoice(pick)
    ensures r == Analyze(lines, start, end, pick, show)
  {
    var parsedEdges := Ingest.ParseDotLines(lines);
    if start !in Nodes(parsedEdges) || end !in Nodes(parsedEdges) {
      return Err(MissingNode);
    }
    var rawPaths := Enumerate.FindPaths(parsedEdges, end, start, [], map[start := 1]);
    if start == end {
      // rawPaths is [[]]: get_path_signature indexes the empty path.
      EnumeratedSame(parsedEdges, start);
      return Err(EmptyPath);
    }
    EnumeratedNonEmpty(parsedEdges, start, end);
    var finalClusters := ClusterPaths(rawPaths, start, end);
    var prioritized := PrioritizePaths(finalClusters, pick);
    BucketsWritable(parsedEdges, start, end, pick);
    r := Ok(Analysis(prioritized, ReportText(|rawPaths|, prioritized, show)));
  }

  /** The report a successful analysis writes reads back, with the priority
      reader, as the counts it was written with, no archived paths and no
      skipped lists. */
  lemma AnalyzedReadBack(lines: seq<string>, start: NodeId, end: NodeId, pick: set<Edge> -> Edge,
                         show: set<Edge> -> string)
    requires IsChoice(pick)
    ensures var r := Analyze(lines, start, end, pick, show);
      r.Ok? ==>
        var c := Parser.Collection(r.value.report);
        c.stats == r.value.prioritized.stats && c.p3Paths == [] && c.skippedEdges == [] && c.skippedLoops == []
  {
    var g := Ingest.ExtractAll(lines);
    if start in Nodes(g) && end in Nodes(g) && start != end {
      var cs := Clustered(g, start, end);
      var b := Prioritized(cs, pick);
      BucketsWritable(g, start, end, pick);
      BucketsBracketless(lines, start, end, pick);
      PrioritizedCovers(cs, pick);
      ReadBack.GeneratedReport(|Enumerate.EnumeratePaths(g, start, end)|, b, show);
    }
  }
}
