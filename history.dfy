/** The computations of the run history that do not touch storage: content
    types of uploads, the counts and previews saved with a run, and which
    reader a saved report goes to. */
module History {
  import opened Text
  import opened Graph
  import opened Prioritize
  import opened Report
  import opened Parser
  import Legacy
  import Results
  import ReadBack

  /** str.endswith */
  predicate EndsWith(s: string, suffix: string) {
    |suffix| <= |s| && s[|s| - |suffix|..] == suffix
  }

  const PngType := "image/png"
  const HtmlType := "text/html"
  // Written in two pieces so that the character the MIME dispatch proof
  // compares (index 12) lies in a short literal.
  const XlsxType := "application/vnd.openxmlformats-" + "officedocument.spreadsheetml.sheet"
  const OtherType := "application/octet-stream"

  /** _get_mime_type: each of the three suffixes has its own type, and any
      other name gets the generic binary type. */
  function MimeType(filename: string): (r: string)
    ensures r == PngType <==> EndsWith(filename, ".png")
    ensures r == HtmlType <==> EndsWith(filename, ".html")
    ensures r == XlsxType <==> EndsWith(filename, ".xlsx")
    ensures r == OtherType <==> !EndsWith(filename, ".png") && !EndsWith(filename, ".html") && !EndsWith(filename, ".xlsx")
  {
    assert PngType[0] != HtmlType[0] && PngType[0] == 'i';
    assert XlsxType[12] != OtherType[12];
    if EndsWith(filename, ".png") then
      assert !EndsWith(filename, ".html") by { SuffixesDiffer(filename, ".png", ".html"); }
      assert !EndsWith(filename, ".xlsx") by { SuffixesDiffer(filename, ".png", ".xlsx"); }
      PngType
    else if EndsWith(filename, ".html") then
      assert !EndsWith(filename, ".xlsx") by { SuffixesDiffer(filename, ".html", ".xlsx"); }
      HtmlType
    else if EndsWith(filename, ".xlsx") then XlsxType
    else OtherType
  }

  /** Two suffixes that differ in their last letter cannot both end a name. */
  lemma SuffixesDiffer(s: string, x: string, y: string)
    requires |x| > 0 && |y| > 0 && x[|x| - 1] != y[|y| - 1]
    ensures !(EndsWith(s, x) && EndsWith(s, y))
  {
    assert EndsWith(s, x) ==> s[|s| - 1] == x[|x| - 1] by {
      if EndsWith(s, x) {
        assert s[|s| - |x|..][|x| - 1] == s[|s| - 1];
      }
    }
    assert EndsWith(s, y) ==> s[|s| - 1] == y[|y| - 1] by {
      if EndsWith(s, y) {
        assert s[|s| - |y|..][|y| - 1] == s[|s| - 1];
      }
    }
  }

  /** The artifacts a run uploads get the types of their formats. */
  lemma UploadTypes()
    ensures MimeType("flowchart.png") == PngType
    ensures MimeType("flowchart_interactive.html") == HtmlType
    ensures MimeType("report.xlsx") == XlsxType
  {
    assert "flowchart.png"[9..] == ".png";
    assert "flowchart_interactive.html"[21..] == ".html";
    assert "report.xlsx"[6..] == ".xlsx";
  }

  // ---------------------------------------------------------------------------
  // Metadata.

  /** What a run's analysis left to save: one of the three stats-carrying
      forms of the prioritised reader, or the legacy list of clusters. */
  datatype ParsedClusters =
    | MinimalStats(stats: Stats)
    | StatsDict(stats: Stats)
    | PriorityCollection(collection: PriorityPathCollection)
    | LegacyClusters(clusters: seq<Legacy.Cluster>)

  /** The archetype count and the path count saved with a run. */
  function MetadataCounts(parsed: ParsedClusters): (r: (nat, nat))
    ensures r.0 <= r.1
    ensures parsed.LegacyClusters? ==>
      r.0 == |parsed.clusters| && r.1 == r.0 + Results.MajorTotal(parsed.clusters) + Results.MinorTotal(parsed.clusters)
    ensures !parsed.LegacyClusters? ==>
      var st := if parsed.PriorityCollection? then parsed.collection.stats else parsed.stats;
      r == (st.p0Count, st.p0Count + st.p1Count + st.p2Count + st.p3Count)
  {
    match parsed
    case MinimalStats(st) => (st.p0Count, Results.PriorityTotal(st))
    case StatsDict(st) => (st.p0Count, Results.PriorityTotal(st))
    case PriorityCollection(c) => (c.stats.p0Count, Results.PriorityTotal(c.stats))
    case LegacyClusters(cs) =>
      Results.LegacyTotalSplit(cs);
      (|cs|, Results.LegacyTotal(cs))
  }

  /** The counts of a prioritised collection are read off its stats. */
  lemma CollectionCounts(parsed: ParsedClusters)
    requires parsed.PriorityCollection?
    ensures var st := parsed.collection.stats;
      MetadataCounts(parsed) == (st.p0Count, st.p0Count + st.p1Count + st.p2Count + st.p3Count)
  {
  }

  const PreviewLength: nat := 100

  /** The saved preview of a prompt: its first hundred characters. */
  function Preview(prompt: string): (r: string)
    ensures r <= prompt && |r| <= PreviewLength
    ensures |prompt| <= PreviewLength ==> r == prompt
    ensures |prompt| > PreviewLength ==> |r| == PreviewLength
  {
    if |prompt| > PreviewLength then prompt[..PreviewLength] else prompt
  }

  // ---------------------------------------------------------------------------
  // Format detection.

  /** A saved report is read as a prioritised one exactly when it holds the
      P0 section header. */
  predicate IsPriorityMode(reportText: string) {
    Contains(reportText, P0Header)
  }

  lemma PrefixAppend(h: string, a: string, b: string, c: string, d: string, e: string, f: string)
    requires h <= a
    ensures h <= a + b + c + d + e + f
  {
    assert (a + b + c + d + e + f)[..|h|] == a[..|h|];
  }

  /** The body of a report opens with the P0 section header. */
  lemma BodyHasP0(b: Buckets)
    requires Writable(b)
    ensures P0Header <= Body(b)
  {
    assert P0Header <= P0Title by {
      assert P0Title == P0Header + " (Unique Archetypes) ===\n";
    }
    PrefixAppend(P0Header, P0Title, if b.finalP0 == [] then "" else EntryList('0', b.finalP0), Rule('-'), "\n\n",
      Section(P1Title, '1', b.finalP1, P1Note), Section(P2Title, '2', b.finalP2, P2Note));
  }

  /** Every generated report is recognised as a prioritised one. */
  lemma GeneratedIsPriority(rawCount: nat, b: Buckets, show: set<Edge> -> string)
    requires Writable(b)
    ensures IsPriorityMode(ReportText(rawCount, b, show))
  {
    var head := "\n" + Rule('=') + "\n\n";
    var body := Body(b);
    var inner := head + body + Archive(b) + Warning(b, show);
    assert Contains(inner, P0Header) by {
      BodyHasP0(b);
      assert Contains(body, P0Header);
      ContainsInSuffix(head, body, P0Header);
      ContainsInPrefix(head + body, Archive(b), P0Header);
      ContainsInPrefix(head + body + Archive(b), Warning(b, show), P0Header);
    }
    assert Contains(Title(rawCount) + (Counts(b.stats) + inner), P0Header) by {
      ContainsInSuffix(Counts(b.stats), inner, P0Header);
      ContainsInSuffix(Title(rawCount), Counts(b.stats) + inner, P0Header);
    }
  }

  /** What load_run_data hands back as the parsed clusters: the prioritised
      reader's collection when the P0 header is present, the legacy reader's
      clusters otherwise. */
  function LoadParsed(reportText: string): (r: ParsedClusters)
    ensures r.PriorityCollection? <==> IsPriorityMode(reportText)
    ensures r.LegacyClusters? <==> !IsPriorityMode(reportText)
    ensures r.PriorityCollection? ==> r.collection == Collection(reportText)
  {
    if IsPriorityMode(reportText) then PriorityCollection(Collection(reportText))
    else LegacyClusters(Legacy.Clusters(reportText))
  }

  /** A generated report, saved and loaded again, is read by the prioritised
      reader and gives back its stats (from which CollectionCounts reads the
      saved counts). */
  lemma ReloadedCounts(rawCount: nat, b: Buckets, show: set<Edge> -> string)
    requires Writable(b)
    ensures var parsed := LoadParsed(ReportText(rawCount, b, show));
      parsed.PriorityCollection? && parsed.collection.stats == b.stats
  {
    GeneratedIsPriority(rawCount, b, show);
    ReadBack.StatsRoundTrip(rawCount, b, show);
    LoadedPriority(ReportText(rawCount, b, show), b.stats);
  }

  /** A text in the priority format loads as the prioritised reader's
      collection. */
  lemma LoadedPriority(t: string, st: Stats)
    requires IsPriorityMode(t) && Collection(t).stats == st
    ensures LoadParsed(t).PriorityCollection? && LoadParsed(t).collection.stats == st
  {
  }
}
