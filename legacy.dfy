/** The archetype report reader, ReportParser: one cluster per
    `--- [P0] ARCHETYPE #k` block, each with its P0 path and the P1 and P2
    variations listed under it. */
module Legacy {
  import opened Common
  import opened Text
  import opened Parser
  import Report

  datatype Path = Path(pathId: string, segments: seq<PathSegment>, length: nat)

  datatype Cluster = Cluster(archetypeId: nat, p0Path: Path, p1Paths: seq<Path>, p2Paths: seq<Path>)

  // ---------------------------------------------------------------------------
  // Splitting the report into archetype blocks.

  const Marker := "--- [P0] ARCHETYPE #"

  /** A match of `--- \[P0\] ARCHETYPE #(\d+)` at the start of t: the number
      and where the match ends. */
  function MarkerAt(t: string): (m: Option<(nat, nat)>)
    ensures m.Some? ==> 0 < m.value.1 <= |t|
  {
    NumberAfter(t, Marker)
  }

  /** The numbers of all markers from left to right, each search resuming
      where the previous match ended. */
  function Markers(t: string): seq<nat>
    decreases |t|
  {
    if t == [] then []
    else match MarkerAt(t)
      case Some((n, e)) => [n] + Markers(t[e..])
      case None => Markers(t[1..])
  }

  /** Where the first marker of t starts. */
  function NextMarker(t: string): (r: Option<nat>)
    ensures r.Some? ==> r.value < |t| && MarkerAt(t[r.value..]).Some?
    ensures r.Some? ==> forall j {:trigger MarkerAt(t[j..])} :: 0 <= j < r.value ==> MarkerAt(t[j..]).None?
    ensures r.None? ==> forall j {:trigger MarkerAt(t[j..])} :: 0 <= j < |t| ==> MarkerAt(t[j..]).None?
    decreases |t|
  {
    if t == [] then None
    else if MarkerAt(t).Some? then Some(0)
    else
      assert forall j :: 1 <= j <= |t| ==> t[1..][j - 1..] == t[j..];
      match NextMarker(t[1..])
      case Some(p) => Some(p + 1)
      case None => None
  }

  /** The text up to the next marker, or all of it. */
  function UpToMarker(t: string): (b: string)
    ensures b <= t
  {
    match NextMarker(t)
    case Some(p) => t[..p]
    case None => t
  }

  /** re.split of the text at the markers, without the text before the first
      one, and taken two by two: each marker's number with the text that
      follows it up to the next marker. */
  function Blocks(t: string): (bs: seq<(nat, string)>)
    decreases |t|
  {
    if t == [] then []
    else match MarkerAt(t)
      case Some((n, e)) => [(n, UpToMarker(t[e..]))] + Blocks(t[e..])
      case None => Blocks(t[1..])
  }

  function Numbers(bs: seq<(nat, string)>): (ns: seq<nat>)
    ensures |ns| == |bs| && forall i :: 0 <= i < |bs| ==> ns[i] == bs[i].0
  {
    if bs == [] then [] else Numbers(bs[..|bs| - 1]) + [bs[|bs| - 1].0]
  }

  lemma NumbersCons(b: (nat, string), bs: seq<(nat, string)>)
    ensures Numbers([b] + bs) == [b.0] + Numbers(bs)
  {
  }

  /** The blocks come in the order of the markers, one per marker. */
  lemma {:induction false} BlockNumbers(t: string)
    ensures Numbers(Blocks(t)) == Markers(t)
    decreases |t|
  {
    if t != [] {
      match MarkerAt(t)
      case Some((n, e)) =>
        BlockNumbers(t[e..]);
        NumbersCons((n, UpToMarker(t[e..])), Blocks(t[e..]));
      case None =>
        BlockNumbers(t[1..]);
    }
  }

  // ---------------------------------------------------------------------------
  // The lazy `(.*?)` groups of a cluster block and the lookaheads that end them.

  /** Which lookahead ends a group: `(?=>>>|\-{80}|$)`, `(?=\-{80}|$)`,
      `(?=P1\.\d+:|>>>|$)` or `(?=P2\.\d+:|$)`. */
  datatype Lookahead = ToNext | ToRule | ToP1Entry | ToP2Entry

  /** `Pn\.(\d+):` at the start of t: the digits as written and where the
      colon ends. */
  function EntryLabel(level: char, t: string): (m: Option<(string, nat)>)
    ensures m.Some? ==> |m.value.0| > 0 && |m.value.0| + 4 == m.value.1 <= |t|
  {
    if |t| > 3 && t[..3] == ['P', level, '.'] then
      var ds := Span(t[3..], Digit);
      if ds != [] && 3 + |ds| < |t| && t[3 + |ds|] == ':' then Some((ds, 4 + |ds|)) else None
    else None
  }

  /** `$` without MULTILINE holds at the end and before a final newline. */
  predicate Stops(la: Lookahead, u: string) {
    u == [] || u == "\n" ||
    match la
    case ToNext => ">>>" <= u || Report.Rule('-') <= u
    case ToRule => Report.Rule('-') <= u
    case ToP1Entry => EntryLabel('1', u).Some? || ">>>" <= u
    case ToP2Entry => EntryLabel('2', u).Some?
  }

  /** The length of a lazy `(.*?)` group: the first position where the
      lookahead holds. */
  function LazyUntil(la: Lookahead, u: string): (n: nat)
    ensures n <= |u| && Stops(la, u[n..])
    ensures forall j :: 0 <= j < n ==> !Stops(la, u[j..])
    decreases |u|
  {
    if Stops(la, u) then 0
    else
      var n := 1 + LazyUntil(la, u[1..]);
      assert forall j :: 1 <= j <= |u| ==> u[1..][j - 1..] == u[j..];
      n
  }

  /** `\(Length: (\d+)\) ---\n(.*?)(?=>>>|\-{80}|$)` at the start of t. */
  function P0At(t: string): Option<(nat, string)> {
    match NumberAfter(t, "(Length: ")
    case None => None
    case Some((n, i)) =>
      if ") ---\n" <= t[i..] then
        var b := i + 6;
        Some((n, t[b..b + LazyUntil(ToNext, t[b..])]))
      else None
  }

  /** re.search for the P0 path: the leftmost match. */
  function FindP0(t: string): Option<(nat, string)>
    decreases |t|
  {
    if P0At(t).Some? then P0At(t) else if t == [] then None else FindP0(t[1..])
  }

  const P1Marker := ">>> [P1] Major Variations"
  const P2Marker := ">>> [P2] Minor Differences"

  /** `header.*?\n(.*?)` with the lookahead la, at the start of t: the group
      starts after the first newline that follows the header. */
  function SectionBodyAt(t: string, header: string, la: Lookahead): Option<string> {
    if header <= t then
      match Find(t[|header|..], "\n")
      case None => None
      case Some(k) =>
        var b := |header| + k + 1;
        Some(t[b..b + LazyUntil(la, t[b..])])
    else None
  }

  function FindSectionBody(t: string, header: string, la: Lookahead): Option<string>
    decreases |t|
  {
    if SectionBodyAt(t, header, la).Some? then SectionBodyAt(t, header, la)
    else if t == [] then None
    else FindSectionBody(t[1..], header, la)
  }

  /** One match of `Pn\.(\d+): (.*?)` and its lookahead: the number as
      written, the path's text and where the match ends. */
  datatype Labelled = Labelled(number: string, body: string, end: nat)

  function LabelledAt(level: char, la: Lookahead, t: string): (m: Option<Labelled>)
    ensures m.Some? ==> 0 < m.value.end <= |t|
  {
    match EntryLabel(level, t)
    case None => None
    case Some((ds, i)) =>
      if i < |t| && t[i] == ' ' then
        var b := i + 1;
        var e := b + LazyUntil(la, t[b..]);
        Some(Labelled(ds, t[b..e], e))
      else None
  }

  /** re.findall of the entry pattern. */
  function LabelledScan(level: char, la: Lookahead, t: string): seq<Labelled>
    decreases |t|
  {
    if t == [] then []
    else match LabelledAt(level, la, t)
      case Some(f) => [f] + LabelledScan(level, la, t[f.end..])
      case None => LabelledScan(level, la, t[1..])
  }

  // ---------------------------------------------------------------------------
  // Clusters.

  /** A P1 or P2 path: `Pn-k.num` with the number as written, and a length
      that is its segment count. */
  function Variant(level: char, k: nat, f: Labelled): (p: Path)
    ensures p.length == |p.segments|
  {
    var segs := Segments(Strip(f.body));
    Path(['P', level, '-'] + Decimal(k) + "." + f.number, segs, |segs|)
  }

  function Variants(level: char, k: nat, fs: seq<Labelled>): (ps: seq<Path>)
    ensures |ps| == |fs| && forall i :: 0 <= i < |fs| ==> ps[i].length == |ps[i].segments|
  {
    if fs == [] then [] else Variants(level, k, fs[..|fs| - 1]) + [Variant(level, k, fs[|fs| - 1])]
  }

  lemma VariantsNext(level: char, k: nat, fs: seq<Labelled>, i: nat)
    requires i < |fs|
    ensures Variants(level, k, fs[..i + 1]) == Variants(level, k, fs[..i]) + [Variant(level, k, fs[i])]
  {
    assert fs[..i + 1][..i] == fs[..i];
  }

  /** The variations listed in a section, or none when the section is missing. */
  function SectionPaths(block: string, level: char, k: nat): (ps: seq<Path>)
    requires level == '1' || level == '2'
    ensures forall i :: 0 <= i < |ps| ==> ps[i].length == |ps[i].segments|
  {
    var (header, groupEnd, entryEnd) := if level == '1' then (P1Marker, ToNext, ToP1Entry) else (P2Marker, ToRule, ToP2Entry);
    match FindSectionBody(block, header, groupEnd)
    case None => []
    case Some(s) => Variants(level, k, LabelledScan(level, entryEnd, s))
  }

  /** The P0 path's length and stripped text, or 0 and "" without a match. */
  function P0Parts(block: string): (r: (nat, string))
    ensures FindP0(block).None? ==> r == (0, "")
  {
    match FindP0(block)
    case Some((n, body)) => (n, Strip(body))
    case None => (0, "")
  }

  /** _parse_cluster_block */
  function ClusterOf(k: nat, block: string): (c: Cluster)
    ensures c.archetypeId == k
  {
    var (p0Length, p0Text) := P0Parts(block);
    Cluster(k, Path("P0-" + Decimal(k), Segments(p0Text), p0Length),
            SectionPaths(block, '1', k), SectionPaths(block, '2', k))
  }

  /** The P0 path is `P0-k`, with length 0 and no segments when the block
      has no P0 path; a variation's length is its segment count. */
  lemma ClusterShape(k: nat, block: string)
    ensures var c := ClusterOf(k, block);
      c.p0Path.pathId == "P0-" + Decimal(k)
      && (FindP0(block).None? ==> c.p0Path.length == 0 && c.p0Path.segments == [])
      && (forall i :: 0 <= i < |c.p1Paths| ==> c.p1Paths[i].length == |c.p1Paths[i].segments|)
      && (forall i :: 0 <= i < |c.p2Paths| ==> c.p2Paths[i].length == |c.p2Paths[i].segments|)
  {
  }

  /** One cluster per block, in order. */
  function ClustersOf(bs: seq<(nat, string)>): (cs: seq<Cluster>)
    ensures |cs| == |bs|
  {
    seq(|bs|, i requires 0 <= i < |bs| => ClusterOf(bs[i].0, bs[i].1))
  }

  /** Each cluster carries the number of its block. */
  lemma ClusterIds(bs: seq<(nat, string)>)
    ensures forall i :: 0 <= i < |bs| ==> ClustersOf(bs)[i].archetypeId == bs[i].0
  {
    forall i | 0 <= i < |bs| ensures ClustersOf(bs)[i].archetypeId == bs[i].0 {
      assert ClustersOf(bs)[i] == ClusterOf(bs[i].0, bs[i].1);
    }
  }

  /** ReportParser.parse on the text of a report. */
  function Clusters(text: string): seq<Cluster> {
    ClustersOf(Blocks(text))
  }

  /** One cluster per archetype marker, numbered as the markers are, in the
      order they appear. */
  lemma ArchetypeIds(text: string)
    ensures |Clusters(text)| == |Markers(text)|
    ensures forall i :: 0 <= i < |Markers(text)| ==> Clusters(text)[i].archetypeId == Markers(text)[i]
  {
    BlockNumbers(text);
    ClusterIds(Blocks(text));
  }

  /** ReportParser; the file read becomes the text argument. */
  class ReportParser {
    var reportText: string

    constructor ()
      ensures reportText == ""
    {
      reportText := "";
    }

    method Parse(text: string) returns (clusters: seq<Cluster>)
      modifies this
      ensures reportText == text
      ensures clusters == Clusters(text)
    {
      reportText := text;
      var archetypeBlocks := Blocks(text);
      clusters := ParseBlocks(archetypeBlocks);
    }

    method ParseBlocks(archetypeBlocks: seq<(nat, string)>) returns (clusters: seq<Cluster>)
      ensures clusters == ClustersOf(archetypeBlocks)
    {
      clusters := [];
      for i := 0 to |archetypeBlocks|
        invariant clusters == ClustersOf(archetypeBlocks)[..i]
      {
        TakeSnoc(ClustersOf(archetypeBlocks), i);
        var cluster := ParseClusterBlock(archetypeBlocks[i].0, archetypeBlocks[i].1);
        clusters := clusters + [cluster];
      }
      assert ClustersOf(archetypeBlocks)[..|archetypeBlocks|] == ClustersOf(archetypeBlocks);
    }

    /** _parse_cluster_block */
    method ParseClusterBlock(archetypeNum: nat, blockContent: string) returns (cluster: Cluster)
      ensures cluster == ClusterOf(archetypeNum, blockContent)
    {
      var (p0Length, p0Text) := P0Parts(blockContent);
      var p0Segments := ParsePathSegments(p0Text);
      var p0Path := Path("P0-" + Decimal(archetypeNum), p0Segments, p0Length);
      var p1Paths := ParseVariants(blockContent, '1', archetypeNum);
      var p2Paths := ParseVariants(blockContent, '2', archetypeNum);
      cluster := Cluster(archetypeNum, p0Path, p1Paths, p2Paths);
    }

    /** The P1 or P2 part of _parse_cluster_block. */
    method ParseVariants(blockContent: string, level: char, archetypeNum: nat) returns (paths: seq<Path>)
      requires level == '1' || level == '2'
      ensures paths == SectionPaths(blockContent, level, archetypeNum)
    {
      paths := [];
      var (header, groupEnd, entryEnd) := if level == '1' then (P1Marker, ToNext, ToP1Entry) else (P2Marker, ToRule, ToP2Entry);
      var section := FindSectionBody(blockContent, header, groupEnd);
      if section.None? {
        return;
      }
      var matches := LabelledScan(level, entryEnd, section.value);
      for i := 0 to |matches|
        invariant paths == Variants(level, archetypeNum, matches[..i])
      {
        VariantsNext(level, archetypeNum, matches, i);
        var segments := ParsePathSegments(Strip(matches[i].body));
        var pathId := ['P', level, '-'] + Decimal(archetypeNum) + "." + matches[i].number;
        paths := paths + [Path(pathId, segments, |segments|)];
      }
      assert matches[..|matches|] == matches;
    }
  }
}
