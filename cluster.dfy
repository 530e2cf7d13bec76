/** cluster_paths: best-fit clustering of the enumerated paths by signature
    similarity. Records are sorted by length (stably), then each is compared
    with the archetype (p0) of every cluster made so far and joins the best one
    as a near-duplicate (p2) or a variation (p1), or starts a cluster of its own. */
module Cluster {
  import opened Common
  import opened Graph
  import opened Signature
  import Matcher

  /** One entry of path_data: the path, its signature and its edge count. */
  datatype PathRecord = PathRecord(raw: seq<Edge>, signature: seq<NodeId>, length: nat)

  /** A cluster: its archetype p0, the variations p1 and the near-duplicates p2. */
  datatype ClusterRec = ClusterRec(p0: PathRecord, p1: seq<PathRecord>, p2: seq<PathRecord>)

  /** THRESHOLD_P2_IDENTICAL and THRESHOLD_P1_VARIATION. */
  const IdenticalThreshold: real := 0.95
  const VariationThreshold: real := 0.70

  /** get_path_signature indexes path_tuples[0], so every path must have an edge. */
  predicate NonEmptyPaths(paths: seq<seq<Edge>>) {
    forall i :: 0 <= i < |paths| ==> |paths[i]| > 0
  }

  function Records(paths: seq<seq<Edge>>, start: NodeId, end: NodeId): (rs: seq<PathRecord>)
    requires NonEmptyPaths(paths)
    ensures |rs| == |paths|
    ensures forall i :: 0 <= i < |paths| ==>
      rs[i] == PathRecord(paths[i], PathSignature(paths[i], start, end), |paths[i]|)
  {
    seq(|paths|, i requires 0 <= i < |paths| => PathRecord(paths[i], PathSignature(paths[i], start, end), |paths[i]|))
  }

  // ---------------------------------------------------------------------------
  // path_data.sort(key=length): a stable sort

  predicate SortedByLength(rs: seq<PathRecord>) {
    forall i, j :: 0 <= i < j < |rs| ==> rs[i].length <= rs[j].length
  }

  /** Places r after every record that is no longer than it. */
  function Insert(s: seq<PathRecord>, r: PathRecord): (t: seq<PathRecord>)
    ensures multiset(t) == multiset(s) + multiset{r}
  {
    if s == [] || s[|s| - 1].length <= r.length then s + [r]
    else
      assert s == s[..|s| - 1] + [s[|s| - 1]];
      Insert(s[..|s| - 1], r) + [s[|s| - 1]]
  }

  lemma {:induction false} InsertSorted(s: seq<PathRecord>, r: PathRecord)
    requires SortedByLength(s)
    ensures SortedByLength(Insert(s, r))
  {
    if s != [] && s[|s| - 1].length > r.length {
      var last := s[|s| - 1];
      var t := Insert(s[..|s| - 1], r);
      InsertSorted(s[..|s| - 1], r);
      forall i | 0 <= i < |t| ensures t[i].length <= last.length {
        assert t[i] in multiset(t);
        assert t[i] == r || t[i] in multiset(s[..|s| - 1]);
      }
      assert Insert(s, r) == t + [last];
    }
  }

  function SortByLength(rs: seq<PathRecord>): (t: seq<PathRecord>)
    ensures multiset(t) == multiset(rs)
  {
    if rs == [] then []
    else
      assert rs == rs[..|rs| - 1] + [rs[|rs| - 1]];
      Insert(SortByLength(rs[..|rs| - 1]), rs[|rs| - 1])
  }

  lemma {:induction false} SortByLengthSorted(rs: seq<PathRecord>)
    ensures SortedByLength(SortByLength(rs))
  {
    if rs != [] {
      SortByLengthSorted(rs[..|rs| - 1]);
      InsertSorted(SortByLength(rs[..|rs| - 1]), rs[|rs| - 1]);
    }
  }

  /** The records of one length, in order. */
  function WithLength(rs: seq<PathRecord>, n: nat): seq<PathRecord> {
    if rs == [] then []
    else if rs[|rs| - 1].length == n then WithLength(rs[..|rs| - 1], n) + [rs[|rs| - 1]]
    else WithLength(rs[..|rs| - 1], n)
  }

  lemma WithLengthSnoc(rs: seq<PathRecord>, r: PathRecord, n: nat)
    ensures WithLength(rs + [r], n) == WithLength(rs, n) + (if r.length == n then [r] else [])
  {
    assert (rs + [r])[..|rs|] == rs;
  }

  lemma {:induction false} InsertStable(s: seq<PathRecord>, r: PathRecord, n: nat)
    requires SortedByLength(s)
    ensures WithLength(Insert(s, r), n) == WithLength(s, n) + (if r.length == n then [r] else [])
  {
    if s == [] || s[|s| - 1].length <= r.length {
      WithLengthSnoc(s, r, n);
    } else {
      var last := s[|s| - 1];
      assert s == s[..|s| - 1] + [last];
      InsertStable(s[..|s| - 1], r, n);
      WithLengthSnoc(Insert(s[..|s| - 1], r), last, n);
      WithLengthSnoc(s[..|s| - 1], last, n);
    }
  }

  /** The sort is stable: records of equal length keep their relative order. */
  lemma {:induction false} SortByLengthStable(rs: seq<PathRecord>, n: nat)
    ensures WithLength(SortByLength(rs), n) == WithLength(rs, n)
  {
    if rs != [] {
      var init, last := rs[..|rs| - 1], rs[|rs| - 1];
      assert rs == init + [last];
      SortByLengthStable(init, n);
      SortByLengthSorted(init);
      InsertStable(SortByLength(init), last, n);
      WithLengthSnoc(init, last, n);
    }
  }

  // ---------------------------------------------------------------------------
  // Pass 1: the best-scoring cluster. The clustering is stated for any
  // similarity function; cluster_paths uses SequenceMatcher's ratio.

  /** A similarity score of a cluster's p0 signature against a candidate's. */
  type Similarity = (seq<NodeId>, seq<NodeId>) -> real

  function Score(sim: Similarity, c: ClusterRec, sig: seq<NodeId>): real {
    sim(c.p0.signature, sig)
  }

  /** best_cluster (None until a cluster has scored above -1) and best_score. */
  datatype Choice = Choice(cluster: Option<nat>, score: real)

  /** Pass 1 over the first n clusters: a cluster wins only with a strictly
      higher score than the best so far, which starts at -1. */
  function BestOf(sim: Similarity, cs: seq<ClusterRec>, sig: seq<NodeId>, n: nat): (c: Choice)
    requires n <= |cs|
    ensures c.cluster.None? ==> c.score == -1.0
    ensures c.cluster.Some? ==> c.cluster.value < n && c.score == Score(sim, cs[c.cluster.value], sig)
  {
    if n == 0 then Choice(None, -1.0)
    else
      var prev := BestOf(sim, cs, sig, n - 1);
      var s := Score(sim, cs[n - 1], sig);
      if s > prev.score then Choice(Some(n - 1), s) else prev
  }

  /** Among the first n clusters, cluster b has the highest score against sig
      and every earlier one a strictly lower score. */
  predicate IsBest(sim: Similarity, cs: seq<ClusterRec>, sig: seq<NodeId>, n: nat, b: nat) {
    b < n <= |cs|
    && (forall j :: 0 <= j < n ==> Score(sim, cs[j], sig) <= Score(sim, cs[b], sig))
    && (forall j :: 0 <= j < b ==> Score(sim, cs[j], sig) < Score(sim, cs[b], sig))
  }

  /** Pass 1 finds the earliest cluster with the highest score, or none when
      every score is at most -1 (never, for a ratio). */
  lemma {:induction false} BestOfSpec(sim: Similarity, cs: seq<ClusterRec>, sig: seq<NodeId>, n: nat)
    requires n <= |cs|
    ensures BestOf(sim, cs, sig, n).cluster.Some? ==> IsBest(sim, cs, sig, n, BestOf(sim, cs, sig, n).cluster.value)
    ensures BestOf(sim, cs, sig, n).cluster.None? <==> forall j :: 0 <= j < n ==> Score(sim, cs[j], sig) <= -1.0
  {
    if n > 0 {
      BestOfSpec(sim, cs, sig, n - 1);
    }
  }

  /** There is at most one best cluster. */
  lemma BestUnique(sim: Similarity, cs: seq<ClusterRec>, sig: seq<NodeId>, n: nat, b: nat, b': nat)
    requires IsBest(sim, cs, sig, n, b) && IsBest(sim, cs, sig, n, b')
    ensures b == b'
  {
    var s, s' := Score(sim, cs[b], sig), Score(sim, cs[b'], sig);
    assert s <= s' && s' <= s;
  }

  // ---------------------------------------------------------------------------
  // Pass 2: placing one record

  /** The clusters after placing r: appended to the best cluster's p2 at a
      score of at least 0.95, to its p1 at a score of at least 0.70, otherwise
      as the p0 of a new cluster. */
  function Place(sim: Similarity, cs: seq<ClusterRec>, r: PathRecord): seq<ClusterRec> {
    var best := BestOf(sim, cs, r.signature, |cs|);
    if best.cluster.Some? && best.score >= IdenticalThreshold then
      var b := best.cluster.value;
      cs[b := cs[b].(p2 := cs[b].p2 + [r])]
    else if best.cluster.Some? && best.score >= VariationThreshold then
      var b := best.cluster.value;
      cs[b := cs[b].(p1 := cs[b].p1 + [r])]
    else
      cs + [ClusterRec(r, [], [])]
  }

  /** The threshold rules: a new cluster exactly when every archetype scores
      below 0.70; otherwise the record joins the best cluster (the earliest on
      equal scores) as p2 from 0.95 up and as p1 below that. */
  lemma PlaceSpec(sim: Similarity, cs: seq<ClusterRec>, r: PathRecord)
    ensures Place(sim, cs, r) == cs + [ClusterRec(r, [], [])]
        <==> forall j :: 0 <= j < |cs| ==> Score(sim, cs[j], r.signature) < VariationThreshold
    ensures forall b: nat ::
              (IsBest(sim, cs, r.signature, |cs|, b) && Score(sim, cs[b], r.signature) >= IdenticalThreshold
               ==> Place(sim, cs, r) == cs[b := cs[b].(p2 := cs[b].p2 + [r])])
    ensures forall b: nat ::
              (IsBest(sim, cs, r.signature, |cs|, b)
               && VariationThreshold <= Score(sim, cs[b], r.signature) < IdenticalThreshold
               ==> Place(sim, cs, r) == cs[b := cs[b].(p1 := cs[b].p1 + [r])])
  {
    var best := BestOf(sim, cs, r.signature, |cs|);
    BestOfSpec(sim, cs, r.signature, |cs|);
    if best.cluster.Some? && best.score >= VariationThreshold {
      assert |Place(sim, cs, r)| == |cs|;
    }
    forall b: nat | IsBest(sim, cs, r.signature, |cs|, b) && Score(sim, cs[b], r.signature) >= VariationThreshold
      ensures best.cluster == Some(b)
    {
      BestUnique(sim, cs, r.signature, |cs|, b, best.cluster.value);
    }
  }

  /** The clusters after placing every record in turn. */
  function ClusterAll(sim: Similarity, rs: seq<PathRecord>): seq<ClusterRec> {
    if rs == [] then [] else Place(sim, ClusterAll(sim, rs[..|rs| - 1]), rs[|rs| - 1])
  }

  // ---------------------------------------------------------------------------
  // Every record lands in exactly one cluster

  function Members(c: ClusterRec): multiset<PathRecord> {
    multiset{c.p0} + multiset(c.p1) + multiset(c.p2)
  }

  function AllMembers(cs: seq<ClusterRec>): multiset<PathRecord> {
    if cs == [] then multiset{} else AllMembers(cs[..|cs| - 1]) + Members(cs[|cs| - 1])
  }

  lemma MultisetSwap<T>(a: multiset<T>, x: multiset<T>, y: multiset<T>)
    ensures (a + x) + y == (a + y) + x
  {
  }

  lemma MultisetCancel<T>(a: multiset<T>, b: multiset<T>, m: multiset<T>, r: multiset<T>)
    requires a + m == b + (m + r)
    ensures a == b + r
  {
    calc {
      a;
      (a + m) - m;
      (b + (m + r)) - m;
      b + r;
    }
  }

  lemma AllMembersSnoc(cs: seq<ClusterRec>, c: ClusterRec)
    ensures AllMembers(cs + [c]) == AllMembers(cs) + Members(c)
  {
    assert (cs + [c])[..|cs|] == cs;
  }

  lemma {:induction false} AllMembersUpdate(cs: seq<ClusterRec>, b: nat, c: ClusterRec)
    requires b < |cs|
    ensures AllMembers(cs[b := c]) + Members(cs[b]) == AllMembers(cs) + Members(c)
  {
    var init, last := cs[..|cs| - 1], cs[|cs| - 1];
    assert cs == init + [last];
    if b < |cs| - 1 {
      assert cs[b := c] == init[b := c] + [last];
      AllMembersSnoc(init[b := c], last);
      AllMembersSnoc(init, last);
      AllMembersUpdate(init, b, c);
      MultisetSwap(AllMembers(init[b := c]), Members(last), Members(init[b]));
      MultisetSwap(AllMembers(init), Members(c), Members(last));
    } else {
      assert cs[b := c] == init + [c];
      AllMembersSnoc(init, c);
      AllMembersSnoc(init, last);
    }
  }

  lemma JoinMembers(cs: seq<ClusterRec>, b: nat, c: ClusterRec, r: PathRecord)
    requires b < |cs| && Members(c) == Members(cs[b]) + multiset{r}
    ensures AllMembers(cs[b := c]) == AllMembers(cs) + multiset{r}
  {
    AllMembersUpdate(cs, b, c);
    MultisetCancel(AllMembers(cs[b := c]), AllMembers(cs), Members(cs[b]), multiset{r});
  }

  lemma PlaceMembers(sim: Similarity, cs: seq<ClusterRec>, r: PathRecord)
    ensures AllMembers(Place(sim, cs, r)) == AllMembers(cs) + multiset{r}
  {
    var best := BestOf(sim, cs, r.signature, |cs|);
    if best.cluster.Some? && best.score >= IdenticalThreshold {
      var b := best.cluster.value;
      JoinMembers(cs, b, cs[b].(p2 := cs[b].p2 + [r]), r);
    } else if best.cluster.Some? && best.score >= VariationThreshold {
      var b := best.cluster.value;
      JoinMembers(cs, b, cs[b].(p1 := cs[b].p1 + [r]), r);
    } else {
      AllMembersSnoc(cs, ClusterRec(r, [], []));
    }
  }

  /** Clustering partitions its input: the cluster members, p0, p1 and p2
      together, are exactly the records, each as often as it occurs. */
  lemma {:induction false} ClusterAllPartition(sim: Similarity, rs: seq<PathRecord>)
    ensures AllMembers(ClusterAll(sim, rs)) == multiset(rs)
  {
    if rs != [] {
      var init := rs[..|rs| - 1];
      assert rs == init + [rs[|rs| - 1]];
      ClusterAllPartition(sim, init);
      PlaceMembers(sim, ClusterAll(sim, init), rs[|rs| - 1]);
    }
  }

  // ---------------------------------------------------------------------------
  // Clusters only grow: p0 is never replaced, p1 and p2 are only appended to

  predicate Extends(cs: seq<ClusterRec>, ds: seq<ClusterRec>) {
    |cs| <= |ds|
    && forall i :: 0 <= i < |cs| ==> ds[i].p0 == cs[i].p0 && cs[i].p1 <= ds[i].p1 && cs[i].p2 <= ds[i].p2
  }

  lemma PlaceExtends(sim: Similarity, cs: seq<ClusterRec>, r: PathRecord)
    ensures Extends(cs, Place(sim, cs, r))
    ensures |Place(sim, cs, r)| <= |cs| + 1
  {
  }

  /** Placing later records keeps every cluster formed from a prefix of the
      records: the same archetype, with its p1 and p2 lists extended. */
  lemma {:induction false} ClusterAllExtends(sim: Similarity, rs: seq<PathRecord>, k: nat)
    requires k <= |rs|
    ensures Extends(ClusterAll(sim, rs[..k]), ClusterAll(sim, rs))
    decreases |rs|
  {
    if k < |rs| {
      var init := rs[..|rs| - 1];
      assert rs[..k] == init[..k];
      ClusterAllExtends(sim, init, k);
      PlaceExtends(sim, ClusterAll(sim, init), rs[|rs| - 1]);
    } else {
      assert rs[..k] == rs;
    }
  }

  // ---------------------------------------------------------------------------
  // Members are appended in ascending length order

  predicate Ascending(c: ClusterRec) {
    SortedByLength([c.p0] + c.p1) && SortedByLength([c.p0] + c.p2)
  }

  predicate AtMost(c: ClusterRec, n: nat) {
    c.p0.length <= n
    && (forall i :: 0 <= i < |c.p1| ==> c.p1[i].length <= n)
    && (forall i :: 0 <= i < |c.p2| ==> c.p2[i].length <= n)
  }

  lemma PlaceAscending(sim: Similarity, cs: seq<ClusterRec>, r: PathRecord)
    requires forall i :: 0 <= i < |cs| ==> Ascending(cs[i]) && AtMost(cs[i], r.length)
    ensures forall i :: 0 <= i < |Place(sim, cs, r)| ==>
      Ascending(Place(sim, cs, r)[i]) && AtMost(Place(sim, cs, r)[i], r.length)
  {
    var best := BestOf(sim, cs, r.signature, |cs|);
    if best.cluster.Some? && best.score >= VariationThreshold {
      var b := best.cluster.value;
      var c := cs[b];
      assert c.p1 + [r] == (c.p1 + [r])[..|c.p1|] + [r];
      assert [c.p0] + (c.p1 + [r]) == ([c.p0] + c.p1) + [r];
      assert [c.p0] + (c.p2 + [r]) == ([c.p0] + c.p2) + [r];
    }
  }

  /** Given records sorted by length, every cluster lists p0 and then its p1
      members, and p0 and then its p2 members, in ascending length. */
  lemma {:induction false} ClusterAllAscending(sim: Similarity, rs: seq<PathRecord>)
    requires SortedByLength(rs)
    ensures forall i :: 0 <= i < |ClusterAll(sim, rs)| ==> Ascending(ClusterAll(sim, rs)[i])
    ensures rs != [] ==> forall i :: 0 <= i < |ClusterAll(sim, rs)| ==> AtMost(ClusterAll(sim, rs)[i], rs[|rs| - 1].length)
  {
    if rs != [] {
      var init, r := rs[..|rs| - 1], rs[|rs| - 1];
      ClusterAllAscending(sim, init);
      PlaceAscending(sim, ClusterAll(sim, init), r);
    }
  }

  // ---------------------------------------------------------------------------
  // cluster_paths

  /** cluster_paths: builds path_data, sorts it by length and places each
      record, scoring it with SequenceMatcher's ratio against every archetype. */
  method ClusterPaths(paths: seq<seq<Edge>>, start: NodeId, end: NodeId) returns (clusters: seq<ClusterRec>)
    requires NonEmptyPaths(paths)
    ensures clusters == ClusterAll(Matcher.Ratio, SortByLength(Records(paths, start, end)))
  {
    var pathData: seq<PathRecord> := [];
    for k := 0 to |paths|
      invariant pathData == Records(paths[..k], start, end)
    {
      var sig := GetPathSignature(paths[k], start, end);
      pathData := pathData + [PathRecord(paths[k], sig, |paths[k]|)];
    }
    assert paths[..|paths|] == paths;
    pathData := SortByLength(pathData);
    clusters := PlaceAll(Matcher.Ratio, pathData);
  }

  /** The clusters cluster_paths returns hold every path exactly once, and
      each lists its members in ascending length order. */
  lemma ClusterPathsSpec(paths: seq<seq<Edge>>, start: NodeId, end: NodeId)
    requires NonEmptyPaths(paths)
    ensures var rs := Records(paths, start, end);
      AllMembers(ClusterAll(Matcher.Ratio, SortByLength(rs))) == multiset(rs)
    ensures var cs := ClusterAll(Matcher.Ratio, SortByLength(Records(paths, start, end)));
      forall i :: 0 <= i < |cs| ==> Ascending(cs[i])
  {
    var rs := Records(paths, start, end);
    ClusterAllPartition(Matcher.Ratio, SortByLength(rs));
    SortByLengthSorted(rs);
    ClusterAllAscending(Matcher.Ratio, SortByLength(rs));
  }

  /** The loop over path_data: pass 1 scores the record against every
      archetype, pass 2 places it. */
  method PlaceAll(sim: Similarity, pathData: seq<PathRecord>) returns (clusters: seq<ClusterRec>)
    ensures clusters == ClusterAll(sim, pathData)
  {
    clusters := [];
    for n := 0 to |pathData|
      invariant clusters == ClusterAll(sim, pathData[..n])
    {
      var current := pathData[n];
      var bestCluster: Option<nat> := None;
      var bestScore := -1.0;
      for k := 0 to |clusters|
        invariant Choice(bestCluster, bestScore) == BestOf(sim, clusters, current.signature, k)
      {
        var score := sim(clusters[k].p0.signature, current.signature);
        if score > bestScore {
          bestScore := score;
          bestCluster := Some(k);
        }
      }
      if bestCluster.Some? && bestScore >= IdenticalThreshold {
        var b := bestCluster.value;
        clusters := clusters[b := clusters[b].(p2 := clusters[b].p2 + [current])];
      } else if bestCluster.Some? && bestScore >= VariationThreshold {
        var b := bestCluster.value;
        clusters := clusters[b := clusters[b].(p1 := clusters[b].p1 + [current])];
      } else {
        clusters := clusters + [ClusterRec(current, [], [])];
      }
      assert pathData[..n + 1][..n] == pathData[..n];
    }
    assert pathData[..|pathData|] == pathData;
  }
}
