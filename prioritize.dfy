/** prioritize_paths: re-buckets the clustered paths by edge coverage. Every
    archetype becomes a golden path (P0); then variations are picked greedily
    while they cover linear edges no chosen path covers (P1), then for each
    self-loop edge still uncovered the shortest path through it is picked (P2);
    whatever is left is archived (P3). */
module Prioritize {
  import opened Common
  import opened Graph
  import opened Cluster

  // ---------------------------------------------------------------------------
  // Edge sets

  function EdgeSet(r: PathRecord): set<Edge> {
    set e | e in r.raw
  }

  /** The edges of a list of paths (what _harvest_edges adds). */
  function EdgesOf(rs: seq<PathRecord>): (es: set<Edge>)
    ensures forall i :: 0 <= i < |rs| ==> EdgeSet(rs[i]) <= es
  {
    if rs == [] then {} else EdgesOf(rs[..|rs| - 1]) + EdgeSet(rs[|rs| - 1])
  }

  lemma {:induction false} EdgesOfAppend(a: seq<PathRecord>, b: seq<PathRecord>)
    ensures EdgesOf(a + b) == EdgesOf(a) + EdgesOf(b)
    decreases |b|
  {
    if b == [] {
      assert a + b == a;
    } else {
      assert (a + b)[..|a + b| - 1] == a + b[..|b| - 1];
      EdgesOfAppend(a, b[..|b| - 1]);
    }
  }

  /** An edge of some path in rs lies in a path of rs. */
  lemma {:induction false} EdgesOfWitness(rs: seq<PathRecord>, e: Edge) returns (j: nat)
    requires e in EdgesOf(rs)
    ensures j < |rs| && e in rs[j].raw
  {
    var init := rs[..|rs| - 1];
    if e in EdgesOf(init) {
      j := EdgesOfWitness(init, e);
    } else {
      j := |rs| - 1;
    }
  }

  /** candidate_pool.pop(i) */
  function RemoveAt(s: seq<PathRecord>, i: nat): (t: seq<PathRecord>)
    requires i < |s|
    ensures |t| == |s| - 1
  {
    s[..i] + s[i + 1..]
  }

  lemma RemoveAtMultiset(s: seq<PathRecord>, i: nat)
    requires i < |s|
    ensures multiset(s) == multiset(RemoveAt(s, i)) + multiset{s[i]}
  {
    assert s == s[..i] + [s[i]] + s[i + 1..];
  }

  lemma EdgesOfSingle(r: PathRecord)
    ensures EdgesOf([r]) == EdgeSet(r)
  {
    assert [r][..0] == [];
  }

  /** The edges of a, x, b are those of a and b plus x's. */
  lemma EdgesOfSplit(a: seq<PathRecord>, x: PathRecord, b: seq<PathRecord>)
    ensures EdgesOf(a + [x] + b) == EdgesOf(a + b) + EdgeSet(x)
  {
    EdgesOfAppend(a + [x], b);
    EdgesOfAppend(a, [x]);
    EdgesOfAppend(a, b);
    EdgesOfSingle(x);
  }

  lemma RemoveAtEdges(s: seq<PathRecord>, i: nat)
    requires i < |s|
    ensures EdgesOf(s) == EdgesOf(RemoveAt(s, i)) + EdgeSet(s[i])
  {
    SplitAt(s, i);
    EdgesOfSplit(s[..i], s[i], s[i + 1..]);
  }

  lemma RemoveAtOrder(s: seq<PathRecord>, i: nat)
    requires i < |s|
    ensures Subsequence(RemoveAt(s, i), s)
  {
    SubsequenceRemove(s, i);
  }

  // ---------------------------------------------------------------------------
  // Setup: the archetypes, the candidate pool and the edge universe

  function P0s(cs: seq<ClusterRec>): (ps: seq<PathRecord>)
    ensures |ps| == |cs| && forall i :: 0 <= i < |cs| ==> ps[i] == cs[i].p0
  {
    seq(|cs|, i requires 0 <= i < |cs| => cs[i].p0)
  }

  /** Each cluster's p1 members, then its p2 members, cluster by cluster. */
  function Pool(cs: seq<ClusterRec>): seq<PathRecord> {
    if cs == [] then [] else Pool(cs[..|cs| - 1]) + cs[|cs| - 1].p1 + cs[|cs| - 1].p2
  }

  function Universe(cs: seq<ClusterRec>): set<Edge> {
    EdgesOf(P0s(cs)) + EdgesOf(Pool(cs))
  }

  function LinearEdges(es: set<Edge>): set<Edge> {
    set e | e in es && e.source != e.target
  }

  function LoopEdges(es: set<Edge>): set<Edge> {
    set e | e in es && e.source == e.target
  }

  // ---------------------------------------------------------------------------
  // Phase 2 selection

  /** The number of distinct edges of r that are still uncovered. */
  function Gain(r: PathRecord, uncovered: set<Edge>): nat {
    |EdgeSet(r) * uncovered|
  }

  /** best_candidate (as a pool index) and best_score. */
  datatype Lead = Lead(candidate: Option<nat>, score: nat)

  /** The phase-2 scan over the first n candidates, by any score: a higher
      score wins; an equal positive score wins only with a strictly shorter
      path. */
  function ScanBy(pool: seq<PathRecord>, score: PathRecord -> nat, n: nat): (l: Lead)
    requires n <= |pool|
    ensures l.candidate.Some? <==> l.score > 0
    ensures l.candidate.Some? ==> l.candidate.value < n && l.score == score(pool[l.candidate.value])
  {
    if n == 0 then Lead(None, 0)
    else
      var prev := ScanBy(pool, score, n - 1);
      var s := score(pool[n - 1]);
      if s > prev.score then Lead(Some(n - 1), s)
      else if s == prev.score && prev.score > 0 && pool[n - 1].length < pool[prev.candidate.value].length then
        Lead(Some(n - 1), prev.score)
      else prev
  }

  /** Among the first n candidates, i has the highest score, the shortest
      length among those with that score, and the lowest index among those. */
  predicate Best(pool: seq<PathRecord>, score: PathRecord -> nat, n: nat, i: nat)
    requires n <= |pool|
  {
    i < n
    && (forall j :: 0 <= j < n ==> score(pool[j]) <= score(pool[i]))
    && (forall j :: 0 <= j < n && score(pool[j]) == score(pool[i]) ==> pool[i].length <= pool[j].length)
    && (forall j :: 0 <= j < i && score(pool[j]) == score(pool[i]) ==> pool[i].length < pool[j].length)
  }

  /** The scan picks the best candidate, and none exactly when every score
      is zero. */
  predicate ScanByOk(pool: seq<PathRecord>, score: PathRecord -> nat, n: nat)
    requires n <= |pool|
  {
    var l := ScanBy(pool, score, n);
    (l.candidate.None? <==> forall j :: 0 <= j < n ==> score(pool[j]) == 0)
    && (l.candidate.Some? ==> Best(pool, score, n, l.candidate.value))
  }

  lemma {:induction false} ScanBySpec(pool: seq<PathRecord>, score: PathRecord -> nat, n: nat)
    requires n <= |pool|
    ensures ScanByOk(pool, score, n)
  {
    if n > 0 {
      ScanBySpec(pool, score, n - 1);
      var prev := ScanBy(pool, score, n - 1);
      var s := score(pool[n - 1]);
      if s > prev.score {
        ScanByRaise(pool, score, n);
      } else if s == prev.score && prev.score > 0 && pool[n - 1].length < pool[prev.candidate.value].length {
        ScanByShorter(pool, score, n);
      } else if prev.candidate.Some? {
        ScanByKeep(pool, score, n);
      } else {
        ScanByNone(pool, score, n);
      }
    }
  }

  lemma ScanByRaise(pool: seq<PathRecord>, score: PathRecord -> nat, n: nat)
    requires 0 < n <= |pool| && ScanByOk(pool, score, n - 1)
    requires score(pool[n - 1]) > ScanBy(pool, score, n - 1).score
    ensures ScanByOk(pool, score, n)
  {
    assert ScanBy(pool, score, n) == Lead(Some(n - 1), score(pool[n - 1]));
  }

  lemma ScanByShorter(pool: seq<PathRecord>, score: PathRecord -> nat, n: nat)
    requires 0 < n <= |pool| && ScanByOk(pool, score, n - 1)
    requires var prev := ScanBy(pool, score, n - 1);
      prev.candidate.Some? && score(pool[n - 1]) == prev.score && prev.score > 0
      && pool[n - 1].length < pool[prev.candidate.value].length
    ensures ScanByOk(pool, score, n)
  {
    assert ScanBy(pool, score, n).candidate == Some(n - 1);
  }

  lemma ScanByKeep(pool: seq<PathRecord>, score: PathRecord -> nat, n: nat)
    requires 0 < n <= |pool| && ScanByOk(pool, score, n - 1)
    requires var prev := ScanBy(pool, score, n - 1);
      prev.candidate.Some? && score(pool[n - 1]) <= prev.score
      && !(score(pool[n - 1]) == prev.score && pool[n - 1].length < pool[prev.candidate.value].length)
    ensures ScanByOk(pool, score, n)
  {
    assert ScanBy(pool, score, n) == ScanBy(pool, score, n - 1);
  }

  lemma ScanByNone(pool: seq<PathRecord>, score: PathRecord -> nat, n: nat)
    requires 0 < n <= |pool| && ScanByOk(pool, score, n - 1)
    requires ScanBy(pool, score, n - 1).candidate.None? && score(pool[n - 1]) == 0
    ensures ScanByOk(pool, score, n)
  {
    assert ScanBy(pool, score, n).candidate.None?;
  }

  /** The phase-2 scan: candidates scored by their gain. */
  function ScanGain(pool: seq<PathRecord>, uncovered: set<Edge>, n: nat): (l: Lead)
    requires n <= |pool|
    ensures l.candidate.Some? <==> l.score > 0
    ensures l.candidate.Some? ==> l.candidate.value < n && l.score == Gain(pool[l.candidate.value], uncovered)
  {
    ScanBy(pool, r => Gain(r, uncovered), n)
  }

  /** The phase-2 choice: the candidate with the most still-uncovered linear
      edges, ties going to the shorter path and then the earlier one; no
      candidate at all when every gain is zero. */
  lemma ScanGainSpec(pool: seq<PathRecord>, uncovered: set<Edge>, n: nat)
    requires n <= |pool|
    ensures ScanGain(pool, uncovered, n).candidate.None? <==> forall j :: 0 <= j < n ==> Gain(pool[j], uncovered) == 0
    ensures ScanGain(pool, uncovered, n).candidate.Some? ==>
      var i := ScanGain(pool, uncovered, n).candidate.value;
      (forall j :: 0 <= j < n ==> Gain(pool[j], uncovered) <= Gain(pool[i], uncovered))
      && (forall j :: 0 <= j < n && Gain(pool[j], uncovered) == Gain(pool[i], uncovered) ==> pool[i].length <= pool[j].length)
      && (forall j :: 0 <= j < i && Gain(pool[j], uncovered) == Gain(pool[i], uncovered) ==> pool[i].length < pool[j].length)
  {
    ScanBySpec(pool, r => Gain(r, uncovered), n);
  }

  // ---------------------------------------------------------------------------
  // Phase 3 selection

  /** The phase-3 scan over the first n candidates: the first of the shortest
      candidates whose path contains the target edge. */
  function ScanLoop(pool: seq<PathRecord>, target: Edge, n: nat): (c: Option<nat>)
    requires n <= |pool|
    ensures c.Some? ==> c.value < n && target in pool[c.value].raw
  {
    if n == 0 then None
    else
      var prev := ScanLoop(pool, target, n - 1);
      if target in pool[n - 1].raw && (prev.None? || pool[n - 1].length < pool[prev.value].length) then Some(n - 1)
      else prev
  }

  /** The phase-3 choice: a shortest candidate containing the target loop, the
      earliest on equal lengths; none exactly when no candidate contains it. */
  lemma {:induction false} ScanLoopSpec(pool: seq<PathRecord>, target: Edge, n: nat)
    requires n <= |pool|
    ensures ScanLoop(pool, target, n).None? <==> forall j :: 0 <= j < n ==> target !in pool[j].raw
    ensures ScanLoop(pool, target, n).Some? ==>
      var i := ScanLoop(pool, target, n).value;
      (forall j :: 0 <= j < n && target in pool[j].raw ==> pool[i].length <= pool[j].length)
      && (forall j :: 0 <= j < i && target in pool[j].raw ==> pool[i].length < pool[j].length)
  {
    if n > 0 {
      ScanLoopSpec(pool, target, n - 1);
    }
  }

  // ---------------------------------------------------------------------------
  // The greedy phases

  /** The state the greedy loops thread: the candidate pool, the covered
      edges, the paths chosen so far and the edges given up on. */
  datatype Progress = Progress(pool: seq<PathRecord>, covered: set<Edge>, chosen: seq<PathRecord>, skipped: set<Edge>)

  /** Moves pool[i] to the chosen paths and covers its edges. */
  function Take(s: Progress, i: nat): Progress
    requires i < |s.pool|
  {
    Progress(RemoveAt(s.pool, i), s.covered + EdgeSet(s.pool[i]), s.chosen + [s.pool[i]], s.skipped)
  }

  /** Phase 2, from state s to the end of its loop. */
  function Discover(linear: set<Edge>, s: Progress): Progress
    decreases |s.pool|
  {
    var uncovered := linear - s.covered;
    if uncovered == {} then s
    else if s.pool == [] then s.(skipped := s.skipped + uncovered)
    else
      var best := ScanGain(s.pool, uncovered, |s.pool|);
      if best.score == 0 then s.(skipped := s.skipped + uncovered)
      else Discover(linear, Take(s, best.candidate.value))
  }

  /** next(iter(s)): some element of a non-empty set. Python's set order is not
      modelled; pick stands for whatever element it yields. */
  ghost predicate IsChoice(pick: set<Edge> -> Edge) {
    forall s: set<Edge> :: s != {} ==> pick(s) in s
  }

  /** Phase 3, from state s to the end of its loop. */
  function Stress(loops: set<Edge>, pick: set<Edge> -> Edge, s: Progress): Progress
    requires IsChoice(pick)
    decreases |s.pool|, |loops - s.covered|
  {
    var uncovered := loops - s.covered;
    if uncovered == {} then s
    else if s.pool == [] then s.(skipped := s.skipped + uncovered)
    else
      var target := pick(uncovered);
      match ScanLoop(s.pool, target, |s.pool|)
      case Some(i) => Stress(loops, pick, Take(s, i))
      case None =>
        assert target in uncovered;
        assert loops - (s.covered + {target}) == uncovered - {target};
        Stress(loops, pick, s.(covered := s.covered + {target}, skipped := s.skipped + {target}))
  }

  /** The four buckets, the edges given up on, and the counts. */
  datatype Stats = Stats(p0Count: nat, p1Count: nat, p2Count: nat, p3Count: nat)

  datatype Buckets = Buckets(
    finalP0: seq<PathRecord>, finalP1: seq<PathRecord>, finalP2: seq<PathRecord>, finalP3: seq<PathRecord>,
    skippedEdges: set<Edge>, skippedLoops: set<Edge>, stats: Stats)

  /** What prioritize_paths returns for the clusters. */
  function Prioritized(cs: seq<ClusterRec>, pick: set<Edge> -> Edge): Buckets
    requires IsChoice(pick)
  {
    var linear, loops := AfterLinear(cs), AfterLoops(cs, pick);
    Buckets(P0s(cs), linear.chosen, loops.chosen, loops.pool, linear.skipped, loops.skipped,
            Stats(|cs|, |linear.chosen|, |loops.chosen|, |loops.pool|))
  }

  // ---------------------------------------------------------------------------
  // What the greedy phases keep

  /** Every edge of the universe is covered or lies in a pool path; the pool's
      edges are in the universe; nothing has been given up on; and the covered
      edges are those of base and of the chosen paths. */
  predicate Sound(universe: set<Edge>, base: set<Edge>, s: Progress) {
    universe <= s.covered + EdgesOf(s.pool)
    && EdgesOf(s.pool) <= universe
    && s.skipped == {}
    && s.covered == base + EdgesOf(s.chosen)
  }

  lemma TakeSound(universe: set<Edge>, base: set<Edge>, s: Progress, i: nat)
    requires i < |s.pool| && Sound(universe, base, s)
    ensures Sound(universe, base, Take(s, i))
    ensures multiset(Take(s, i).chosen + Take(s, i).pool) == multiset(s.chosen + s.pool)
    ensures Subsequence(Take(s, i).pool, s.pool)
    ensures s.chosen <= Take(s, i).chosen
  {
    var t := Take(s, i);
    RemoveAtMultiset(s.pool, i);
    RemoveAtEdges(s.pool, i);
    RemoveAtOrder(s.pool, i);
    assert t.chosen[..|s.chosen|] == s.chosen;
    calc {
      multiset(t.chosen + t.pool);
      multiset(s.chosen) + multiset{s.pool[i]} + multiset(t.pool);
      multiset(s.chosen) + multiset(s.pool);
    }
  }

  /** Phase 2 ends with every linear edge covered, gives up on none, and moves
      paths from the pool to P1 without losing or reordering any. */
  lemma {:induction false} DiscoverSpec(linear: set<Edge>, universe: set<Edge>, base: set<Edge>, s: Progress)
    requires linear <= universe && Sound(universe, base, s)
    ensures var t := Discover(linear, s);
      Sound(universe, base, t) && linear <= t.covered
      && multiset(t.chosen + t.pool) == multiset(s.chosen + s.pool)
      && Subsequence(t.pool, s.pool) && s.chosen <= t.chosen
    decreases |s.pool|
  {
    if linear - s.covered == {} {
      assert Discover(linear, s) == s;
      forall x | x in linear ensures x in s.covered {
        assert x !in linear - s.covered;
      }
      SubsequenceRefl(s.pool);
    } else {
      var i := DiscoverPicks(linear, universe, base, s);
      var t := Take(s, i);
      TakeSound(universe, base, s, i);
      DiscoverSpec(linear, universe, base, t);
      SubsequenceTrans(Discover(linear, t).pool, t.pool, s.pool);
    }
  }

  /** While a linear edge is uncovered, some pool path holds it, so phase 2
      takes a candidate with a positive gain. */
  lemma DiscoverPicks(linear: set<Edge>, universe: set<Edge>, base: set<Edge>, s: Progress) returns (i: nat)
    requires linear <= universe && Sound(universe, base, s) && linear - s.covered != {}
    ensures i < |s.pool| && Discover(linear, s) == Discover(linear, Take(s, i))
  {
    var uncovered := linear - s.covered;
    var e :| e in uncovered;
    var j := EdgesOfWitness(s.pool, e);
    assert e in EdgeSet(s.pool[j]) * uncovered;
    ScanGainSpec(s.pool, uncovered, |s.pool|);
    i := ScanGain(s.pool, uncovered, |s.pool|).candidate.value;
  }

  /** Phase 3 ends with every loop edge covered, gives up on none, and moves
      paths from the pool to P2 without losing or reordering any. */
  lemma {:induction false} StressSpec(loops: set<Edge>, pick: set<Edge> -> Edge, universe: set<Edge>, base: set<Edge>, s: Progress)
    requires IsChoice(pick) && loops <= universe && Sound(universe, base, s)
    ensures var t := Stress(loops, pick, s);
      Sound(universe, base, t) && loops <= t.covered
      && multiset(t.chosen + t.pool) == multiset(s.chosen + s.pool)
      && Subsequence(t.pool, s.pool) && s.chosen <= t.chosen
    decreases |s.pool|
  {
    var uncovered := loops - s.covered;
    if uncovered == {} {
      assert Stress(loops, pick, s) == s;
      forall x | x in loops ensures x in s.covered {
        assert x !in uncovered;
      }
      SubsequenceRefl(s.pool);
    } else {
      var target := pick(uncovered);
      assert target in uncovered;
      var j := EdgesOfWitness(s.pool, target);
      ScanLoopSpec(s.pool, target, |s.pool|);
      var i := ScanLoop(s.pool, target, |s.pool|).value;
      var t := Take(s, i);
      assert Stress(loops, pick, s) == Stress(loops, pick, t);
      TakeSound(universe, base, s, i);
      StressSpec(loops, pick, universe, base, t);
      SubsequenceTrans(Stress(loops, pick, t).pool, t.pool, s.pool);
    }
  }

  lemma LinearLoopSplit(es: set<Edge>)
    ensures es == LinearEdges(es) + LoopEdges(es)
  {
  }

  /** The state after phase 2, and after phase 3, as Prioritized computes them. */
  function AfterLinear(cs: seq<ClusterRec>): Progress {
    Discover(LinearEdges(Universe(cs)), Progress(Pool(cs), EdgesOf(P0s(cs)), [], {}))
  }

  function AfterLoops(cs: seq<ClusterRec>, pick: set<Edge> -> Edge): Progress
    requires IsChoice(pick)
  {
    var linear := AfterLinear(cs);
    Stress(LoopEdges(Universe(cs)), pick, Progress(linear.pool, linear.covered, [], {}))
  }

  lemma LinearPhaseSpec(cs: seq<ClusterRec>)
    ensures var linear := AfterLinear(cs);
      Sound(Universe(cs), EdgesOf(P0s(cs)), linear) && LinearEdges(Universe(cs)) <= linear.covered
      && multiset(linear.chosen + linear.pool) == multiset(Pool(cs)) && Subsequence(linear.pool, Pool(cs))
  {
    var universe := Universe(cs);
    DiscoverSpec(LinearEdges(universe), universe, EdgesOf(P0s(cs)), Progress(Pool(cs), EdgesOf(P0s(cs)), [], {}));
  }

  lemma LoopPhaseSpec(cs: seq<ClusterRec>, pick: set<Edge> -> Edge)
    requires IsChoice(pick)
    ensures var linear, loops := AfterLinear(cs), AfterLoops(cs, pick);
      Sound(Universe(cs), linear.covered, loops) && LoopEdges(Universe(cs)) <= loops.covered
      && multiset(loops.chosen + loops.pool) == multiset(linear.pool) && Subsequence(loops.pool, linear.pool)
  {
    var universe := Universe(cs);
    var linear := AfterLinear(cs);
    LinearPhaseSpec(cs);
    StressSpec(LoopEdges(universe), pick, universe, linear.covered, Progress(linear.pool, linear.covered, [], {}));
  }

  /** prioritize_paths loses and duplicates nothing, keeps the archetypes as
      they are and the archive in pool order, and counts each bucket. */
  lemma PrioritizedKeeps(cs: seq<ClusterRec>, pick: set<Edge> -> Edge)
    requires IsChoice(pick)
    ensures var b := Prioritized(cs, pick);
      b.finalP0 == P0s(cs)
      && multiset(b.finalP0 + b.finalP1 + b.finalP2 + b.finalP3) == multiset(P0s(cs) + Pool(cs))
      && Subsequence(b.finalP3, Pool(cs))
      && b.stats == Stats(|b.finalP0|, |b.finalP1|, |b.finalP2|, |b.finalP3|)
  {
    var linear, loops := AfterLinear(cs), AfterLoops(cs, pick);
    LinearPhaseSpec(cs);
    LoopPhaseSpec(cs, pick);
    Assemble(P0s(cs), Pool(cs), linear.chosen, linear.pool, loops.chosen, loops.pool);
    SubsequenceTrans(loops.pool, linear.pool, Pool(cs));
  }

  /** prioritize_paths never gives up on an edge, and covers every harvested
      edge with a P0, P1 or P2 path, so every P3 path's edges are already
      covered. */
  lemma PrioritizedCovers(cs: seq<ClusterRec>, pick: set<Edge> -> Edge)
    requires IsChoice(pick)
    ensures var b := Prioritized(cs, pick);
      b.skippedEdges == {} && b.skippedLoops == {}
      && Universe(cs) <= EdgesOf(b.finalP0 + b.finalP1 + b.finalP2)
      && EdgesOf(b.finalP3) <= EdgesOf(b.finalP0 + b.finalP1 + b.finalP2)
  {
    var linear, loops := AfterLinear(cs), AfterLoops(cs, pick);
    LinearPhaseSpec(cs);
    LoopPhaseSpec(cs, pick);
    LinearLoopSplit(Universe(cs));
    EdgesOfAppend(P0s(cs), linear.chosen);
    EdgesOfAppend(P0s(cs) + linear.chosen, loops.chosen);
  }

  lemma Assemble(p0s: seq<PathRecord>, pool: seq<PathRecord>, p1: seq<PathRecord>, mid: seq<PathRecord>,
                 p2: seq<PathRecord>, p3: seq<PathRecord>)
    requires multiset(p1 + mid) == multiset(pool) && multiset(p2 + p3) == multiset(mid)
    ensures multiset(p0s + p1 + p2 + p3) == multiset(p0s + pool)
  {
    calc {
      multiset(p0s + p1 + p2 + p3);
      multiset(p0s) + multiset(p1) + multiset(p2 + p3);
      multiset(p0s) + multiset(p1) + multiset(mid);
      multiset(p0s) + multiset(p1 + mid);
      multiset(p0s + pool);
    }
  }

  // ---------------------------------------------------------------------------
  // prioritize_paths

  /** for edge in path['raw']: covered_edges.add(edge) */
  method CoverPath(covered: set<Edge>, r: PathRecord) returns (result: set<Edge>)
    ensures result == covered + EdgeSet(r)
  {
    result := covered;
    for k := 0 to |r.raw|
      invariant result == covered + set e | e in r.raw[..k]
    {
      result := result + {r.raw[k]};
    }
    assert r.raw[..|r.raw|] == r.raw;
  }

  /** _harvest_edges: adds every edge of every path. */
  method HarvestEdges(allEdges: set<Edge>, paths: seq<PathRecord>) returns (result: set<Edge>)
    ensures result == allEdges + EdgesOf(paths)
  {
    result := allEdges;
    for k := 0 to |paths|
      invariant result == allEdges + EdgesOf(paths[..k])
    {
      assert paths[..k + 1][..k] == paths[..k];
      result := CoverPath(result, paths[k]);
    }
    assert paths[..|paths|] == paths;
  }

  /** The phase-2 scan: the candidate covering the most uncovered linear
      edges, and how many it covers (ScanGainSpec). */
  method MostGain(candidatePool: seq<PathRecord>, uncoveredLinear: set<Edge>)
    returns (bestCandidate: Option<nat>, bestScore: nat)
    ensures Lead(bestCandidate, bestScore) == ScanGain(candidatePool, uncoveredLinear, |candidatePool|)
  {
    bestCandidate, bestScore := None, 0;
    for i := 0 to |candidatePool|
      invariant Lead(bestCandidate, bestScore) == ScanGain(candidatePool, uncoveredLinear, i)
    {
      var pathEdges := EdgeSet(candidatePool[i]);
      var score := |pathEdges * uncoveredLinear|;
      if score > bestScore {
        bestScore := score;
        bestCandidate := Some(i);
      } else if score == bestScore && bestScore > 0 {
        if candidatePool[i].length < candidatePool[bestCandidate.value].length {
          bestCandidate := Some(i);
        }
      }
    }
  }

  /** Phase 2: while some linear edge is uncovered, move the candidate that
      covers the most of them to P1. */
  method DiscoverLinear(targetLinear: set<Edge>, pool0: seq<PathRecord>, covered0: set<Edge>)
    returns (finalP1: seq<PathRecord>, candidatePool: seq<PathRecord>, covered: set<Edge>, skippedEdges: set<Edge>)
    ensures Progress(candidatePool, covered, finalP1, skippedEdges) == Discover(targetLinear, Progress(pool0, covered0, [], {}))
  {
    finalP1, candidatePool, covered, skippedEdges := [], pool0, covered0, {};
    while true
      invariant Discover(targetLinear, Progress(candidatePool, covered, finalP1, skippedEdges))
             == Discover(targetLinear, Progress(pool0, covered0, [], {}))
      decreases |candidatePool|
    {
      var uncoveredLinear := targetLinear - covered;
      if uncoveredLinear == {} {
        break;
      }
      if candidatePool == [] {
        skippedEdges := skippedEdges + uncoveredLinear;
        break;
      }
      var bestCandidate, bestScore := MostGain(candidatePool, uncoveredLinear);
      if bestScore == 0 {
        skippedEdges := skippedEdges + uncoveredLinear;
        break;
      }
      var best := bestCandidate.value;
      finalP1 := finalP1 + [candidatePool[best]];
      covered := CoverPath(covered, candidatePool[best]);
      candidatePool := RemoveAt(candidatePool, best);
    }
  }

  /** The phase-3 scan: the first of the shortest candidates through the
      target loop (ScanLoopSpec). */
  method ShortestThrough(candidatePool: seq<PathRecord>, targetLoop: Edge) returns (bestCandidate: Option<nat>)
    ensures bestCandidate == ScanLoop(candidatePool, targetLoop, |candidatePool|)
  {
    bestCandidate := None;
    for i := 0 to |candidatePool|
      invariant bestCandidate == ScanLoop(candidatePool, targetLoop, i)
    {
      if targetLoop in candidatePool[i].raw {
        if bestCandidate.None? || candidatePool[i].length < candidatePool[bestCandidate.value].length {
          bestCandidate := Some(i);
        }
      }
    }
  }

  /** Phase 3: while some loop edge is uncovered, move the shortest candidate
      through one of them to P2, or give that loop up. */
  method StressLoops(targetLoops: set<Edge>, pick: set<Edge> -> Edge, pool0: seq<PathRecord>, covered0: set<Edge>)
    returns (finalP2: seq<PathRecord>, candidatePool: seq<PathRecord>, covered: set<Edge>, skippedLoops: set<Edge>)
    requires IsChoice(pick)
    ensures Progress(candidatePool, covered, finalP2, skippedLoops) == Stress(targetLoops, pick, Progress(pool0, covered0, [], {}))
  {
    finalP2, candidatePool, covered, skippedLoops := [], pool0, covered0, {};
    while true
      invariant Stress(targetLoops, pick, Progress(candidatePool, covered, finalP2, skippedLoops))
             == Stress(targetLoops, pick, Progress(pool0, covered0, [], {}))
      decreases |candidatePool|, |targetLoops - covered|
    {
      var uncoveredLoops := targetLoops - covered;
      if uncoveredLoops == {} {
        break;
      }
      if candidatePool == [] {
        skippedLoops := skippedLoops + uncoveredLoops;
        break;
      }
      var targetLoop := pick(uncoveredLoops);
      var bestCandidate := ShortestThrough(candidatePool, targetLoop);
      if bestCandidate.Some? {
        var best := bestCandidate.value;
        StressTakes(targetLoops, pick, Progress(candidatePool, covered, finalP2, skippedLoops), best);
        finalP2 := finalP2 + [candidatePool[best]];
        covered := CoverPath(covered, candidatePool[best]);
        candidatePool := RemoveAt(candidatePool, best);
      } else {
        StressGivesUp(targetLoops, pick, Progress(candidatePool, covered, finalP2, skippedLoops));
        skippedLoops := skippedLoops + {targetLoop};
        covered := covered + {targetLoop};
      }
    }
  }

  /** A phase-3 step that finds a candidate through the target loop takes it. */
  lemma StressTakes(loops: set<Edge>, pick: set<Edge> -> Edge, s: Progress, i: nat)
    requires IsChoice(pick) && loops - s.covered != {} && s.pool != []
    requires ScanLoop(s.pool, pick(loops - s.covered), |s.pool|) == Some(i)
    ensures i < |s.pool| && Stress(loops, pick, s) == Stress(loops, pick, Take(s, i))
  {
  }

  /** A phase-3 step that finds no candidate through the target loop gives
      that loop up, leaving one loop fewer uncovered. */
  lemma StressGivesUp(loops: set<Edge>, pick: set<Edge> -> Edge, s: Progress)
    requires IsChoice(pick) && loops - s.covered != {} && s.pool != []
    requires ScanLoop(s.pool, pick(loops - s.covered), |s.pool|).None?
    ensures var target := pick(loops - s.covered);
      Stress(loops, pick, s) == Stress(loops, pick, s.(covered := s.covered + {target}, skipped := s.skipped + {target}))
      && |loops - (s.covered + {target})| < |loops - s.covered|
  {
    var target := pick(loops - s.covered);
    assert target in loops - s.covered;
    assert loops - (s.covered + {target}) == (loops - s.covered) - {target};
  }

  /** The setup loop: each cluster's archetype is a P0 path; its P1 and P2
      members join the candidate pool. */
  method GatherClusters(finalClusters: seq<ClusterRec>) returns (p0Paths: seq<PathRecord>, candidatePool: seq<PathRecord>)
    ensures p0Paths == P0s(finalClusters) && candidatePool == Pool(finalClusters)
  {
    p0Paths, candidatePool := [], [];
    for k := 0 to |finalClusters|
      invariant p0Paths == P0s(finalClusters[..k]) && candidatePool == Pool(finalClusters[..k])
    {
      assert finalClusters[..k + 1][..k] == finalClusters[..k];
      p0Paths := p0Paths + [finalClusters[k].p0];
      candidatePool := candidatePool + finalClusters[k].p1;
      candidatePool := candidatePool + finalClusters[k].p2;
    }
    assert finalClusters[..|finalClusters|] == finalClusters;
  }

  /** Splits the harvested edges into self-loops and the rest. */
  method SplitEdges(allEdges: set<Edge>) returns (targetLinear: set<Edge>, targetLoops: set<Edge>)
    ensures targetLinear == LinearEdges(allEdges) && targetLoops == LoopEdges(allEdges)
  {
    targetLinear, targetLoops := {}, {};
    var rest := allEdges;
    while rest != {}
      invariant rest <= allEdges
      invariant targetLinear == LinearEdges(allEdges - rest) && targetLoops == LoopEdges(allEdges - rest)
      decreases |rest|
    {
      var edge :| edge in rest;
      if edge.source == edge.target {
        targetLoops := targetLoops + {edge};
      } else {
        targetLinear := targetLinear + {edge};
      }
      rest := rest - {edge};
    }
  }

  /** Phase 1: every archetype goes to P0 and covers its edges. */
  method GoldenPaths(p0Paths: seq<PathRecord>) returns (finalP0: seq<PathRecord>, covered: set<Edge>)
    ensures finalP0 == p0Paths && covered == EdgesOf(p0Paths)
  {
    finalP0, covered := [], {};
    for k := 0 to |p0Paths|
      invariant finalP0 == p0Paths[..k] && covered == EdgesOf(p0Paths[..k])
    {
      assert p0Paths[..k + 1][..k] == p0Paths[..k];
      finalP0 := finalP0 + [p0Paths[k]];
      covered := CoverPath(covered, p0Paths[k]);
    }
    assert p0Paths[..|p0Paths|] == p0Paths;
  }

  /** prioritize_paths: the setup, phase 1, phases 2 and 3, and the archive. */
  method PrioritizePaths(finalClusters: seq<ClusterRec>, pick: set<Edge> -> Edge) returns (b: Buckets)
    requires IsChoice(pick)
    ensures b == Prioritized(finalClusters, pick)
  {
    var p0Paths, candidatePool := GatherClusters(finalClusters);
    var allEdges := HarvestEdges({}, p0Paths);
    allEdges := HarvestEdges(allEdges, candidatePool);
    var targetLinear, targetLoops := SplitEdges(allEdges);
    var finalP0, covered := GoldenPaths(p0Paths);
    var finalP1, skippedEdges, finalP2, skippedLoops;
    finalP1, candidatePool, covered, skippedEdges := DiscoverLinear(targetLinear, candidatePool, covered);
    finalP2, candidatePool, covered, skippedLoops := StressLoops(targetLoops, pick, candidatePool, covered);
    var finalP3 := candidatePool;
    b := Buckets(finalP0, finalP1, finalP2, finalP3, skippedEdges, skippedLoops,
                 Stats(|finalP0|, |finalP1|, |finalP2|, |finalP3|));
  }
}
