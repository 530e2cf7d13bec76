/** Bounded path enumeration (script_3_ana.py, find_paths_with_one_loop): a
    depth-first search from the start node that yields every path reaching the
    end node while no node is entered more than twice. The visit counts are a
    map owned by each call: an entry is written into the caller's map before
    the copy for the child is taken, so later siblings see the increments of
    earlier ones. */
module Enumerate {
  import opened Common
  import opened Graph

  type Visits = map<NodeId, nat>

  /** visited_counts.get(x, 0) */
  function Get(v: Visits, x: NodeId): nat {
    if x in v then v[x] else 0
  }

  /** No count above the cap of 2. */
  predicate Capped(v: Visits) {
    forall x :: x in v ==> v[x] <= 2
  }

  /** Every count of v is at most the matching count of w. */
  ghost predicate Grows(v: Visits, w: Visits) {
    forall x :: Get(v, x) <= Get(w, x)
  }

  // Termination: every recursive call enters a node whose count is below the
  // cap, so the total room left under the cap shrinks.

  /** The targets of all edges: every node a call can enter. */
  function Entered(g: seq<Edge>): (ns: seq<NodeId>)
    ensures |ns| == |g| && forall i :: 0 <= i < |g| ==> ns[i] == g[i].target
  {
    seq(|g|, i requires 0 <= i < |g| => g[i].target)
  }

  lemma SuccessorsEntered(g: seq<Edge>, u: NodeId)
    ensures forall n :: n in Successors(g, u) ==> n in Entered(g)
  {
    forall n | n in Successors(g, u) ensures n in Entered(g) {
      var e :| e in g && e.source == u && e.target == n;
      var i :| 0 <= i < |g| && g[i] == e;
      assert Entered(g)[i] == n;
    }
  }

  /** How many more times x may be entered. */
  function Room(v: Visits, x: NodeId): nat {
    if Get(v, x) >= 2 then 0 else 2 - Get(v, x)
  }

  function Budget(ns: seq<NodeId>, v: Visits): nat {
    if ns == [] then 0 else Room(v, ns[0]) + Budget(ns[1..], v)
  }

  lemma {:induction false} BudgetShrinks(ns: seq<NodeId>, v: Visits, w: Visits)
    requires Grows(v, w)
    ensures Budget(ns, w) <= Budget(ns, v)
  {
    if ns != [] {
      assert Get(v, ns[0]) <= Get(w, ns[0]);
      BudgetShrinks(ns[1..], v, w);
    }
  }

  /** Entering a node that was below the cap makes the budget drop. */
  lemma {:induction false} BudgetDrops(ns: seq<NodeId>, v: Visits, w: Visits, n: NodeId)
    requires n in ns && Grows(v, w) && Get(v, n) < 2 && Get(v, n) < Get(w, n)
    ensures Budget(ns, w) < Budget(ns, v)
  {
    assert Get(v, ns[0]) <= Get(w, ns[0]);
    if ns[0] == n {
      BudgetShrinks(ns[1..], v, w);
    } else {
      BudgetDrops(ns[1..], v, w, n);
    }
  }

  /** Writing count + 1 for n into v. */
  lemma EnterGrows(v: Visits, n: NodeId)
    requires Get(v, n) < 2
    ensures var w := v[n := Get(v, n) + 1]; Grows(v, w) && Get(v, n) < Get(w, n)
  {
  }

  /** The paths yielded by find_paths_with_one_loop(graph, cur, end, path, v). */
  function PathsFrom(g: seq<Edge>, end: NodeId, cur: NodeId, path: seq<Edge>, v: Visits): seq<seq<Edge>>
    decreases Budget(Entered(g), v), 2, 0
  {
    if cur == end then [path]
    else
      SuccessorsEntered(g, cur);
      Scan(g, end, cur, path, Successors(g, cur), 0, v)
  }

  /** The loop over the neighbours nbrs[i..], with the caller's map v as it
      stands when nbrs[i] is reached. */
  function Scan(g: seq<Edge>, end: NodeId, cur: NodeId, path: seq<Edge>, nbrs: seq<NodeId>, i: nat, v: Visits)
    : seq<seq<Edge>>
    requires i <= |nbrs|
    requires forall n :: n in nbrs ==> n in Entered(g)
    decreases Budget(Entered(g), v), 1, |nbrs| - i
  {
    if i == |nbrs| then []
    else
      var n := nbrs[i];
      var count := Get(v, n);
      if count < 2 then
        var w := v[n := count + 1];
        EnterDrops(g, v, n);
        Parallel(g, end, cur, n, path, Actions(g, cur, n), w) + Scan(g, end, cur, path, nbrs, i + 1, w)
      else
        Scan(g, end, cur, path, nbrs, i + 1, v)
  }

  /** The inner loop over the parallel edges cur -> n, each child starting from
      the same map w. */
  function Parallel(g: seq<Edge>, end: NodeId, cur: NodeId, n: NodeId, path: seq<Edge>, acts: seq<string>, w: Visits)
    : seq<seq<Edge>>
    decreases Budget(Entered(g), w), 3, |acts|
  {
    if acts == [] then []
    else
      Parallel(g, end, cur, n, path, acts[..|acts| - 1], w)
      + PathsFrom(g, end, n, path + [Edge(cur, n, acts[|acts| - 1])], w)
  }

  /** find_paths_with_one_loop, collected into a list. */
  method FindPaths(g: seq<Edge>, end: NodeId, cur: NodeId, path: seq<Edge>, visits: Visits)
    returns (found: seq<seq<Edge>>)
    ensures found == PathsFrom(g, end, cur, path, visits)
    decreases Budget(Entered(g), visits), 2, 0
  {
    if cur == end {
      return [path];
    }
    var nbrs := Successors(g, cur);
    if nbrs == [] {
      return [];
    }
    SuccessorsEntered(g, cur);
    ScanStarts(g, end, cur, path, visits);
    var v: Visits := visits;
    found := [];
    var i := 0;
    while i < |nbrs|
      invariant 0 <= i <= |nbrs|
      invariant Budget(Entered(g), v) <= Budget(Entered(g), visits)
      invariant found + Scan(g, end, cur, path, nbrs, i, v) == PathsFrom(g, end, cur, path, visits)
    {
      var batch, w := VisitNeighbour(g, end, cur, path, nbrs, i, v);
      AppendAssoc(found, batch, Scan(g, end, cur, path, nbrs, i + 1, w));
      found := found + batch;
      v := w;
      i := i + 1;
    }
    ScanEnds(g, end, cur, path, nbrs, v, found);
  }

  /** Before the neighbour loop: nothing found, and the whole scan ahead. */
  lemma ScanStarts(g: seq<Edge>, end: NodeId, cur: NodeId, path: seq<Edge>, v: Visits)
    requires cur != end && forall n :: n in Successors(g, cur) ==> n in Entered(g)
    ensures [] + Scan(g, end, cur, path, Successors(g, cur), 0, v) == PathsFrom(g, end, cur, path, v)
  {
    assert [] + Scan(g, end, cur, path, Successors(g, cur), 0, v) == Scan(g, end, cur, path, Successors(g, cur), 0, v);
  }

  /** After the neighbour loop: nothing left to scan. */
  lemma ScanEnds(g: seq<Edge>, end: NodeId, cur: NodeId, path: seq<Edge>, nbrs: seq<NodeId>, v: Visits,
                 found: seq<seq<Edge>>)
    requires forall n :: n in nbrs ==> n in Entered(g)
    ensures found + Scan(g, end, cur, path, nbrs, |nbrs|, v) == found
  {
    assert found + [] == found;
  }

  /** One pass of the neighbour loop: below the cap, nbrs[i] is counted in
      the caller's map and the paths through each parallel edge are
      collected; at the cap it is skipped. */
  method VisitNeighbour(g: seq<Edge>, end: NodeId, cur: NodeId, path: seq<Edge>, nbrs: seq<NodeId>, i: nat,
                        v: Visits)
    returns (batch: seq<seq<Edge>>, w: Visits)
    requires i < |nbrs| && forall n :: n in nbrs ==> n in Entered(g)
    ensures Budget(Entered(g), w) <= Budget(Entered(g), v)
    ensures batch + Scan(g, end, cur, path, nbrs, i + 1, w) == Scan(g, end, cur, path, nbrs, i, v)
    decreases Budget(Entered(g), v), 1, 0
  {
    var neighbor := nbrs[i];
    var count := Get(v, neighbor);
    if count < 2 {
      ScanEnters(g, end, cur, path, nbrs, i, v);
      w := v[neighbor := count + 1];
      batch := FollowEdges(g, end, cur, neighbor, path, w);
    } else {
      ScanSkips(g, end, cur, path, nbrs, i, v);
      batch, w := [], v;
      assert batch + Scan(g, end, cur, path, nbrs, i + 1, w) == Scan(g, end, cur, path, nbrs, i + 1, w);
    }
  }

  /** The step of the neighbour loop that enters n = nbrs[i]. */
  lemma ScanEnters(g: seq<Edge>, end: NodeId, cur: NodeId, path: seq<Edge>, nbrs: seq<NodeId>, i: nat, v: Visits)
    requires i < |nbrs| && forall n :: n in nbrs ==> n in Entered(g)
    requires Get(v, nbrs[i]) < 2
    ensures var w := v[nbrs[i] := Get(v, nbrs[i]) + 1];
      && Budget(Entered(g), w) < Budget(Entered(g), v)
      && Scan(g, end, cur, path, nbrs, i, v)
         == Parallel(g, end, cur, nbrs[i], path, Actions(g, cur, nbrs[i]), w) + Scan(g, end, cur, path, nbrs, i + 1, w)
  {
    EnterDrops(g, v, nbrs[i]);
  }

  /** Entering a node below the cap uses up some of the budget. */
  lemma EnterDrops(g: seq<Edge>, v: Visits, n: NodeId)
    requires n in Entered(g) && Get(v, n) < 2
    ensures Budget(Entered(g), v[n := Get(v, n) + 1]) < Budget(Entered(g), v)
  {
    EnterGrows(v, n);
    BudgetDrops(Entered(g), v, v[n := Get(v, n) + 1], n);
  }

  /** The step of the neighbour loop that skips n = nbrs[i], already at the cap. */
  lemma ScanSkips(g: seq<Edge>, end: NodeId, cur: NodeId, path: seq<Edge>, nbrs: seq<NodeId>, i: nat, v: Visits)
    requires i < |nbrs| && forall n :: n in nbrs ==> n in Entered(g)
    requires Get(v, nbrs[i]) >= 2
    ensures Scan(g, end, cur, path, nbrs, i, v) == Scan(g, end, cur, path, nbrs, i + 1, v)
  {
  }

  /** The inner loop of find_paths_with_one_loop: one recursive call per
      parallel edge cur -> n, each with a copy of the same map w. */
  method FollowEdges(g: seq<Edge>, end: NodeId, cur: NodeId, n: NodeId, path: seq<Edge>, w: Visits)
    returns (batch: seq<seq<Edge>>)
    ensures batch == Parallel(g, end, cur, n, path, Actions(g, cur, n), w)
    decreases Budget(Entered(g), w), 3, 0
  {
    var acts := Actions(g, cur, n);
    batch := [];
    var j := 0;
    while j < |acts|
      invariant 0 <= j <= |acts|
      invariant batch == Parallel(g, end, cur, n, path, acts[..j], w)
    {
      ParallelSnoc(g, end, cur, n, path, acts, j, w);
      var sub := FindPaths(g, end, n, path + [Edge(cur, n, acts[j])], w);
      batch := batch + sub;
      j := j + 1;
    }
    assert acts[..|acts|] == acts;
  }

  /** One more parallel edge: its child's paths follow those of the earlier ones. */
  lemma ParallelSnoc(g: seq<Edge>, end: NodeId, cur: NodeId, n: NodeId, path: seq<Edge>, acts: seq<string>, j: nat,
                     w: Visits)
    requires j < |acts|
    ensures Parallel(g, end, cur, n, path, acts[..j + 1], w)
      == Parallel(g, end, cur, n, path, acts[..j], w) + PathsFrom(g, end, n, path + [Edge(cur, n, acts[j])], w)
  {
    assert acts[..j + 1][..j] == acts[..j];
  }

  /** The call made by generate_path_analysis: empty path, start counted once. */
  function EnumeratePaths(g: seq<Edge>, start: NodeId, end: NodeId): seq<seq<Edge>> {
    PathsFrom(g, end, start, [], map[start := 1])
  }

  // ---------------------------------------------------------------------
  // What every yielded path is.

  /** q walks the graph from cur and stops the first time it reaches end. */
  predicate Walk(g: seq<Edge>, cur: NodeId, end: NodeId, q: seq<Edge>)
    decreases |q|
  {
    if q == [] then cur == end
    else cur != end && q[0].source == cur && q[0] in g && Walk(g, q[0].target, end, q[1..])
  }

  /** The nodes the path enters, in order. */
  function Targets(q: seq<Edge>): (t: seq<NodeId>)
    ensures |t| == |q| && forall i :: 0 <= i < |q| ==> t[i] == q[i].target
  {
    if q == [] then [] else [q[0].target] + Targets(q[1..])
  }

  /** r extends path by a walk from cur to end that, together with the counts
      in v, enters no node more than twice. */
  ghost predicate Sound(g: seq<Edge>, end: NodeId, cur: NodeId, path: seq<Edge>, v: Visits, r: seq<Edge>) {
    |path| <= |r| && r[..|path|] == path && Walk(g, cur, end, r[|path|..])
    && forall x :: multiset(Targets(r[|path|..]))[x] + Get(v, x) <= 2
  }

  lemma SoundWeaken(g: seq<Edge>, end: NodeId, cur: NodeId, path: seq<Edge>, v: Visits, w: Visits, r: seq<Edge>)
    requires Grows(v, w) && Sound(g, end, cur, path, w, r)
    ensures Sound(g, end, cur, path, v, r)
  {
    forall x ensures multiset(Targets(r[|path|..]))[x] + Get(v, x) <= 2 {
      assert Get(v, x) <= Get(w, x);
    }
  }

  /** One step back: a sound result after entering n through e is a sound
      result at cur, against the counts before n was entered. */
  lemma SoundStep(g: seq<Edge>, end: NodeId, cur: NodeId, path: seq<Edge>, e: Edge, v: Visits, w: Visits, r: seq<Edge>)
    requires cur != end && e.source == cur && e in g
    requires Grows(v, w) && Get(v, e.target) < Get(w, e.target)
    requires Sound(g, end, e.target, path + [e], w, r)
    ensures Sound(g, end, cur, path, v, r)
  {
    var q := r[|path|..];
    assert r[..|path| + 1] == path + [e];
    assert r[..|path|] == (path + [e])[..|path|];
    assert q[0] == e;
    assert q[1..] == r[|path| + 1..];
    assert Targets(q) == [e.target] + Targets(q[1..]);
    forall x ensures multiset(Targets(q))[x] + Get(v, x) <= 2 {
      assert multiset(Targets(q))[x] == (if x == e.target then 1 else 0) + multiset(Targets(q[1..]))[x];
      assert Get(v, x) <= Get(w, x);
    }
  }

  /** Entering n from cur: the paths of the edges to n, and those of the later
      neighbours, are sound at cur against the counts before n was entered. */
  lemma SoundEnter(g: seq<Edge>, end: NodeId, cur: NodeId, path: seq<Edge>, n: NodeId, v: Visits, w: Visits,
                   front: seq<seq<Edge>>, back: seq<seq<Edge>>)
    requires cur != end && Grows(v, w) && Get(v, n) < Get(w, n)
    requires forall r: seq<Edge> :: r in front ==>
               |path| < |r| && r[|path|].source == cur && r[|path|].target == n && r[|path|] in g
               && Sound(g, end, n, path + [r[|path|]], w, r)
    requires forall r :: r in back ==> Sound(g, end, cur, path, w, r)
    ensures forall r :: r in front + back ==> Sound(g, end, cur, path, v, r)
  {
    forall r | r in front + back ensures Sound(g, end, cur, path, v, r) {
      if r in front {
        SoundStep(g, end, cur, path, r[|path|], v, w, r);
      } else {
        SoundWeaken(g, end, cur, path, v, w, r);
      }
    }
  }

  lemma {:induction false} PathsFromSound(g: seq<Edge>, end: NodeId, cur: NodeId, path: seq<Edge>, v: Visits)
    requires Capped(v)
    ensures forall r :: r in PathsFrom(g, end, cur, path, v) ==> Sound(g, end, cur, path, v, r)
    decreases Budget(Entered(g), v), 2, 0
  {
    if cur == end {
      assert path[|path|..] == [] && path[..|path|] == path;
      forall x ensures Get(v, x) <= 2 { }
    } else {
      SuccessorsEntered(g, cur);
      ScanSound(g, end, cur, path, Successors(g, cur), 0, v);
    }
  }

  lemma {:induction false} ScanSound(g: seq<Edge>, end: NodeId, cur: NodeId, path: seq<Edge>, nbrs: seq<NodeId>, i: nat, v: Visits)
    requires i <= |nbrs| && forall n :: n in nbrs ==> n in Entered(g)
    requires cur != end && Capped(v)
    ensures forall r :: r in Scan(g, end, cur, path, nbrs, i, v) ==> Sound(g, end, cur, path, v, r)
    decreases Budget(Entered(g), v), 1, |nbrs| - i
  {
    if i < |nbrs| {
      var n := nbrs[i];
      var count := Get(v, n);
      if count < 2 {
        var w := v[n := count + 1];
        ScanEnters(g, end, cur, path, nbrs, i, v);
        EnterGrows(v, n);
        var acts := Actions(g, cur, n);
        ParallelSound(g, end, cur, n, path, acts, w);
        ScanSound(g, end, cur, path, nbrs, i + 1, w);
        SoundEnter(g, end, cur, path, n, v, w, Parallel(g, end, cur, n, path, acts, w),
          Scan(g, end, cur, path, nbrs, i + 1, w));
      } else {
        ScanSkips(g, end, cur, path, nbrs, i, v);
        ScanSound(g, end, cur, path, nbrs, i + 1, v);
      }
    }
  }

  lemma {:induction false} ParallelSound(g: seq<Edge>, end: NodeId, cur: NodeId, n: NodeId, path: seq<Edge>, acts: seq<string>, w: Visits)
    requires forall a :: a in acts ==> Edge(cur, n, a) in g
    requires Capped(w)
    ensures forall r: seq<Edge> :: r in Parallel(g, end, cur, n, path, acts, w) ==>
              |path| < |r| && r[|path|].source == cur && r[|path|].target == n && r[|path|] in g
              && Sound(g, end, n, path + [r[|path|]], w, r)
    decreases Budget(Entered(g), w), 3, |acts|
  {
    if acts != [] {
      var a := acts[|acts| - 1];
      var e := Edge(cur, n, a);
      ParallelSound(g, end, cur, n, path, acts[..|acts| - 1], w);
      PathsFromSound(g, end, n, path + [e], w);
      forall r | r in PathsFrom(g, end, n, path + [e], w)
        ensures |path| < |r| && r[|path|] == e
      {
        assert r[..|path| + 1] == path + [e];
      }
    }
  }

  // ---------------------------------------------------------------------
  // The properties of generate_path_analysis's enumeration.

  /** The facts a walk packs together, one by one. */
  lemma {:induction false} WalkFacts(g: seq<Edge>, cur: NodeId, end: NodeId, q: seq<Edge>)
    requires Walk(g, cur, end, q)
    ensures q == [] <==> cur == end
    ensures q != [] ==> q[0].source == cur && q[|q| - 1].target == end
    ensures forall i :: 0 <= i < |q| ==> q[i] in g
    ensures forall i :: 0 <= i < |q| - 1 ==> q[i].target == q[i + 1].source && q[i].target != end
    decreases |q|
  {
    if q != [] {
      WalkFacts(g, q[0].target, end, q[1..]);
      if q[1..] != [] {
        assert q[0].target == q[1].source;
        assert q[0].target != end;
      }
      forall i | 1 <= i < |q| ensures q[i] in g {
        assert q[i] == q[1..][i - 1];
      }
    }
  }

  /** Every path the analysis enumerates starts at start, follows graph edges,
      reaches end and stops there, and (with start counted once) enters no node
      more than twice. */
  lemma EnumeratedPathsValid(g: seq<Edge>, start: NodeId, end: NodeId, p: seq<Edge>)
    requires p in EnumeratePaths(g, start, end)
    ensures start != end <==> p != []
    ensures p != [] ==> p[0].source == start && p[|p| - 1].target == end
    ensures forall i :: 0 <= i < |p| ==> p[i] in g
    ensures forall i :: 0 <= i < |p| - 1 ==> p[i].target == p[i + 1].source && p[i].target != end
    ensures forall x :: multiset([start] + Targets(p))[x] <= 2
  {
    var v := map[start := 1];
    PathsFromSound(g, end, start, [], v);
    assert Sound(g, end, start, [], v, p);
    assert p[0..] == p;
    WalkFacts(g, start, end, p);
    forall x ensures multiset([start] + Targets(p))[x] <= 2 {
      assert multiset(Targets(p))[x] + Get(v, x) <= 2;
    }
  }

  /** The count bound of ScanSound for one result and one node. */
  lemma ScanWithinCap(g: seq<Edge>, end: NodeId, cur: NodeId, path: seq<Edge>, nbrs: seq<NodeId>, i: nat, v: Visits,
                      r: seq<Edge>, x: NodeId)
    requires i <= |nbrs| && forall n :: n in nbrs ==> n in Entered(g)
    requires cur != end && Capped(v) && r in Scan(g, end, cur, path, nbrs, i, v)
    ensures |path| <= |r| && multiset(Targets(r[|path|..]))[x] + Get(v, x) <= 2
  {
    ScanSound(g, end, cur, path, nbrs, i, v);
  }

  /** Every result of the inner loop for cur -> n starts with an edge into n. */
  lemma ParallelEntersFirst(g: seq<Edge>, end: NodeId, cur: NodeId, n: NodeId, path: seq<Edge>, acts: seq<string>,
                            w: Visits, r: seq<Edge>)
    requires forall a :: a in acts ==> Edge(cur, n, a) in g
    requires Capped(w) && r in Parallel(g, end, cur, n, path, acts, w)
    ensures |path| < |r| && r[|path|].target == n
  {
    ParallelSound(g, end, cur, n, path, acts, w);
  }

  // ---------------------------------------------------------------------
  // The shared counts at work.

  /** S -> A, S -> B, B -> A, A -> A, A -> E */
  function SharedCountsGraph(): seq<Edge> {
    [Edge("S", "A", "a"), Edge("S", "B", "b"), Edge("B", "A", "c"), Edge("A", "A", "d"), Edge("A", "E", "e")]
  }

  /** The two edges out of S come first. */
  lemma SharedCountsOutOfS()
    ensures Successors(SharedCountsGraph()[..2], "S") == ["A", "B"]
  {
    var g := SharedCountsGraph();
    SuccessorsSnoc([], g[0], "S");
    assert [] + [g[0]] == [g[0]];
    SuccessorsSnoc([g[0]], g[1], "S");
    assert [g[0]] + [g[1]] == g[..2];
  }

  lemma SharedCountsSuccessors()
    ensures Successors(SharedCountsGraph(), "S") == ["A", "B"]
  {
    var g := SharedCountsGraph();
    SharedCountsOutOfS();
    SuccessorsOthers(g[..2], g[2..], "S");
    assert g[..2] + g[2..] == g;
  }

  /** With the first successor of the start entered, the rest of the scan
      starts from a map in which it has been entered once. */
  lemma EnumerateFirstBranch(g: seq<Edge>, start: NodeId, end: NodeId, a: NodeId, rest: seq<NodeId>)
    requires start != end && a != start && Successors(g, start) == [a] + rest
    ensures var w := map[start := 1, a := 1];
      EnumeratePaths(g, start, end)
      == Parallel(g, end, start, a, [], Actions(g, start, a), w) + Scan(g, end, start, [], [a] + rest, 1, w)
  {
    SuccessorsEntered(g, start);
    ScanEnters(g, end, start, [], [a] + rest, 0, map[start := 1]);
  }

  /** The B branch starts from a map in which A has been entered once. */
  lemma SharedCountsSplit()
    ensures var g := SharedCountsGraph();
      var w := map["S" := 1, "A" := 1];
      "A" in Entered(g) && "B" in Entered(g)
      && EnumeratePaths(g, "S", "E")
      == Parallel(g, "E", "S", "A", [], Actions(g, "S", "A"), w) + Scan(g, "E", "S", [], ["A", "B"], 1, w)
  {
    SharedCountsSuccessors();
    SuccessorsEntered(SharedCountsGraph(), "S");
    assert "S" != "E" && "A" != "S";
    EnumerateFirstBranch(SharedCountsGraph(), "S", "E", "A", ["B"]);
  }

  /** S -b-> B -c-> A -d-> A -e-> E */
  function LoopViaB(): seq<Edge> {
    [Edge("S", "B", "b"), Edge("B", "A", "c"), Edge("A", "A", "d"), Edge("A", "E", "e")]
  }

  lemma LoopViaBEntersATwice()
    ensures |LoopViaB()| == 4 && LoopViaB()[0].target == "B"
    ensures multiset(Targets(LoopViaB()))["A"] == 2
  {
    var r := LoopViaB();
    assert Targets(r) == [r[0].target, r[1].target, r[2].target, r[3].target];
  }

  /** Every path either goes to A first or, coming from the B branch, enters A
      at most once more. */
  lemma SharedCountsBranches(r: seq<Edge>)
    requires r in EnumeratePaths(SharedCountsGraph(), "S", "E")
    ensures r != [] && (r[0].target == "A" || multiset(Targets(r))["A"] <= 1)
  {
    var g := SharedCountsGraph();
    var w := map["S" := 1, "A" := 1];
    SharedCountsSplit();
    assert r[0..] == r;
    assert Get(w, "A") == 1;
    if r in Parallel(g, "E", "S", "A", [], Actions(g, "S", "A"), w) {
      ParallelEntersFirst(g, "E", "S", "A", [], Actions(g, "S", "A"), w, r);
    } else {
      ScanWithinCap(g, "E", "S", [], ["A", "B"], 1, w, r, "A");
      EnumeratedPathsValid(g, "S", "E", r);
    }
  }

  /** S, B, A, A, E enters A only twice, yet it is not enumerated: by the time
      the search turns to B, the branch through A has already written A's first
      visit into the map that the B branch inherits. */
  lemma SiblingCountsShared()
    ensures LoopViaB() !in EnumeratePaths(SharedCountsGraph(), "S", "E")
  {
    LoopViaBEntersATwice();
    if LoopViaB() in EnumeratePaths(SharedCountsGraph(), "S", "E") {
      SharedCountsBranches(LoopViaB());
    }
  }
}
