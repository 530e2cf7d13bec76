/** get_path_signature: the node sequence of a path without the start and end
    nodes, with adjacent repeats (self-loops) collapsed. */
module Signature {
  import opened Common
  import opened Graph

  /** [p[0].source] followed by every target, in path order. */
  function RawNodes(p: seq<Edge>): (ns: seq<NodeId>)
    requires |p| > 0
    ensures |ns| == |p| + 1 && ns[0] == p[0].source
    ensures forall i :: 0 <= i < |p| ==> ns[i + 1] == p[i].target
  {
    [p[0].source] + seq(|p|, i requires 0 <= i < |p| => p[i].target)
  }

  /** The nodes other than start and end, in order. */
  function Filtered(ns: seq<NodeId>, start: NodeId, end: NodeId): (fs: seq<NodeId>)
    ensures start !in fs && end !in fs
    ensures forall x :: x in fs <==> x in ns && x != start && x != end
  {
    if ns == [] then []
    else
      var fs := Filtered(ns[..|ns| - 1], start, end);
      var x := ns[|ns| - 1];
      assert ns == ns[..|ns| - 1] + [x];
      if x != start && x != end then fs + [x] else fs
  }

  /** Each run of equal adjacent nodes kept once. */
  function Collapse(fs: seq<NodeId>): (cs: seq<NodeId>)
    ensures forall x :: x in cs <==> x in fs
    ensures |cs| <= |fs| && (cs == [] <==> fs == [])
    ensures fs != [] ==> cs[|cs| - 1] == fs[|fs| - 1]
  {
    if fs == [] then []
    else
      var cs := Collapse(fs[..|fs| - 1]);
      var x := fs[|fs| - 1];
      assert fs == fs[..|fs| - 1] + [x];
      if cs != [] && cs[|cs| - 1] == x then cs else cs + [x]
  }

  function PathSignature(p: seq<Edge>, start: NodeId, end: NodeId): seq<NodeId>
    requires |p| > 0
  {
    Collapse(Filtered(RawNodes(p), start, end))
  }

  /** get_path_signature: the comprehensions, then the collapsing loop. */
  method GetPathSignature(p: seq<Edge>, start: NodeId, end: NodeId) returns (collapsed: seq<NodeId>)
    requires |p| > 0
    ensures collapsed == PathSignature(p, start, end)
  {
    var filtered := Filtered(RawNodes(p), start, end);
    if filtered == [] {
      return [];
    }
    collapsed := [filtered[0]];
    assert filtered[..1] == [] + [filtered[0]];
    var i := 1;
    while i < |filtered|
      invariant 1 <= i <= |filtered|
      invariant collapsed == Collapse(filtered[..i])
    {
      var node := filtered[i];
      assert filtered[..i + 1][..i] == filtered[..i];
      if node != collapsed[|collapsed| - 1] {
        collapsed := collapsed + [node];
      }
      i := i + 1;
    }
    assert filtered[..i] == filtered;
  }

  predicate NoAdjacentRepeats(s: seq<NodeId>) {
    forall i :: 0 <= i < |s| - 1 ==> s[i] != s[i + 1]
  }

  lemma {:induction false} CollapseNoAdjacentRepeats(fs: seq<NodeId>)
    ensures NoAdjacentRepeats(Collapse(fs))
  {
    if fs != [] {
      CollapseNoAdjacentRepeats(fs[..|fs| - 1]);
    }
  }

  lemma {:induction false} FilteredSubsequence(ns: seq<NodeId>, start: NodeId, end: NodeId)
    ensures Subsequence(Filtered(ns, start, end), ns)
  {
    if ns != [] {
      var ps := ns[..|ns| - 1];
      var x := ns[|ns| - 1];
      var fs := Filtered(ps, start, end);
      FilteredSubsequence(ps, start, end);
      assert ns == ps + [x];
      if x != start && x != end {
        assert (fs + [x])[..|fs|] == fs;
      } else {
        SubsequenceExtend(fs, ps, x);
      }
    }
  }

  lemma {:induction false} CollapseSubsequence(fs: seq<NodeId>)
    ensures Subsequence(Collapse(fs), fs)
  {
    if fs != [] {
      var ps := fs[..|fs| - 1];
      var x := fs[|fs| - 1];
      var cs := Collapse(ps);
      CollapseSubsequence(ps);
      assert fs == ps + [x];
      if cs != [] && cs[|cs| - 1] == x {
        SubsequenceExtend(cs, ps, x);
      } else {
        assert (cs + [x])[..|cs|] == cs;
      }
    }
  }

  /** The signature of a path leaves out the start and end nodes, never holds the
      same node twice in a row, and lists the path's nodes in path order. */
  lemma SignatureSpec(p: seq<Edge>, start: NodeId, end: NodeId)
    requires |p| > 0
    ensures start !in PathSignature(p, start, end) && end !in PathSignature(p, start, end)
    ensures NoAdjacentRepeats(PathSignature(p, start, end))
    ensures Subsequence(PathSignature(p, start, end), RawNodes(p))
    ensures forall x :: x in PathSignature(p, start, end) <==> x in RawNodes(p) && x != start && x != end
  {
    var fs := Filtered(RawNodes(p), start, end);
    CollapseNoAdjacentRepeats(fs);
    CollapseSubsequence(fs);
    FilteredSubsequence(RawNodes(p), start, end);
    SubsequenceTrans(Collapse(fs), fs, RawNodes(p));
  }
}
