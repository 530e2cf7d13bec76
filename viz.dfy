/** The interactive flowchart's edge labels and the counter that gives
    parallel edges between the same two states distinct curves. */
module Viz {
  import opened Common
  import opened Text

  const MaxLabelLength: nat := 20

  /** truncate_label: the label to draw and the full text for the tooltip.
      A missing or empty text gives two empty strings. */
  function TruncateLabel(text: Option<string>, length: nat): (r: (string, string))
    ensures text.None? || text.value == "" ==> r == ("", "")
    ensures text.Some? && text.value != "" ==> r.1 == Strip(text.value)
    ensures |r.1| <= length ==> r.0 == r.1
    ensures |r.1| > length ==> r.0 == r.1[..length] + "..." && |r.0| == length + 3
    ensures |r.0| <= length + 3
  {
    if text.None? || text.value == "" then ("", "")
    else
      var t := Strip(text.value);
      if |t| <= length then (t, t) else (t[..length] + "...", t)
  }

  /** The label of a long text is shorter than the text unless the text is
      at most three characters over the limit. */
  lemma TruncateShortens(text: string, length: nat)
    requires |Strip(text)| > length + 3
    ensures |TruncateLabel(Some(text), length).0| < |TruncateLabel(Some(text), length).1|
  {
  }

  /** A label that is already short enough is drawn in full: truncating the
      drawn label again changes nothing. */
  lemma TruncateStable(text: Option<string>, length: nat)
    requires |TruncateLabel(text, length).1| <= length
    ensures TruncateLabel(Some(TruncateLabel(text, length).0), length).0 == TruncateLabel(text, length).0
  {
    var r := TruncateLabel(text, length);
    if r.0 != "" {
      StripUnchanged(r.0);
    }
  }

  // ---------------------------------------------------------------------------
  // edge_counts

  /** One entry of `workflow_logic.transitions`: a key that is missing is None. */
  datatype Transition = Transition(fromState: Option<string>, toState: Option<string>, triggerIntent: Option<string>)

  /** A transition is drawn when both states are present and not empty. */
  predicate Drawn(t: Transition) {
    t.fromState.Some? && t.fromState.value != "" && t.toState.Some? && t.toState.value != ""
  }

  /** The stripped (source, target) pair of a drawn transition. */
  function PairOf(t: Transition): (string, string) {
    (Strip(Given(t.fromState)), Strip(Given(t.toState)))
  }

  /** The value of a key, or "" when it is missing. */
  function Given(v: Option<string>): string {
    if v.Some? then v.value else ""
  }

  /** An edge as it is added to the graph: its ends, its label and tooltip
      text, and how many edges joined the same pair before it (the curve it
      is drawn with grows with that number). */
  datatype DrawnEdge = DrawnEdge(src: string, dst: string, shown: string, fullText: string, earlier: nat)

  /** The drawn transitions, in order. */
  function DrawnOnes(ts: seq<Transition>): (ds: seq<Transition>)
    ensures |ds| <= |ts| && forall i :: 0 <= i < |ds| ==> Drawn(ds[i])
  {
    if ts == [] then []
    else DrawnOnes(ts[..|ts| - 1]) + (if Drawn(ts[|ts| - 1]) then [ts[|ts| - 1]] else [])
  }

  /** The pairs of the drawn transitions, in order. */
  function Pairs(ds: seq<Transition>): (ps: seq<(string, string)>)
    ensures |ps| == |ds| && forall i :: 0 <= i < |ds| ==> ps[i] == PairOf(ds[i])
  {
    if ds == [] then [] else Pairs(ds[..|ds| - 1]) + [PairOf(ds[|ds| - 1])]
  }

  /** How often pair occurs in ps. */
  function Occurrences(ps: seq<(string, string)>, pair: (string, string)): nat {
    if ps == [] then 0 else Occurrences(ps[..|ps| - 1], pair) + (if ps[|ps| - 1] == pair then 1 else 0)
  }

  /** The counter after the pairs are counted in order. */
  function Tally(ps: seq<(string, string)>): map<(string, string), nat> {
    if ps == [] then map[]
    else
      var m, p := Tally(ps[..|ps| - 1]), ps[|ps| - 1];
      m[p := (if p in m then m[p] else 0) + 1]
  }

  /** The counter holds exactly the pairs that occur, each with the number of
      times it occurs. */
  lemma {:induction false} TallyCounts(ps: seq<(string, string)>, pair: (string, string))
    ensures pair in Tally(ps) <==> Occurrences(ps, pair) > 0
    ensures pair in Tally(ps) ==> Tally(ps)[pair] == Occurrences(ps, pair)
  {
    if ps != [] {
      TallyCounts(ps[..|ps| - 1], pair);
    }
  }

  /** The edge a drawn transition becomes after the drawn transitions that
      produced the pairs before. */
  function EdgeAfter(before: seq<(string, string)>, t: Transition): DrawnEdge {
    var pair := PairOf(t);
    var labels := TruncateLabel(t.triggerIntent, MaxLabelLength);
    DrawnEdge(pair.0, pair.1, labels.0, labels.1, Occurrences(before, pair))
  }

  /** The edges the drawn transitions become, in order. */
  function EdgesOf(ds: seq<Transition>): (es: seq<DrawnEdge>)
    ensures |es| == |ds|
  {
    if ds == [] then []
    else
      var front := ds[..|ds| - 1];
      EdgesOf(front) + [EdgeAfter(Pairs(front), ds[|ds| - 1])]
  }

  lemma DrawnOnesNext(ts: seq<Transition>, i: nat)
    requires i < |ts|
    ensures DrawnOnes(ts[..i + 1]) == DrawnOnes(ts[..i]) + (if Drawn(ts[i]) then [ts[i]] else [])
  {
    assert ts[..i + 1][..i] == ts[..i];
  }

  lemma PairsNext(ds: seq<Transition>, t: Transition)
    ensures Pairs(ds + [t]) == Pairs(ds) + [PairOf(t)]
  {
    assert (ds + [t])[..|ds|] == ds;
  }

  lemma EdgesOfNext(ds: seq<Transition>, t: Transition)
    ensures EdgesOf(ds + [t]) == EdgesOf(ds) + [EdgeAfter(Pairs(ds), t)]
  {
    assert (ds + [t])[..|ds|] == ds;
  }

  lemma TallyNext(ps: seq<(string, string)>, p: (string, string))
    ensures Tally(ps + [p]) == Tally(ps)[p := (if p in Tally(ps) then Tally(ps)[p] else 0) + 1]
  {
    assert (ps + [p])[..|ps|] == ps;
  }

  /** edges and the counter are what the loop has after the transitions ts. */
  predicate Drew(ts: seq<Transition>, edges: seq<DrawnEdge>, counts: map<(string, string), nat>) {
    var ds := DrawnOnes(ts);
    edges == EdgesOf(ds) && counts == Tally(Pairs(ds))
  }

  lemma DrewSkip(ts: seq<Transition>, i: nat, edges: seq<DrawnEdge>, counts: map<(string, string), nat>)
    requires i < |ts| && Drew(ts[..i], edges, counts) && !Drawn(ts[i])
    ensures Drew(ts[..i + 1], edges, counts)
  {
    DrawnOnesNext(ts, i);
    assert DrawnOnes(ts[..i + 1]) == DrawnOnes(ts[..i]);
  }

  lemma DrewNext(ts: seq<Transition>, i: nat, edges: seq<DrawnEdge>, counts: map<(string, string), nat>,
                 pair: (string, string), c: nat, labels: (string, string))
    requires i < |ts| && Drew(ts[..i], edges, counts) && Drawn(ts[i])
    requires pair == PairOf(ts[i]) && c == (if pair in counts then counts[pair] else 0)
    requires labels == TruncateLabel(ts[i].triggerIntent, MaxLabelLength)
    ensures Drew(ts[..i + 1], edges + [DrawnEdge(pair.0, pair.1, labels.0, labels.1, c)], counts[pair := c + 1])
  {
    var ds, t := DrawnOnes(ts[..i]), ts[i];
    var ds' := DrawnOnes(ts[..i + 1]);
    assert ds' == ds + [t] by { DrawnOnesNext(ts, i); }
    assert c == Occurrences(Pairs(ds), pair) by { TallyCounts(Pairs(ds), pair); }
    assert Tally(Pairs(ds')) == counts[pair := c + 1] by {
      PairsNext(ds, t);
      TallyNext(Pairs(ds), pair);
    }
    assert EdgesOf(ds') == edges + [DrawnEdge(pair.0, pair.1, labels.0, labels.1, c)] by {
      EdgesOfNext(ds, t);
    }
  }

  /** The loop of generate_interactive_graph that adds the edges: transitions
      without both states are skipped, every other one becomes an edge whose
      count of earlier edges on the same pair comes from the counter, and the
      counter ends with each pair's total. */
  method AddEdges(transitions: seq<Transition>) returns (edges: seq<DrawnEdge>, edgeCounts: map<(string, string), nat>)
    ensures edges == EdgesOf(DrawnOnes(transitions))
    ensures edgeCounts == Tally(Pairs(DrawnOnes(transitions)))
  {
    edges := [];
    edgeCounts := map[];
    for i := 0 to |transitions|
      invariant Drew(transitions[..i], edges, edgeCounts)
    {
      var t := transitions[i];
      var src := t.fromState;
      var dst := t.toState;
      if src.None? || src.value == "" || dst.None? || dst.value == "" {
        DrewSkip(transitions, i, edges, edgeCounts);
        continue;
      }
      var srcName := Strip(src.value);
      var dstName := Strip(dst.value);
      var labels := TruncateLabel(t.triggerIntent, MaxLabelLength);
      var pairKey := (srcName, dstName);
      var currentCount := if pairKey in edgeCounts then edgeCounts[pairKey] else 0;
      DrewNext(transitions, i, edges, edgeCounts, pairKey, currentCount, labels);
      edgeCounts := edgeCounts[pairKey := currentCount + 1];
      edges := edges + [DrawnEdge(srcName, dstName, labels.0, labels.1, currentCount)];
    }
    assert transitions[..|transitions|] == transitions;
  }

  /** The k-th edge is made from the k-th drawn transition and the pairs
      drawn before it. */
  lemma {:induction false} EdgesOfAt(ds: seq<Transition>, k: nat)
    requires k < |ds|
    ensures EdgesOf(ds)[k] == EdgeAfter(Pairs(ds)[..k], ds[k])
  {
    var front, last := ds[..|ds| - 1], ds[|ds| - 1];
    if k < |front| {
      EdgesOfAt(front, k);
      EdgesOfFront(ds, k);
    } else {
      assert ds == front + [last];
      EdgesOfNext(front, last);
      assert Pairs(ds)[..k] == Pairs(front);
    }
  }

  /** An edge before the last is the same edge without the last transition. */
  lemma EdgesOfFront(ds: seq<Transition>, k: nat)
    requires k < |ds| - 1
    requires EdgesOf(ds[..|ds| - 1])[k] == EdgeAfter(Pairs(ds[..|ds| - 1])[..k], ds[k])
    ensures EdgesOf(ds)[k] == EdgeAfter(Pairs(ds)[..k], ds[k])
  {
    EdgesOfPrefix(ds, k);
    PairsPrefix(ds, k);
  }

  lemma EdgesOfPrefix(ds: seq<Transition>, k: nat)
    requires k < |ds| - 1
    ensures EdgesOf(ds)[k] == EdgesOf(ds[..|ds| - 1])[k]
  {
  }

  lemma PairsPrefix(ds: seq<Transition>, k: nat)
    requires k < |ds| - 1
    ensures Pairs(ds)[..k] == Pairs(ds[..|ds| - 1])[..k]
  {
    var front := ds[..|ds| - 1];
    assert Pairs(ds) == Pairs(front) + [PairOf(ds[|ds| - 1])];
    TakeOfSnoc(Pairs(front), PairOf(ds[|ds| - 1]), k);
  }

  /** The k-th drawn transition becomes an edge between its stripped states,
      labelled by truncate_label, whose count is the number of earlier drawn
      transitions between the same two states. */
  lemma EdgesOfSpec(ds: seq<Transition>, k: nat)
    requires k < |ds|
    ensures var e, ps := EdgesOf(ds)[k], Pairs(ds);
      (e.src, e.dst) == PairOf(ds[k])
      && (e.shown, e.fullText) == TruncateLabel(ds[k].triggerIntent, MaxLabelLength)
      && e.earlier == |set j | 0 <= j < k && ps[j] == ps[k]|
  {
    EdgesOfAt(ds, k);
    EarlierCount(Pairs(ds), k);
  }

  lemma EarlierCount(ps: seq<(string, string)>, k: nat)
    requires k < |ps|
    ensures Occurrences(ps[..k], ps[k]) == |set j | 0 <= j < k && ps[j] == ps[k]|
  {
    OccurrencesCount(ps[..k], ps[k]);
    assert (set j | 0 <= j < k && ps[j] == ps[k]) == set j | 0 <= j < |ps[..k]| && ps[..k][j] == ps[k];
  }

  /** How often pair occurs in ps, as a count of positions. */
  lemma {:induction false} OccurrencesCount(ps: seq<(string, string)>, pair: (string, string))
    ensures Occurrences(ps, pair) == |set j | 0 <= j < |ps| && ps[j] == pair|
  {
    if ps != [] {
      var front := ps[..|ps| - 1];
      OccurrencesCount(front, pair);
      var a := set j | 0 <= j < |front| && front[j] == pair;
      var b := set j | 0 <= j < |ps| && ps[j] == pair;
      if ps[|ps| - 1] == pair {
        assert b == a + {|ps| - 1};
      } else {
        assert b == a;
      }
    }
  }
}
