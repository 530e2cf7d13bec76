/** The similarity score of cluster_paths: difflib.SequenceMatcher(None, a, b)
    .ratio() on two signatures. With no junk function and sequences shorter
    than 200 (so that the autojunk heuristic stays off), the matcher finds the
    longest common block, recurses on the parts to its left and to its right,
    and scores 2 * (matched elements) / (|a| + |b|). */
module Matcher {

  /** A matching block: a[i..i + size] == b[j..j + size]. */
  datatype Block = Block(i: nat, j: nat, size: nat)

  /** The length of the longest common run starting at a[i] and b[j] inside
      a[..ahi] and b[..bhi]. */
  function RunAt<T(==)>(a: seq<T>, b: seq<T>, i: nat, ahi: nat, j: nat, bhi: nat): (k: nat)
    requires i <= ahi <= |a| && j <= bhi <= |b|
    decreases ahi - i
  {
    if i < ahi && j < bhi && a[i] == b[j] then 1 + RunAt(a, b, i + 1, ahi, j + 1, bhi) else 0
  }

  lemma {:induction false} RunAtBounds<T>(a: seq<T>, b: seq<T>, i: nat, ahi: nat, j: nat, bhi: nat)
    requires i <= ahi <= |a| && j <= bhi <= |b|
    ensures i + RunAt(a, b, i, ahi, j, bhi) <= ahi && j + RunAt(a, b, i, ahi, j, bhi) <= bhi
    decreases ahi - i
  {
    if i < ahi && j < bhi && a[i] == b[j] {
      RunAtBounds(a, b, i + 1, ahi, j + 1, bhi);
    }
  }

  /** Any common block starting at (i, j) is at most the run there. */
  lemma {:induction false} RunAtMaximal<T>(a: seq<T>, b: seq<T>, i: nat, ahi: nat, j: nat, bhi: nat, k: nat)
    requires ahi <= |a| && bhi <= |b| && i + k <= ahi && j + k <= bhi
    requires a[i..i + k] == b[j..j + k]
    ensures k <= RunAt(a, b, i, ahi, j, bhi)
    decreases k
  {
    if k > 0 {
      assert a[i] == a[i..i + k][0] == b[j..j + k][0] == b[j];
      assert a[i + 1..i + k] == a[i..i + k][1..] == b[j..j + k][1..] == b[j + 1..j + k];
      RunAtMaximal(a, b, i + 1, ahi, j + 1, bhi, k - 1);
    }
  }

  /** The first longest run in row i, columns j..bhi - 1 of the search box;
      ties keep the earlier column. */
  function BestInRow<T(==)>(a: seq<T>, b: seq<T>, i: nat, ahi: nat, j: nat, bhi: nat): (m: Block)
    requires i <= ahi <= |a| && j <= bhi <= |b|
    ensures m.i == i && j <= m.j <= bhi && i + m.size <= ahi && m.j + m.size <= bhi
    ensures m.size == 0 ==> m.j == j
    decreases bhi - j
  {
    if j == bhi then Block(i, j, 0)
    else
      var k := RunAt(a, b, i, ahi, j, bhi);
      RunAtBounds(a, b, i, ahi, j, bhi);
      var rest := BestInRow(a, b, i, ahi, j + 1, bhi);
      if k >= rest.size then Block(i, j, k) else rest
  }

  /** No run in the rest of the row is longer than the one chosen, and the
      chosen one is the first of that length. */
  lemma {:induction false} BestInRowFirst<T>(a: seq<T>, b: seq<T>, i: nat, ahi: nat, j: nat, bhi: nat)
    requires i <= ahi <= |a| && j <= bhi <= |b|
    ensures var m := BestInRow(a, b, i, ahi, j, bhi);
      && m.size == RunAt(a, b, i, ahi, m.j, bhi)
      && (forall c :: j <= c < bhi ==> RunAt(a, b, i, ahi, c, bhi) <= m.size)
      && (forall c :: j <= c < bhi && RunAt(a, b, i, ahi, c, bhi) == m.size ==> m.j <= c)
    decreases bhi - j
  {
    if j < bhi {
      BestInRowFirst(a, b, i, ahi, j + 1, bhi);
    }
  }

  /** a[i..i + k] == b[j..j + k], both in range. */
  predicate CommonBlock<T(==)>(a: seq<T>, b: seq<T>, i: nat, j: nat, k: nat) {
    i + k <= |a| && j + k <= |b| && a[i..i + k] == b[j..j + k]
  }

  lemma {:induction false} RunIsBlock<T>(a: seq<T>, b: seq<T>, i: nat, ahi: nat, j: nat, bhi: nat)
    requires i <= ahi <= |a| && j <= bhi <= |b|
    ensures CommonBlock(a, b, i, j, RunAt(a, b, i, ahi, j, bhi))
    decreases ahi - i
  {
    var k := RunAt(a, b, i, ahi, j, bhi);
    if k > 0 {
      assert a[i] == b[j] && k == 1 + RunAt(a, b, i + 1, ahi, j + 1, bhi);
      RunIsBlock(a, b, i + 1, ahi, j + 1, bhi);
      assert a[i..i + k] == [a[i]] + a[i + 1..i + k];
      assert b[j..j + k] == [b[j]] + b[j + 1..j + k];
    }
  }

  /** find_longest_match(alo, ahi, blo, bhi): the first longest common block of
      a[alo..ahi] and b[blo..bhi], scanning the rows from alo; ties keep the
      earlier row. LongestMatchSpec says which block that is. */
  function LongestMatch<T(==)>(a: seq<T>, b: seq<T>, alo: nat, ahi: nat, blo: nat, bhi: nat): (m: Block)
    requires alo <= ahi <= |a| && blo <= bhi <= |b|
    ensures alo <= m.i <= ahi && blo <= m.j <= bhi && m.i + m.size <= ahi && m.j + m.size <= bhi
    ensures m.size == 0 ==> m.i == alo && m.j == blo
    decreases ahi - alo
  {
    if alo == ahi then Block(alo, blo, 0)
    else
      var row := BestInRow(a, b, alo, ahi, blo, bhi);
      var rest := LongestMatch(a, b, alo + 1, ahi, blo, bhi);
      if row.size >= rest.size then row else rest
  }

  /** No run in rows alo.. is longer than the block found, and the block found
      is the first of that length in row-major order. */
  lemma {:induction false} LongestMatchFirst<T>(a: seq<T>, b: seq<T>, alo: nat, ahi: nat, blo: nat, bhi: nat)
    requires alo <= ahi <= |a| && blo <= bhi <= |b|
    ensures var m := LongestMatch(a, b, alo, ahi, blo, bhi);
      && m.size == RunAt(a, b, m.i, ahi, m.j, bhi)
      && (forall r, c :: alo <= r < ahi && blo <= c < bhi ==> RunAt(a, b, r, ahi, c, bhi) <= m.size)
      && (forall r, c :: alo <= r < ahi && blo <= c < bhi && RunAt(a, b, r, ahi, c, bhi) == m.size
            ==> m.i < r || (m.i == r && m.j <= c))
    decreases ahi - alo
  {
    if alo < ahi {
      BestInRowFirst(a, b, alo, ahi, blo, bhi);
      LongestMatchFirst(a, b, alo + 1, ahi, blo, bhi);
    }
  }

  /** The block found is common to both sides, no common block in the box is
      longer, and among the longest it starts earliest in a, then earliest in b. */
  lemma LongestMatchSpec<T>(a: seq<T>, b: seq<T>, alo: nat, ahi: nat, blo: nat, bhi: nat)
    requires alo <= ahi <= |a| && blo <= bhi <= |b|
    ensures var m := LongestMatch(a, b, alo, ahi, blo, bhi);
      && CommonBlock(a, b, m.i, m.j, m.size)
      && (forall i: nat, j: nat, k: nat :: alo <= i && i + k <= ahi && blo <= j && j + k <= bhi && CommonBlock(a, b, i, j, k)
            ==> k <= m.size)
      && (forall i: nat, j: nat :: alo <= i && i + m.size <= ahi && blo <= j && j + m.size <= bhi
            && CommonBlock(a, b, i, j, m.size)
            ==> m.i < i || (m.i == i && m.j <= j))
  {
    var m := LongestMatch(a, b, alo, ahi, blo, bhi);
    LongestMatchFirst(a, b, alo, ahi, blo, bhi);
    RunIsBlock(a, b, m.i, ahi, m.j, bhi);
    BlockBounds(a, b, alo, ahi, blo, bhi, m);
  }

  lemma {:induction false} LongestMatchRun<T>(a: seq<T>, b: seq<T>, alo: nat, ahi: nat, blo: nat, bhi: nat)
    requires alo <= ahi <= |a| && blo <= bhi <= |b|
    ensures var m := LongestMatch(a, b, alo, ahi, blo, bhi); m.size == RunAt(a, b, m.i, ahi, m.j, bhi)
    decreases ahi - alo
  {
    if alo < ahi {
      BestInRowRun(a, b, alo, ahi, blo, bhi);
      LongestMatchRun(a, b, alo + 1, ahi, blo, bhi);
    }
  }

  lemma {:induction false} BestInRowRun<T>(a: seq<T>, b: seq<T>, i: nat, ahi: nat, j: nat, bhi: nat)
    requires i <= ahi <= |a| && j <= bhi <= |b|
    ensures var m := BestInRow(a, b, i, ahi, j, bhi); m.size == RunAt(a, b, i, ahi, m.j, bhi)
    decreases bhi - j
  {
    if j < bhi {
      BestInRowRun(a, b, i, ahi, j + 1, bhi);
    }
  }

  lemma BlockBounds<T>(a: seq<T>, b: seq<T>, alo: nat, ahi: nat, blo: nat, bhi: nat, m: Block)
    requires alo <= ahi <= |a| && blo <= bhi <= |b|
    requires m == LongestMatch(a, b, alo, ahi, blo, bhi)
    ensures forall i: nat, j: nat, k: nat :: alo <= i && i + k <= ahi && blo <= j && j + k <= bhi && CommonBlock(a, b, i, j, k)
              ==> k <= m.size
    ensures forall i: nat, j: nat :: alo <= i && i + m.size <= ahi && blo <= j && j + m.size <= bhi
              && CommonBlock(a, b, i, j, m.size)
              ==> m.i < i || (m.i == i && m.j <= j)
  {
    forall i: nat, j: nat, k: nat | alo <= i && i + k <= ahi && blo <= j && j + k <= bhi && CommonBlock(a, b, i, j, k)
      ensures k <= m.size
    {
      NoLongerBlock(a, b, alo, ahi, blo, bhi, m, i, j, k);
    }
    forall i: nat, j: nat | alo <= i && i + m.size <= ahi && blo <= j && j + m.size <= bhi && CommonBlock(a, b, i, j, m.size)
      ensures m.i < i || (m.i == i && m.j <= j)
    {
      NoEarlierBlock(a, b, alo, ahi, blo, bhi, m, i, j);
    }
  }

  lemma NoLongerBlock<T>(a: seq<T>, b: seq<T>, alo: nat, ahi: nat, blo: nat, bhi: nat, m: Block, i: nat, j: nat, k: nat)
    requires alo <= ahi <= |a| && blo <= bhi <= |b|
    requires m == LongestMatch(a, b, alo, ahi, blo, bhi)
    requires alo <= i && i + k <= ahi && blo <= j && j + k <= bhi && CommonBlock(a, b, i, j, k)
    ensures k <= m.size
  {
    if k > 0 {
      LongestMatchFirst(a, b, alo, ahi, blo, bhi);
      RunAtMaximal(a, b, i, ahi, j, bhi, k);
      assert RunAt(a, b, i, ahi, j, bhi) <= m.size;
    }
  }

  lemma NoEarlierBlock<T>(a: seq<T>, b: seq<T>, alo: nat, ahi: nat, blo: nat, bhi: nat, m: Block, i: nat, j: nat)
    requires alo <= ahi <= |a| && blo <= bhi <= |b|
    requires m == LongestMatch(a, b, alo, ahi, blo, bhi)
    requires alo <= i && i + m.size <= ahi && blo <= j && j + m.size <= bhi && CommonBlock(a, b, i, j, m.size)
    ensures m.i < i || (m.i == i && m.j <= j)
  {
    if m.size > 0 {
      LongestMatchFirst(a, b, alo, ahi, blo, bhi);
      RunAtMaximal(a, b, i, ahi, j, bhi, m.size);
      assert RunAt(a, b, i, ahi, j, bhi) == m.size;
    }
  }

  /** The number of elements get_matching_blocks() matches inside the box: the
      longest block, then recursively the parts to its left and to its right
      (the sum of the block sizes, which merging adjacent blocks does not
      change). */
  function MatchedIn<T(==)>(a: seq<T>, b: seq<T>, alo: nat, ahi: nat, blo: nat, bhi: nat): (n: nat)
    requires alo <= ahi <= |a| && blo <= bhi <= |b|
    ensures n <= ahi - alo && n <= bhi - blo
    ensures LongestMatch(a, b, alo, ahi, blo, bhi).size <= n
    ensures n == 0 <==> LongestMatch(a, b, alo, ahi, blo, bhi).size == 0
    decreases ahi - alo
  {
    var m := LongestMatch(a, b, alo, ahi, blo, bhi);
    if m.size == 0 then 0
    else MatchedIn(a, b, alo, m.i, blo, m.j) + m.size + MatchedIn(a, b, m.i + m.size, ahi, m.j + m.size, bhi)
  }

  lemma WholeFraction(x: real)
    requires x > 0.0
    ensures 2.0 * x / (x + x) == 1.0
  {
  }

  lemma ZeroFraction(x: real, y: real)
    requires x >= 0.0 && y > 0.0
    ensures x / y == 0.0 <==> x == 0.0
  {
    if x / y == 0.0 {
      assert x == x / y * y;
    }
  }

  /** 0 <= x / y <= 1 for 0 <= x <= y. */
  lemma UnitFraction(x: real, y: real)
    requires 0.0 <= x <= y && y > 0.0
    ensures 0.0 <= x / y <= 1.0
  {
    assert x / y * y == x;
  }

  /** The number of elements SequenceMatcher(None, a, b) matches. */
  function MatchCount<T(==)>(a: seq<T>, b: seq<T>): (n: nat)
    ensures n <= |a| && n <= |b|
  {
    MatchedIn(a, b, 0, |a|, 0, |b|)
  }

  /** SequenceMatcher(None, a, b).ratio(): 2M / T with M the matched count and
      T = |a| + |b|, and 1 when both are empty. */
  function Ratio<T(==)>(a: seq<T>, b: seq<T>): (r: real)
    ensures 0.0 <= r <= 1.0
  {
    if |a| + |b| == 0 then 1.0
    else
      UnitFraction(2.0 * MatchCount(a, b) as real, (|a| + |b|) as real);
      2.0 * MatchCount(a, b) as real / (|a| + |b|) as real
  }

  lemma {:induction false} RunAtSelf<T>(a: seq<T>, i: nat)
    requires i <= |a|
    ensures RunAt(a, a, i, |a|, i, |a|) == |a| - i
    decreases |a| - i
  {
    if i < |a| {
      RunAtSelf(a, i + 1);
    }
  }

  /** A sequence is fully similar to itself. */
  lemma RatioOfEqual<T>(a: seq<T>)
    ensures Ratio(a, a) == 1.0
  {
    var n := |a|;
    if n > 0 {
      var m := LongestMatch(a, a, 0, n, 0, n);
      LongestMatchFirst(a, a, 0, n, 0, n);
      RunAtSelf(a, 0);
      assert m.size == n;
      assert MatchCount(a, a) == n;
      WholeFraction(n as real);
    }
  }

  /** The ratio is 0 exactly when no element of one side occurs in the other
      (for sequences not both empty). */
  lemma RatioZeroIffDisjoint<T>(a: seq<T>, b: seq<T>)
    requires |a| + |b| > 0
    ensures Ratio(a, b) == 0.0 <==> forall i, j :: 0 <= i < |a| && 0 <= j < |b| ==> a[i] != b[j]
  {
    ZeroFraction(2.0 * MatchCount(a, b) as real, (|a| + |b|) as real);
    if Ratio(a, b) == 0.0 {
      NothingMatched(a, b);
    } else {
      SomethingMatched(a, b);
    }
  }

  lemma NothingMatched<T>(a: seq<T>, b: seq<T>)
    requires LongestMatch(a, b, 0, |a|, 0, |b|).size == 0
    ensures forall i, j :: 0 <= i < |a| && 0 <= j < |b| ==> a[i] != b[j]
  {
    LongestMatchFirst(a, b, 0, |a|, 0, |b|);
    forall i, j | 0 <= i < |a| && 0 <= j < |b| ensures a[i] != b[j] {
      assert RunAt(a, b, i, |a|, j, |b|) == 0;
    }
  }

  lemma SomethingMatched<T>(a: seq<T>, b: seq<T>)
    requires LongestMatch(a, b, 0, |a|, 0, |b|).size > 0
    ensures exists i, j :: 0 <= i < |a| && 0 <= j < |b| && a[i] == b[j]
  {
    var m := LongestMatch(a, b, 0, |a|, 0, |b|);
    LongestMatchRun(a, b, 0, |a|, 0, |b|);
    assert a[m.i] == b[m.j];
  }
}
