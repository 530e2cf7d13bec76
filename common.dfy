/** Option and Result values used where the source returns None or raises,
    and subsequences (order-preserving selections). */
module Common {

  datatype Option<+T> = None | Some(value: T)

  datatype Result<+T, +E> = Ok(value: T) | Err(error: E)

  /** x occurs in y in order, possibly with gaps. */
  predicate Subsequence<T(==)>(x: seq<T>, y: seq<T>)
    decreases |y|
  {
    if x == [] then true
    else if y == [] then false
    else if x[|x| - 1] == y[|y| - 1] then Subsequence(x[..|x| - 1], y[..|y| - 1])
    else Subsequence(x, y[..|y| - 1])
  }

  /** A subsequence of y stays one when y grows at the end. */
  lemma {:induction false} SubsequenceExtend<T>(x: seq<T>, y: seq<T>, z: T)
    requires Subsequence(x, y)
    ensures Subsequence(x, y + [z])
    decreases |y|, 1
  {
    assert (y + [z])[..|y|] == y;
    if x != [] && x[|x| - 1] == z {
      SubsequenceDropLast(x, y);
    }
  }

  lemma {:induction false} SubsequenceDropLast<T>(x: seq<T>, y: seq<T>)
    requires x != [] && Subsequence(x, y)
    ensures Subsequence(x[..|x| - 1], y)
    decreases |y|, 0
  {
    var xs, ys := x[..|x| - 1], y[..|y| - 1];
    assert y == ys + [y[|y| - 1]];
    if x[|x| - 1] != y[|y| - 1] {
      SubsequenceDropLast(x, ys);
    }
    SubsequenceExtend(xs, ys, y[|y| - 1]);
  }

  lemma {:induction false} SubsequenceTrans<T>(x: seq<T>, y: seq<T>, z: seq<T>)
    requires Subsequence(x, y) && Subsequence(y, z)
    ensures Subsequence(x, z)
    decreases |z|
  {
    if x != [] {
      var ys, zs := y[..|y| - 1], z[..|z| - 1];
      assert z == zs + [z[|z| - 1]];
      if y[|y| - 1] == z[|z| - 1] {
        if x[|x| - 1] == y[|y| - 1] {
          SubsequenceTrans(x[..|x| - 1], ys, zs);
        } else {
          SubsequenceTrans(x, ys, zs);
          SubsequenceExtend(x, zs, z[|z| - 1]);
        }
      } else {
        SubsequenceTrans(x, y, zs);
        SubsequenceExtend(x, zs, z[|z| - 1]);
      }
    }
  }

  lemma {:induction false} SubsequenceRefl<T>(x: seq<T>)
    ensures Subsequence(x, x)
  {
    if x != [] {
      SubsequenceRefl(x[..|x| - 1]);
    }
  }

  /** Dropping one element leaves a subsequence. */
  lemma {:induction false} SubsequenceSkip<T>(a: seq<T>, x: T, c: seq<T>)
    ensures Subsequence(a + c, a + [x] + c)
  {
    if c == [] {
      SubsequenceRefl(a);
      assert a + c == a;
      assert a + [x] + c == a + [x];
      SubsequenceExtend(a, a, x);
    } else {
      var init, last := c[..|c| - 1], c[|c| - 1];
      assert a + c == (a + init) + [last];
      assert a + [x] + c == (a + [x] + init) + [last];
      assert ((a + init) + [last])[..|a + init|] == a + init;
      assert ((a + [x] + init) + [last])[..|a + [x] + init|] == a + [x] + init;
      SubsequenceSkip(a, x, init);
    }
  }

  /** Removing the element at i leaves a subsequence. */
  lemma SubsequenceRemove<T>(s: seq<T>, i: nat)
    requires i < |s|
    ensures Subsequence(s[..i] + s[i + 1..], s)
  {
    SplitAt(s, i);
    SubsequenceSkip(s[..i], s[i], s[i + 1..]);
  }

  /** A sequence is its part before i, its element at i and its part after. */
  lemma SplitAt<T>(s: seq<T>, i: nat)
    requires i < |s|
    ensures s == s[..i] + [s[i]] + s[i + 1..]
  {
  }

  /** Concatenation regroups freely. */
  lemma AppendAssoc<T>(a: seq<T>, b: seq<T>, c: seq<T>)
    ensures a + b + c == a + (b + c)
  {
  }

  /** The prefix of length i + 1 is the prefix of length i and the element at i. */
  lemma TakeSnoc<T>(s: seq<T>, i: nat)
    requires i < |s|
    ensures s[..i + 1] == s[..i] + [s[i]]
  {
  }

  /** Appending an element leaves every prefix of the old sequence alone. */
  lemma TakeOfSnoc<T>(s: seq<T>, x: T, k: nat)
    requires k <= |s|
    ensures (s + [x])[..k] == s[..k]
  {
  }

  /** Dropping a prefix of the first part of a concatenation. */
  lemma DropAppend<T>(x: seq<T>, y: seq<T>, i: nat)
    requires i <= |x|
    ensures (x + y)[i..] == x[i..] + y
  {
  }
}
