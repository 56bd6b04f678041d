/**
  Two loop shapes over a sequence, stated once for any element type: the
  search that stops at the first element with a property, and the
  accumulation that appends a piece for each element.
 */
module Seqs {

  /**
    The first index in `[i, hi)` whose element satisfies `f`, or -1 when
    there is none.
   */
  function FirstFrom<T>(f: T -> bool, xs: seq<T>, i: nat, hi: nat): (r: int)
    requires i <= hi <= |xs|
    ensures r == -1 || i <= r < hi
    ensures r >= 0 ==> f(xs[r]) && forall j :: i <= j < r ==> !f(xs[j])
    ensures r == -1 <==> forall j :: i <= j < hi ==> !f(xs[j])
    decreases hi - i
  {
    if i == hi then -1
    else if f(xs[i]) then i
    else FirstFrom(f, xs, i + 1, hi)
  }

  /** The pieces `f(xs[i]), ..., f(xs[j - 1])`, one after another. */
  function ConcatFrom<T, U>(f: T -> seq<U>, xs: seq<T>, i: nat, j: nat): seq<U>
    requires i <= j <= |xs|
    decreases j - i
  {
    if i == j then [] else ConcatFrom(f, xs, i, j - 1) + f(xs[j - 1])
  }

  /** The pieces of `[i, j)` followed by those of `[j, n)` are the pieces of `[i, n)`. */
  lemma {:induction false} ConcatSplit<T, U>(f: T -> seq<U>, xs: seq<T>, i: nat, j: nat, n: nat)
    requires i <= j <= n <= |xs|
    ensures ConcatFrom(f, xs, i, n) == ConcatFrom(f, xs, i, j) + ConcatFrom(f, xs, j, n)
    decreases n - j
  {
    if j < n {
      ConcatSplit(f, xs, i, j, n - 1);
      var a, b, c := ConcatFrom(f, xs, i, j), ConcatFrom(f, xs, j, n - 1), f(xs[n - 1]);
      assert (a + b) + c == a + (b + c);
    }
  }

  /** When every piece has only elements satisfying `p`, so has their concatenation. */
  lemma {:induction false} ConcatAll<T, U>(f: T -> seq<U>, p: U -> bool, xs: seq<T>, i: nat, j: nat)
    requires i <= j <= |xs|
    requires forall n :: i <= n < j ==> forall k :: 0 <= k < |f(xs[n])| ==> p(f(xs[n])[k])
    ensures forall k :: 0 <= k < |ConcatFrom(f, xs, i, j)| ==> p(ConcatFrom(f, xs, i, j)[k])
    decreases j - i
  {
    if i < j {
      ConcatAll(f, p, xs, i, j - 1);
      var a, b := ConcatFrom(f, xs, i, j - 1), f(xs[j - 1]);
      assert ConcatFrom(f, xs, i, j) == a + b;
      forall k | 0 <= k < |a + b| ensures p((a + b)[k]) {
        if k >= |a| {
          assert (a + b)[k] == b[k - |a|];
        }
      }
    }
  }

  /** Concatenation regroups freely. */
  lemma AppendAssoc<T>(a: seq<T>, b: seq<T>, c: seq<T>)
    ensures a + (b + c) == (a + b) + c
  {
  }
}
