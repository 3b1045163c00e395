/** Sequence helpers: first-match lookup, and the order-preserving filter
    behind every `Where(...)`, `findAll(spec)` and `Array.prototype.filter` in
    the system. */
module Seqs {
  import opened Wrappers

  /** The index of the first element satisfying `f`: `FirstOrDefault` and
      `findById` over an ordered table. */
  function FirstIndex<T>(f: T -> bool, s: seq<T>): (r: Option<nat>)
    ensures r.Some? ==> r.value < |s| && f(s[r.value])
    ensures r.Some? ==> forall j | 0 <= j < r.value :: !f(s[j])
    ensures r.None? ==> forall j | 0 <= j < |s| :: !f(s[j])
  {
    if |s| == 0 then None
    else if f(s[0]) then Some(0)
    else
      match FirstIndex(f, s[1..])
      case None =>
        assert forall j | 1 <= j < |s| :: s[j] == s[1..][j - 1];
        None
      case Some(k) => Some(k + 1)
  }

  /** The elements of `s` that satisfy `f`, in their original order. */
  function Filter<T>(f: T -> bool, s: seq<T>): (r: seq<T>)
    ensures |r| <= |s|
    ensures forall x | x in r :: f(x) && x in s
    ensures forall x | x in s && f(x) :: x in r
  {
    if |s| == 0 then []
    else
      var rest := Filter(f, s[1..]);
      assert forall i | 1 <= i < |s| :: s[i] == s[1..][i - 1];
      if f(s[0]) then [s[0]] + rest else rest
  }

  /** Filtering a concatenation filters each part. */
  lemma {:induction false} FilterAppend<T>(f: T -> bool, a: seq<T>, b: seq<T>)
    ensures Filter(f, a + b) == Filter(f, a) + Filter(f, b)
  {
    if |a| == 0 {
      assert a + b == b;
    } else {
      assert (a + b)[1..] == a[1..] + b;
      FilterAppend(f, a[1..], b);
    }
  }

  /** How many elements satisfy `f`: `s.filter(f).length`. */
  function Count<T>(f: T -> bool, s: seq<T>): (n: nat)
    ensures n <= |s|
  {
    if |s| == 0 then 0 else (if f(s[0]) then 1 else 0) + Count(f, s[1..])
  }

  /** Counting over a concatenation adds the counts of the parts. */
  lemma {:induction false} CountAppend<T>(f: T -> bool, a: seq<T>, b: seq<T>)
    ensures Count(f, a + b) == Count(f, a) + Count(f, b)
  {
    if |a| == 0 {
      assert a + b == b;
    } else {
      assert (a + b)[1..] == a[1..] + b;
      CountAppend(f, a[1..], b);
    }
  }

  /** No element satisfies `f` exactly when the count is zero. */
  lemma {:induction false} CountZero<T>(f: T -> bool, s: seq<T>)
    ensures Count(f, s) == 0 <==> forall i | 0 <= i < |s| :: !f(s[i])
  {
    if |s| > 0 {
      CountZero(f, s[1..]);
      assert forall i | 1 <= i < |s| :: s[i] == s[1..][i - 1];
    }
  }

  /** When exactly one element satisfies `f`, the count is one. */
  lemma {:induction false} CountSingle<T>(f: T -> bool, s: seq<T>, k: nat)
    requires k < |s| && f(s[k])
    requires forall j | 0 <= j < |s| && j != k :: !f(s[j])
    ensures Count(f, s) == 1
  {
    assert forall j | 1 <= j < |s| :: s[j] == s[1..][j - 1];
    if k == 0 {
      CountZero(f, s[1..]);
    } else {
      CountSingle(f, s[1..], k - 1);
    }
  }
}
