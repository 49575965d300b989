/** Shared value types: optional values, results, and filtering of sequences. */
module Prelude {

  datatype Option<+T> = None | Some(value: T)

  datatype Result<+T> = Success(value: T) | Failure(error: string)

  predicate Distinct<T(==)>(s: seq<T>) { forall i, j :: 0 <= i < j < |s| ==> s[i] != s[j] }

  /** The elements of `s` that satisfy `keep`, in their original order. */
  function Filter<T(!new)>(keep: T -> bool, s: seq<T>): (r: seq<T>)
    ensures forall x :: x in r <==> x in s && keep(x)
    ensures |r| <= |s|
  {
    if s == [] then []
    else if keep(s[0]) then [s[0]] + Filter(keep, s[1..])
    else Filter(keep, s[1..])
  }

  lemma {:induction false} FilterConcat<T(!new)>(keep: T -> bool, a: seq<T>, b: seq<T>)
    ensures Filter(keep, a + b) == Filter(keep, a) + Filter(keep, b)
  {
    if a == [] {
      assert a + b == b;
    } else {
      assert (a + b)[1..] == a[1..] + b;
      FilterConcat(keep, a[1..], b);
    }
  }

  lemma {:induction false} FilterAll<T(!new)>(keep: T -> bool, s: seq<T>)
    requires forall x :: x in s ==> keep(x)
    ensures Filter(keep, s) == s
  {
    if s != [] {
      FilterAll(keep, s[1..]);
      assert s == [s[0]] + s[1..];
    }
  }

  lemma FilterNone<T(!new)>(keep: T -> bool, s: seq<T>)
    requires forall x :: x in s ==> !keep(x)
    ensures Filter(keep, s) == []
  {
    if Filter(keep, s) != [] {
      assert Filter(keep, s)[0] in Filter(keep, s);
    }
  }

  /** Two filters whose predicates exclude each other, applied one after the other, leave nothing. */
  lemma FilterExclusive<T(!new)>(p: T -> bool, q: T -> bool, s: seq<T>)
    requires forall x :: x in s && p(x) ==> !q(x)
    ensures Filter(q, Filter(p, s)) == []
  {
    FilterNone(q, Filter(p, s));
  }

  /**
   * Filtering a slice into its own backing array:
   * the kept elements are written over the front of the array that is being read.
   */
  method CompactInPlace<T(!new)>(a: array<T>, keep: T -> bool) returns (n: nat)
    modifies a
    ensures n <= a.Length
    ensures a[..n] == Filter(keep, old(a[..]))
  {
    n := 0;
    ghost var was := a[..];
    for i := 0 to a.Length
      invariant n <= i
      invariant a[i..] == was[i..]
      invariant a[..n] == Filter(keep, was[..i])
    {
      assert was[..i + 1] == was[..i] + [was[i]];
      FilterConcat(keep, was[..i], [was[i]]);
      assert a[i] == a[i..][0] == was[i];
      assert was[i..][1..] == was[i + 1..];
      if keep(a[i]) {
        a[n] := a[i];
        assert a[..n + 1] == a[..n] + [was[i]];
        n := n + 1;
      }
    }
    assert was[..a.Length] == was;
  }
}
