/**
 * The arithmetic and the ordering behind eviction (cmd/llm-proxy/cache_manager.go, sweep, makeSpace,
 * entryModTime).  Byte counts are 64-bit integers: products and sums wrap around, division truncates.
 */
module Capacity {
  import opened Prelude

  const MAX_INT64 := 0x7FFF_FFFF_FFFF_FFFF
  const TWO_64 := 0x1_0000_0000_0000_0000

  predicate Int64(x: int) { -MAX_INT64 - 1 <= x <= MAX_INT64 }

  type Bytes64 = x: int | Int64(x)

  /** What a 64-bit register holds of an integer. */
  function Wrap(x: int): (r: int)
    ensures Int64(r)
    ensures Int64(x) <==> r == x
  {
    (x + MAX_INT64 + 1) % TWO_64 - MAX_INT64 - 1
  }

  function TruncatedDiv(a: int, b: int): int
    requires b > 0
  {
    if a >= 0 then a / b else -(-a / b)
  }

  /** capacity*percent/100. */
  function Percent(capacity: int, percent: int): int { TruncatedDiv(Wrap(capacity * percent), 100) }

  /** used+incoming. */
  function Sum(used: int, incoming: int): int { Wrap(used + incoming) }

  /** The percentage is exact if and only if the product fits. */
  lemma PercentExact(capacity: int, percent: int)
    requires 0 <= capacity && 0 < percent
    ensures Percent(capacity, percent) == capacity * percent / 100 <==> capacity <= MAX_INT64 / percent
  {
    var product := capacity * percent;
    FitsIff(MAX_INT64, capacity, percent);
    assert product >= 0;
    if product > MAX_INT64 {
      var w := Wrap(product);
      assert w <= MAX_INT64;
      var k := (product + MAX_INT64 + 1) / TWO_64;
      assert product == w + k * TWO_64 && k >= 1;
      assert w <= product - TWO_64;
      TruncatedBelow(w, product - TWO_64);
    }
  }

  lemma FitsIff(m: nat, c: nat, p: nat)
    requires p > 0
    ensures c * p <= m <==> c <= m / p
  {
    var q := m / p;
    assert m == q * p + m % p;
    if c <= q {
      MulMonotone(c, q, p);
    } else {
      MulMonotone(q + 1, c, p);
      assert (q + 1) * p == q * p + p;
    }
  }

  lemma MulMonotone(a: nat, b: nat, p: nat)
    requires a <= b
    ensures a * p <= b * p
  {
    assert b * p == a * p + (b - a) * p;
  }

  lemma TruncatedBelow(w: int, bound: int)
    requires w <= bound
    ensures TruncatedDiv(w, 100) < (bound + TWO_64) / 100
  {
  }

  /** The sum is exact if and only if it fits. */
  lemma SumExact(used: int, incoming: int)
    requires 0 <= used && 0 <= incoming
    ensures Sum(used, incoming) == used + incoming <==> used + incoming <= MAX_INT64
  {
  }

  /** Below the limit the two thresholds of a sweep are ordered: eviction stops at or below where it starts. */
  lemma HysteresisOrdered(capacity: int)
    requires 0 <= capacity <= MAX_INT64 / 80
    ensures 0 <= Percent(capacity, 65) <= Percent(capacity, 80) <= capacity
  {
    PercentExact(capacity, 65);
    PercentExact(capacity, 80);
  }

  /** Just beyond the limit the threshold for new artifacts is negative, so that none is ever admitted. */
  lemma OverflowRefuses(capacity: int, incoming: int)
    requires MAX_INT64 < capacity * 95 < TWO_64 - 100 && 0 <= incoming
    ensures Percent(capacity, 95) < 0 <= incoming
  {
    var product := capacity * 95;
    assert Wrap(product) == product - TWO_64;
  }

  // ------------------------------------------------------------------ oldest first

  /** A marker as os.ReadDir lists it; one that can no longer be examined has no modification time. */
  datatype Listed = Listed(name: string, modified: Option<int>)

  /** The order of the sort: an entry without a time counts as the oldest. */
  predicate Before(a: Listed, b: Listed) {
    b.modified.Some? && (a.modified.None? || a.modified.value < b.modified.value)
  }

  predicate OldestFirst(s: seq<Listed>) { forall i, j :: 0 <= i < j < |s| ==> !Before(s[j], s[i]) }

  /** sort.Slice by modification time: some oldest-first order of the entries; ties are left open. */
  method SortByAge(entries: seq<Listed>) returns (sorted: seq<Listed>)
    ensures OldestFirst(sorted) && multiset(sorted) == multiset(entries)
  {
    sorted := [];
    for i := 0 to |entries|
      invariant OldestFirst(sorted) && multiset(sorted) == multiset(entries[..i])
    {
      assert entries[..i + 1] == entries[..i] + [entries[i]];
      sorted := InsertByAge(sorted, entries[i]);
    }
    assert entries[..|entries|] == entries;
  }

  method InsertByAge(sorted: seq<Listed>, e: Listed) returns (r: seq<Listed>)
    requires OldestFirst(sorted)
    ensures OldestFirst(r) && multiset(r) == multiset(sorted) + multiset{e}
  {
    var i := 0;
    while i < |sorted| && !Before(e, sorted[i])
      invariant 0 <= i <= |sorted| && forall j :: 0 <= j < i ==> !Before(e, sorted[j])
    {
      i := i + 1;
    }
    r := sorted[..i] + [e] + sorted[i..];
    assert sorted == sorted[..i] + sorted[i..];
    InsertedInOrder(sorted, e, i);
  }

  lemma InsertedInOrder(sorted: seq<Listed>, e: Listed, i: nat)
    requires OldestFirst(sorted) && i <= |sorted| && (forall j :: 0 <= j < i ==> !Before(e, sorted[j]))
    requires i < |sorted| ==> Before(e, sorted[i])
    ensures OldestFirst(sorted[..i] + [e] + sorted[i..])
  {
    var r := sorted[..i] + [e] + sorted[i..];
    forall a, b | 0 <= a < b < |r| ensures !Before(r[b], r[a]) {
      if a == i {
        assert r[b] == sorted[b - 1] && (b - 1 == i || !Before(sorted[b - 1], sorted[i]));
      } else if b == i {
        assert r[a] == sorted[a];
      } else {
        var a', b' := if a < i then a else a - 1, if b < i then b else b - 1;
        assert r[a] == sorted[a'] && r[b] == sorted[b'];
      }
    }
  }
}
