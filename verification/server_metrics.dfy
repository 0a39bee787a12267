/** The histogram of readiness batch sizes and the percentile read from it. */
module Metrics {
  import opened Arithmetic

  // --------------------------------------------------- counting in a history

  /** How many entries of `s` are below `v`. */
  function Below(s: seq<nat>, v: nat): nat {
    if s == [] then 0 else Below(s[..|s| - 1], v) + (if s[|s| - 1] < v then 1 else 0)
  }

  function Sum(s: seq<nat>): nat {
    if s == [] then 0 else Sum(s[..|s| - 1]) + s[|s| - 1]
  }

  ghost predicate Sorted(s: seq<nat>) {
    forall i, j :: 0 <= i < j < |s| ==> s[i] <= s[j]
  }

  ghost predicate SortedCopy(s: seq<nat>, history: seq<nat>) {
    Sorted(s) && multiset(s) == multiset(history)
  }

  lemma {:induction false} BelowGrows(s: seq<nat>, x: nat, v: nat)
    ensures Below(s + [x], v) == Below(s, v) + (if x < v then 1 else 0)
  {
    assert (s + [x])[..|s|] == s;
  }

  lemma {:induction false} BelowAppend(a: seq<nat>, b: seq<nat>, v: nat)
    ensures Below(a + b, v) == Below(a, v) + Below(b, v)
  {
    if b == [] {
      assert a + b == a;
    } else {
      var front, last := b[..|b| - 1], b[|b| - 1];
      BelowAppend(a, front, v);
      assert a + b == (a + front) + [last];
      BelowGrows(a + front, last, v);
    }
  }

  lemma BelowWithout(s: seq<nat>, k: nat, v: nat)
    requires k < |s|
    ensures Below(s, v) == Below(s[..k] + s[k + 1..], v) + (if s[k] < v then 1 else 0)
  {
    hide Below;
    assert s == (s[..k] + [s[k]]) + s[k + 1..];
    BelowAppend(s[..k] + [s[k]], s[k + 1..], v);
    BelowGrows(s[..k], s[k], v);
    BelowAppend(s[..k], s[k + 1..], v);
  }

  lemma OneLess(s: seq<nat>, k: nat)
    requires k < |s|
    ensures multiset(s[..k] + s[k + 1..]) == multiset(s) - multiset{s[k]}
  {
    assert s == s[..k] + [s[k]] + s[k + 1..];
    assert multiset(s) == multiset(s[..k]) + multiset{s[k]} + multiset(s[k + 1..]);
  }

  /** Counting does not depend on the order of the entries. */
  lemma {:induction false} BelowOfPermutation(a: seq<nat>, b: seq<nat>, v: nat)
    requires multiset(a) == multiset(b)
    ensures Below(a, v) == Below(b, v)
  {
    if a == [] {
      assert |b| == |multiset(b)| == 0;
    } else {
      var n, last := |a| - 1, a[|a| - 1];
      assert a == a[..n] + [last];
      assert last in multiset(b);
      var k :| 0 <= k < |b| && b[k] == last;
      var rest := b[..k] + b[k + 1..];
      OneLess(a, n);
      OneLess(b, k);
      assert a[n + 1..] == [] && a[..n] + [] == a[..n];
      BelowOfPermutation(a[..n], rest, v);
      BelowWithout(b, k, v);
    }
  }

  /** In a sorted list the entries below `v` come first. */
  lemma {:induction false} BelowOfSorted(s: seq<nat>, v: nat)
    requires Sorted(s)
    ensures Below(s, v) <= |s|
    ensures forall i :: 0 <= i < |s| ==> (s[i] < v <==> i < Below(s, v))
  {
    if s != [] {
      var n := |s| - 1;
      BelowOfSorted(s[..n], v);
      assert forall i :: 0 <= i < n ==> s[..n][i] == s[i] <= s[n];
    }
  }

  lemma {:induction false} BelowNothing(s: seq<nat>)
    ensures Below(s, 0) == 0
  {
    if s != [] {
      BelowNothing(s[..|s| - 1]);
    }
  }

  lemma {:induction false} BelowEverything(s: seq<nat>, v: nat)
    requires forall i :: 0 <= i < |s| ==> s[i] < v
    ensures Below(s, v) == |s|
  {
    if s != [] {
      BelowEverything(s[..|s| - 1], v);
    }
  }

  /** The entry of rank `target` is the value at which the count reaches it. */
  lemma RankIs(s: seq<nat>, history: seq<nat>, target: nat, v: nat)
    requires SortedCopy(s, history)
    requires Below(history, v) < target <= Below(history, v + 1)
    ensures target <= |s| == |history| && s[target - 1] == v
  {
    assert |s| == |multiset(s)| == |history|;
    BelowOfPermutation(s, history, v);
    BelowOfPermutation(s, history, v + 1);
    BelowOfSorted(s, v);
    BelowOfSorted(s, v + 1);
  }

  // ------------------------------------------------------------------- ranks

  /** floor(fraction * n + 0.999999), at least 1, for fraction = p / q. */
  function Target(p: nat, q: nat, n: nat): (r: nat)
    requires q > 0
    ensures r >= 1
  {
    var t := (1000000 * (p * n) + 999999 * q) / (1000000 * q);
    if t < 1 then 1 else t
  }

  /** The nearest rank, ceil(p * n / q). */
  function Ceiling(m: nat, q: nat): nat
    requires q > 0
  {
    (m + q - 1) / q
  }

  lemma Scaled(m: nat, k: nat, q: nat, r: nat)
    requires m == k * q + r
    ensures 1000000 * m == k * (1000000 * q) + 1000000 * r
  {
    assert k * (1000000 * q) == 1000000 * (k * q);
  }

  /** Rounding `m / q + 0.999999` down, from the quotient and remainder of m by q. */
  lemma RoundedSum(m: nat, q: nat, k: nat, r: nat)
    requires q > 0 && m == k * q + r && r < q
    ensures (1000000 * m + 999999 * q) / (1000000 * q) == if 1000000 * r >= q then k + 1 else k
  {
    Scaled(m, k, q, r);
    OneMoreTimes(k, 1000000 * q);
    if 1000000 * r >= q {
      DivIs(1000000 * m + 999999 * q, 1000000 * q, k + 1, 1000000 * r - q);
    } else {
      DivIs(1000000 * m + 999999 * q, 1000000 * q, k, 1000000 * r + 999999 * q);
    }
  }

  lemma CeilingIs(m: nat, q: nat, k: nat, r: nat)
    requires q > 0 && m == k * q + r && r < q
    ensures Ceiling(m, q) == if r == 0 then k else k + 1
  {
    OneMoreTimes(k, q);
    if r == 0 {
      DivIs(m + q - 1, q, k, q - 1);
    } else {
      DivIs(m + q - 1, q, k + 1, r - 1);
    }
  }

  /** The least whole number not below the quotient. */
  lemma CeilingBounds(m: nat, q: nat)
    requires q > 0
    ensures Ceiling(m, q) * q >= m && (m > 0 ==> Ceiling(m, q) > 0 && (Ceiling(m, q) - 1) * q < m)
  {
    var k, r := m / q, m % q;
    DivMod(m, q);
    CeilingIs(m, q, k, r);
    OneMoreTimes(k, q);
    if k > 0 {
      OneMoreTimes(k - 1, q);
    }
  }

  /** Adding 0.999999 before rounding down rounds up exactly when what is to
      be rounded is whole, below 1, or at least a millionth above a whole. */
  lemma TargetIsCeiling(p: nat, q: nat, n: nat)
    requires q > 0 && p * n > 0
    ensures Target(p, q, n) == Ceiling(p * n, q)
       <==> p * n < q || (p * n) % q == 0 || 1000000 * ((p * n) % q) >= q
  {
    var m := p * n;
    var k, r := m / q, m % q;
    DivMod(m, q);
    RoundedSum(m, q, k, r);
    CeilingIs(m, q, k, r);
    if k > 0 {
      MulAtLeast(k, q);
    }
    assert k == 0 ==> k * q == 0;
  }

  /** For fractions with denominators up to a million it always rounds up,
      to a rank that the history has. */
  lemma TargetOnGrid(p: nat, q: nat, n: nat)
    requires 0 < p <= q <= 1000000 && n > 0
    ensures Target(p, q, n) == Ceiling(p * n, q)
    ensures 1 <= Ceiling(p * n, q) <= n
  {
    MulAtLeast(p, n);
    DivMod(p * n, q);
    TargetIsCeiling(p, q, n);
    CeilingFits(p, q, n);
  }

  lemma CeilingFits(p: nat, q: nat, n: nat)
    requires 0 < p <= q && n > 0
    ensures Ceiling(p * n, q) <= n
  {
    var k, r := (p * n) / q, (p * n) % q;
    DivMod(p * n, q);
    CeilingIs(p * n, q, k, r);
    ProductAtMost(p, q, n);
    if k > n {
      MulAtLeast(k - n, q);
      MulDifference(k, n, q);
    }
    assert k == n ==> r == 0;
  }

  lemma ProductAtMost(p: nat, q: nat, n: nat)
    requires p <= q
    ensures p * n <= n * q
  {
    assert (q - p) * n >= 0;
    assert (q - p) * n == q * n - p * n;
  }

  /** A finer fraction for which it does not: 1000001/2000001 of two waits. */
  lemma TargetOffGrid()
    ensures Target(1000001, 2000001, 2) == 1 && Ceiling(1000001 * 2, 2000001) == 2
  {
  }

  // ------------------------------------------------------------------ metrics

  /** Bucket `v` counts the waits that returned `v` events, and every wait has
      a bucket. */
  ghost predicate Histogram(counts: seq<nat>, history: seq<nat>) {
    && (forall v :: 0 <= v < |counts| ==> counts[v] == Below(history, v + 1) - Below(history, v))
    && (forall i :: 0 <= i < |history| ==> history[i] < |counts|)
  }

  lemma MoreBuckets(counts: seq<nat>, history: seq<nat>, n: nat)
    requires Histogram(counts, history)
    ensures Histogram(counts + seq(n, _ => 0), history)
  {
    hide Below;
    forall v | |counts| <= v ensures Below(history, v + 1) == Below(history, v) {
      BelowEverything(history, v);
      BelowEverything(history, v + 1);
    }
  }

  lemma OneMoreWait(counts: seq<nat>, history: seq<nat>, ready: nat)
    requires Histogram(counts, history) && ready < |counts|
    ensures Histogram(counts[ready := counts[ready] + 1], history + [ready])
  {
    hide Below;
    forall v: nat ensures Below(history + [ready], v) == Below(history, v) + (if ready < v then 1 else 0) {
      BelowGrows(history, ready, v);
    }
  }

  lemma SumGrows(history: seq<nat>, ready: nat)
    ensures Sum(history + [ready]) == Sum(history) + ready
  {
    assert (history + [ready])[..|history|] == history;
  }

  class ServerMetrics {
    var active: bool
    var waitCalls: nat
    var totalEvents: nat
    var fullEventBatches: nat
    var eventsPerWait: seq<nat>
    ghost var history: seq<nat>  // the batch sizes recorded since the last reset

    /** Bucket `v` counts the waits that returned `v` events, and the totals
        are those of the history. */
    ghost predicate Valid()
      reads this
    {
      && waitCalls == |history|
      && totalEvents == Sum(history)
      && fullEventBatches <= waitCalls
      && Histogram(eventsPerWait, history)
    }

    constructor ()
      ensures Valid() && history == [] && !active
    {
      active, waitCalls, totalEvents, fullEventBatches, eventsPerWait, history := false, 0, 0, 0, [], [];
    }

    method Reset()
      modifies this
      ensures Valid() && history == [] && active == old(active)
    {
      waitCalls, totalEvents, fullEventBatches, eventsPerWait, history := 0, 0, 0, [], [];
    }

    method RecordWait(ready: nat, maxevents: nat)
      requires Valid()
      modifies this
      ensures Valid() && active == old(active)
      ensures history == if active then old(history) + [ready] else old(history)
      ensures fullEventBatches == old(fullEventBatches) + (if active && ready == maxevents then 1 else 0)
    {
      hide Histogram, Sum;
      if !active {
        return;
      }
      waitCalls := waitCalls + 1;
      totalEvents := totalEvents + ready;
      if ready == maxevents {
        fullEventBatches := fullEventBatches + 1;
      }
      if |eventsPerWait| <= ready {
        MoreBuckets(eventsPerWait, history, ready + 1 - |eventsPerWait|);
        eventsPerWait := eventsPerWait + seq(ready + 1 - |eventsPerWait|, _ => 0);
      }
      OneMoreWait(eventsPerWait, history, ready);
      SumGrows(history, ready);
      eventsPerWait := eventsPerWait[ready := eventsPerWait[ready] + 1];
      history := history + [ready];
    }

    /** The largest batch recorded, or 0. */
    method MaxEventsPerWait() returns (r: nat)
      requires Valid()
      ensures history == [] ==> r == 0
      ensures history != [] ==> r in history && forall i :: 0 <= i < |history| ==> history[i] <= r
    {
      var value := |eventsPerWait|;
      while value > 0
        invariant value <= |eventsPerWait|
        invariant forall i :: 0 <= i < |history| ==> history[i] < value
      {
        if eventsPerWait[value - 1] != 0 {
          ReachedBy(history, value - 1);
          return value - 1;
        }
        NotReached(history, value - 1);
        value := value - 1;
      }
      r := 0;
    }

    /** The batch size of rank Target(p, q, n) in the sorted history of n
        waits; the largest one when that rank is past the end. */
    method EventsPercentile(p: nat, q: nat) returns (r: nat)
      requires Valid() && q > 0
      ensures history == [] ==> r == 0
      ensures history != [] ==> forall s {:trigger SortedCopy(s, history)} :: SortedCopy(s, history) ==>
        |s| == |history| && r == s[if Target(p, q, |history|) <= |s| then Target(p, q, |history|) - 1 else |s| - 1]
    {
      if waitCalls == 0 {
        return 0;
      }
      var target := Target(p, q, waitCalls);
      var seen := 0;
      BelowNothing(history);
      for value := 0 to |eventsPerWait|
        invariant seen == Below(history, value) < target
      {
        seen := seen + eventsPerWait[value];
        if seen >= target {
          forall s | SortedCopy(s, history)
            ensures |s| == |history| && target <= |s| && s[target - 1] == value
          {
            RankIs(s, history, target, value);
          }
          return value;
        }
      }
      BelowEverything(history, |eventsPerWait|);
      r := MaxEventsPerWait();
      forall s | SortedCopy(s, history)
        ensures |s| == |history| && s[|s| - 1] == r
      {
        LastIsLargest(s, history, r);
      }
    }
  }

  lemma {:induction false} ReachedBy(s: seq<nat>, v: nat)
    requires Below(s, v + 1) != Below(s, v)
    ensures v in s
  {
    if s != [] && s[|s| - 1] != v {
      ReachedBy(s[..|s| - 1], v);
    }
  }

  lemma {:induction false} NotReached(s: seq<nat>, v: nat)
    requires Below(s, v + 1) == Below(s, v)
    ensures v !in s
  {
    if s != [] {
      BelowMonotone(s[..|s| - 1], v);
      NotReached(s[..|s| - 1], v);
    }
  }

  lemma {:induction false} BelowMonotone(s: seq<nat>, v: nat)
    ensures Below(s, v) <= Below(s, v + 1)
  {
    if s != [] {
      BelowMonotone(s[..|s| - 1], v);
    }
  }

  lemma LastIsLargest(s: seq<nat>, history: seq<nat>, r: nat)
    requires SortedCopy(s, history) && r in history && forall i :: 0 <= i < |history| ==> history[i] <= r
    ensures |s| == |history| && s[|s| - 1] == r
  {
    assert |s| == |multiset(s)| == |history|;
    assert r in multiset(s);
    assert s[|s| - 1] in multiset(history);
  }
}
