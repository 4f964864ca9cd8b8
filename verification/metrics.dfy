/** The metrics reader's reduction: the one-minute CPU samples of an instance
    are sorted by time and reduced to the mean of their averages and the
    largest of their maxima; no samples at all reduce to (0, 0). */
module Metrics {

  /** One CPU-utilisation sample: its timestamp and the minute's average and maximum. */
  datatype Datapoint = Datapoint(timestamp: int, average: real, maximum: real)

  /** Sum of the per-sample averages. */
  function SumAverages(ps: seq<Datapoint>): real
  {
    if |ps| == 0 then 0.0 else ps[0].average + SumAverages(ps[1..])
  }

  /** Largest per-sample maximum of a non-empty sample list. */
  function MaxMaximum(ps: seq<Datapoint>): (r: real)
    requires |ps| > 0
    ensures forall i :: 0 <= i < |ps| ==> ps[i].maximum <= r
    ensures exists i :: 0 <= i < |ps| && ps[i].maximum == r
  {
    if |ps| == 1 then ps[0].maximum
    else
      var rest := MaxMaximum(ps[1..]);
      assert forall i :: 1 <= i < |ps| ==> ps[i] == ps[1..][i - 1];
      if ps[0].maximum >= rest then ps[0].maximum else rest
  }

  /** The reduction of `get_cpu_utilization`: `(average, maximum)`. */
  function Reduce(ps: seq<Datapoint>): (r: (real, real))
    ensures |ps| == 0 ==> r == (0.0, 0.0)
    ensures |ps| > 0 ==> r.0 * (|ps| as real) == SumAverages(ps)
    ensures |ps| > 0 ==> forall i :: 0 <= i < |ps| ==> ps[i].maximum <= r.1
    ensures |ps| > 0 ==> exists i :: 0 <= i < |ps| && ps[i].maximum == r.1
  {
    if |ps| == 0 then (0.0, 0.0)
    else (SumAverages(ps) / (|ps| as real), MaxMaximum(ps))
  }

  lemma {:induction false} SumAveragesAppend(a: seq<Datapoint>, b: seq<Datapoint>)
    ensures SumAverages(a + b) == SumAverages(a) + SumAverages(b)
    decreases |a|
  {
    if |a| == 0 {
      assert a + b == b;
    } else {
      assert (a + b)[1..] == a[1..] + b;
      SumAveragesAppend(a[1..], b);
    }
  }

  /** The sum of averages does not depend on the order of the samples. */
  lemma {:induction false} SumAveragesPermutation(a: seq<Datapoint>, b: seq<Datapoint>)
    requires multiset(a) == multiset(b)
    ensures SumAverages(a) == SumAverages(b)
    decreases |a|
  {
    if |a| == 0 {
      assert |b| == |multiset(b)| == 0;
    } else {
      var x := a[0];
      assert x in multiset(b);
      var j :| 0 <= j < |b| && b[j] == x;
      var rest := b[..j] + b[j + 1..];
      RemoveAt(b, j);
      SumWithout(b, j);
      assert multiset(a[1..]) == multiset(a) - multiset{x} by {
        assert a == [x] + a[1..];
      }
      SumAveragesPermutation(a[1..], rest);
    }
  }

  /** Taking out the sample at position `j` removes it from the multiset. */
  lemma RemoveAt(b: seq<Datapoint>, j: nat)
    requires j < |b|
    ensures multiset(b[..j] + b[j + 1..]) == multiset(b) - multiset{b[j]}
  {
    assert b == b[..j] + [b[j]] + b[j + 1..];
  }

  /** Taking out the sample at position `j` removes its average from the sum. */
  lemma SumWithout(b: seq<Datapoint>, j: nat)
    requires j < |b|
    ensures SumAverages(b) == b[j].average + SumAverages(b[..j] + b[j + 1..])
  {
    var x := b[j];
    assert b == b[..j] + ([x] + b[j + 1..]);
    SumAveragesAppend(b[..j], [x] + b[j + 1..]);
    SumAveragesAppend([x], b[j + 1..]);
    SumAveragesAppend(b[..j], b[j + 1..]);
  }

  /** The largest maximum does not depend on the order of the samples. */
  lemma MaxMaximumPermutation(a: seq<Datapoint>, b: seq<Datapoint>)
    requires |a| > 0 && multiset(a) == multiset(b)
    ensures |b| > 0
    ensures MaxMaximum(a) == MaxMaximum(b)
  {
    assert |b| == |multiset(b)| == |multiset(a)| == |a|;
    var i :| 0 <= i < |a| && a[i].maximum == MaxMaximum(a);
    assert a[i] in multiset(b);
    var j :| 0 <= j < |b| && b[j].maximum == MaxMaximum(b);
    assert b[j] in multiset(a);
  }

  /** The reduction is independent of sample order, so sorting first cannot
      change it. */
  lemma ReducePermutation(a: seq<Datapoint>, b: seq<Datapoint>)
    requires multiset(a) == multiset(b)
    ensures Reduce(a) == Reduce(b)
  {
    assert |a| == |multiset(a)| == |multiset(b)| == |b|;
    SumAveragesPermutation(a, b);
    if |a| > 0 {
      MaxMaximumPermutation(a, b);
    }
  }

  lemma {:induction false} SumAveragesAtMost(ps: seq<Datapoint>, hi: real)
    requires forall i :: 0 <= i < |ps| ==> ps[i].average <= hi
    ensures SumAverages(ps) <= hi * (|ps| as real)
    decreases |ps|
  {
    if |ps| > 0 {
      assert forall i :: 0 <= i < |ps| - 1 ==> ps[1..][i] == ps[i + 1];
      SumAveragesAtMost(ps[1..], hi);
    }
  }

  lemma {:induction false} SumAveragesAtLeast(ps: seq<Datapoint>, lo: real)
    requires forall i :: 0 <= i < |ps| ==> lo <= ps[i].average
    ensures lo * (|ps| as real) <= SumAverages(ps)
    decreases |ps|
  {
    if |ps| > 0 {
      assert forall i :: 0 <= i < |ps| - 1 ==> ps[1..][i] == ps[i + 1];
      SumAveragesAtLeast(ps[1..], lo);
    }
  }

  /** The reduced average lies within the range of the per-sample averages. */
  lemma ReduceAverageWithin(ps: seq<Datapoint>, lo: real, hi: real)
    requires |ps| > 0
    requires forall i :: 0 <= i < |ps| ==> lo <= ps[i].average <= hi
    ensures lo <= Reduce(ps).0 <= hi
  {
    SumAveragesAtLeast(ps, lo);
    SumAveragesAtMost(ps, hi);
    MeanWithin(lo, hi, SumAverages(ps), |ps| as real);
  }

  lemma MeanWithin(lo: real, hi: real, sum: real, n: real)
    requires n > 0.0 && lo * n <= sum <= hi * n
    ensures lo <= sum / n <= hi
  {
    assert (sum / n) * n == sum;
    ScaleCancel(lo, sum / n, n);
    ScaleCancel(sum / n, hi, n);
  }

  lemma ScaleCancel(a: real, b: real, n: real)
    requires n > 0.0 && a * n <= b * n
    ensures a <= b
  {
    assert (b - a) * n >= 0.0;
  }

  /** If each sample's average is at most its maximum (as the metrics service
      reports them), the reduced average is at most the reduced maximum. */
  lemma ReduceAverageBelowMaximum(ps: seq<Datapoint>)
    requires forall i :: 0 <= i < |ps| ==> ps[i].average <= ps[i].maximum
    ensures Reduce(ps).0 <= Reduce(ps).1
  {
    if |ps| > 0 {
      var m := MaxMaximum(ps);
      SumAveragesAtMost(ps, m);
      var n := |ps| as real;
      ScaleCancel(Reduce(ps).0, m, n);
    }
  }

  /** Whether `ps` is ordered by timestamp, as after `sort(key=Timestamp)`. */
  predicate SortedByTime(ps: seq<Datapoint>)
  {
    forall i, j :: 0 <= i < j < |ps| ==> ps[i].timestamp <= ps[j].timestamp
  }

  /** Inserts `p` before the first later sample of a time-sorted list. */
  function Insert(p: Datapoint, ps: seq<Datapoint>): (r: seq<Datapoint>)
    requires SortedByTime(ps)
    ensures SortedByTime(r)
    ensures multiset(r) == multiset(ps) + multiset{p}
  {
    if |ps| == 0 then [p]
    else if p.timestamp <= ps[0].timestamp then
      [p] + ps
    else
      var rest := Insert(p, ps[1..]);
      assert ps == [ps[0]] + ps[1..];
      PrependSorted(ps[0], rest, ps[1..], p);
      [ps[0]] + rest
  }

  /** A sample no later than every element of a sorted list may go in front. */
  lemma PrependSorted(q: Datapoint, rest: seq<Datapoint>, tail: seq<Datapoint>, p: Datapoint)
    requires SortedByTime(rest) && multiset(rest) == multiset(tail) + multiset{p}
    requires forall k :: 0 <= k < |tail| ==> q.timestamp <= tail[k].timestamp
    requires q.timestamp <= p.timestamp
    ensures SortedByTime([q] + rest)
  {
    forall k | 0 <= k < |rest|
      ensures q.timestamp <= rest[k].timestamp
    {
      assert rest[k] in multiset(rest);
      if rest[k] != p {
        assert rest[k] in multiset(tail);
      }
    }
  }

  /** Sorting the samples by timestamp (an insertion sort; Python's sort is
      also stable, which the reduction never observes). */
  function SortByTime(ps: seq<Datapoint>): (r: seq<Datapoint>)
    ensures SortedByTime(r)
    ensures multiset(r) == multiset(ps)
  {
    if |ps| == 0 then []
    else
      assert ps == [ps[0]] + ps[1..];
      Insert(ps[0], SortByTime(ps[1..]))
  }

  /** `get_cpu_utilization` after the samples have been fetched: sort by
      time, then reduce. The sort never changes the answer. */
  function CpuUtilization(ps: seq<Datapoint>): (r: (real, real))
    ensures r == Reduce(ps)
  {
    var sorted := SortByTime(ps);
    ReducePermutation(sorted, ps);
    Reduce(sorted)
  }
}
