/** The results page summary: the number of cases and the mean response
    time, computed only when at least one answer was recorded. */
module Report {
  import opened Assessment

  /** What the results page shows above the table: nothing for an empty
      result list, otherwise the case count and the mean time. */
  datatype Summary = NoData | Metrics(cases: nat, meanMs: real)

  /** Sum of the response times, in milliseconds. */
  function TotalMs(rs: seq<Record>): int {
    if rs == [] then 0 else TotalMs(rs[..|rs| - 1]) + rs[|rs| - 1].timeMs
  }

  /** Appending a record adds its time to the total. */
  lemma TotalMsAppend(rs: seq<Record>, r: Record)
    ensures TotalMs(rs + [r]) == TotalMs(rs) + r.timeMs
  {
    assert (rs + [r])[..|rs|] == rs;
  }

  /** The summary of the results page, guarded against the empty list so
      that no mean of zero records is taken. */
  function Summarize(rs: seq<Record>): (s: Summary)
    ensures s.NoData? <==> rs == []
    ensures s.Metrics? ==> s.cases == |rs| && s.meanMs * (|rs| as real) == TotalMs(rs) as real
  {
    if rs == [] then NoData
    else Metrics(|rs|, TotalMs(rs) as real / (|rs| as real))
  }

  /** Bounds on every response time bound their sum. */
  lemma {:induction false} TotalBounds(rs: seq<Record>, lo: real, hi: real)
    requires forall k :: 0 <= k < |rs| ==> lo <= rs[k].timeMs as real <= hi
    ensures (|rs| as real) * lo <= TotalMs(rs) as real <= (|rs| as real) * hi
  {
    if rs != [] {
      var n := |rs| - 1;
      TotalBounds(rs[..n], lo, hi);
      assert (n as real + 1.0) * lo == n as real * lo + lo;
      assert (n as real + 1.0) * hi == n as real * hi + hi;
    }
  }

  /** Dividing by a positive count keeps a bound. */
  lemma QuotientBounds(total: real, n: real, mean: real, bound: real)
    requires n > 0.0 && mean * n == total
    ensures bound * n <= total ==> bound <= mean
    ensures total <= bound * n ==> mean <= bound
  {
    if bound > mean {
      assert (bound - mean) * n > 0.0;
    }
    if bound < mean {
      assert (mean - bound) * n > 0.0;
    }
  }

  /** The mean lies between the shortest and the longest response time;
      in particular it is not negative when no time is. */
  lemma MeanBounds(rs: seq<Record>, lo: int, hi: int)
    requires rs != []
    requires forall k :: 0 <= k < |rs| ==> lo <= rs[k].timeMs <= hi
    ensures lo as real <= Summarize(rs).meanMs <= hi as real
  {
    var n := |rs| as real;
    var total := TotalMs(rs) as real;
    var mean := Summarize(rs).meanMs;
    assert mean * n == total;
    assert lo as real <= mean by {
      TotalBounds(rs, lo as real, hi as real);
      QuotientBounds(total, n, mean, lo as real);
    }
    assert mean <= hi as real by {
      TotalBounds(rs, lo as real, hi as real);
      QuotientBounds(total, n, mean, hi as real);
    }
  }
}
