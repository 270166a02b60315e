/**
 * The post-processing helpers of the observability use case
 * (postprocessing/utils.py): generating periodic anomaly intervals,
 * mapping generic result columns back to their queries, and labelling the
 * samples of a data frame that fall inside anomalous intervals. Times are
 * whole seconds; dates arrive parsed. A data frame is reduced to its
 * sorted time index and its labels column.
 */
module PostProcessing {
  import opened Common
  import DataCollection

  // ---------------------------------------------------------------------
  // Periodic anomalies
  // ---------------------------------------------------------------------

  /** The intervals (s, s + duration) for s = start, start + every, ...,
      as long as the interval ends before `end`. The loop only stops when
      `every` is positive or no interval fits at all. */
  function Intervals(start: int, end: int, every: int, duration: int): (r: seq<(int, int)>)
    requires every > 0 || start + duration >= end
    ensures forall k :: 0 <= k < |r| ==> r[k].1 == r[k].0 + duration && r[k].1 < end
    ensures |r| > 0 <==> start + duration < end
    ensures |r| > 0 ==> r[0].0 == start
    decreases end - start - duration
  {
    if start + duration < end then [(start, start + duration)] + Intervals(start + every, end, every, duration)
    else []
  }

  /** Interval k starts at start + k * every, and one more would no longer
      end before `end`. */
  lemma {:induction false} IntervalsClosedForm(start: int, end: int, every: int, duration: int)
    requires every > 0
    ensures var r := Intervals(start, end, every, duration);
      StartsEvery(r, start, every) && start + |r| * every + duration >= end
    decreases end - start - duration
  {
    var r := Intervals(start, end, every, duration);
    if start + duration < end {
      var rest := Intervals(start + every, end, every, duration);
      IntervalsClosedForm(start + every, end, every, duration);
      assert r == [(start, start + duration)] + rest;
      forall k | 1 <= k < |r|
        ensures r[k].0 == start + k * every
      {
        assert r[k] == rest[k - 1];
        MulPred(k, every);
      }
      MulPred(|r|, every);
    }
  }

  /** Interval k of `r` starts at start + k * every. */
  ghost predicate StartsEvery(r: seq<(int, int)>, start: int, every: int)
  {
    forall k :: 0 <= k < |r| ==> r[k].0 == start + k * every
  }

  lemma {:induction false} MulPred(k: int, c: int)
    requires k >= 1
    ensures k * c == (k - 1) * c + c
  {
  }

  /** periodic_anomaly: append intervals while one still ends before
      `end`. Writing them to a file is left out. */
  method PeriodicAnomaly(start: int, end: int, every: int, duration: int) returns (intervals: seq<(int, int)>)
    requires every > 0 || start + duration >= end
    ensures intervals == Intervals(start, end, every, duration)
  {
    intervals := [];
    var s := start;
    while s + duration < end
      invariant every > 0 || s + duration >= end
      invariant intervals + Intervals(s, end, every, duration) == Intervals(start, end, every, duration)
      decreases end - s - duration
    {
      intervals := intervals + [(s, s + duration)];
      s := s + every;
    }
  }

  predicate StartsIncrease(r: seq<(int, int)>)
  {
    forall a, b :: 0 <= a < b < |r| ==> r[a].0 < r[b].0
  }

  /** The starts strictly increase (every interval has the given length and
      ends before `end`, by the function's own contract). */
  lemma {:induction false} IntervalsOrdered(start: int, end: int, every: int, duration: int)
    requires every > 0
    ensures StartsIncrease(Intervals(start, end, every, duration))
    decreases end - start - duration
  {
    if start + duration < end {
      IntervalsOrdered(start + every, end, every, duration);
      var rest := Intervals(start + every, end, every, duration);
      var r := Intervals(start, end, every, duration);
      assert r == [(start, start + duration)] + rest;
      forall a, b | 0 <= a < b < |r|
        ensures r[a].0 < r[b].0
      {
        assert r[b] == rest[b - 1];
        if a == 0 {
          assert rest[0].0 == start + every;
          assert b - 1 == 0 || rest[0].0 < rest[b - 1].0;
        } else {
          assert r[a] == rest[a - 1];
        }
      }
    }
  }

  // ---------------------------------------------------------------------
  // Column names to metrics
  // ---------------------------------------------------------------------

  /** The id of a column "value_ID": the integer after the last '_', or 0
      when that field is not an integer. */
  function ColumnId(column: string): (id: int)
    ensures ParseInt(Split(column, '_')[|Split(column, '_')| - 1]).Some? ==>
      id == ParseInt(Split(column, '_')[|Split(column, '_')| - 1]).value
    ensures ParseInt(Split(column, '_')[|Split(column, '_')| - 1]).None? ==> id == 0
  {
    var parts := Split(column, '_');
    match ParseInt(parts[|parts| - 1])
    case Some(i) => i
    case None => 0
  }

  /** Python's xs[i]: a negative index counts from the end; anything else
      out of range raises IndexError. */
  function PyIndex<T>(xs: seq<T>, i: int): (r: Option<T>)
    ensures r.Some? <==> -|xs| <= i < |xs|
    ensures 0 <= i < |xs| ==> r == Some(xs[i])
    ensures -|xs| <= i < 0 ==> r == Some(xs[|xs| + i])
  {
    if 0 <= i < |xs| then Some(xs[i])
    else if -|xs| <= i < 0 then Some(xs[|xs| + i])
    else None
  }

  /** The query described for each column, in column order; None when an
      id indexes past the descriptions. */
  function MetricQueries(columns: seq<string>, desc: seq<DataCollection.Desc>): (r: Option<seq<string>>)
    ensures r.Some? <==> forall c :: c in columns ==> PyIndex(desc, ColumnId(c)).Some?
    ensures r.Some? ==> |r.value| == |columns|
    ensures r.Some? ==> forall k :: 0 <= k < |columns| ==> r.value[k] == PyIndex(desc, ColumnId(columns[k])).value.query
  {
    if |columns| == 0 then Some([])
    else
      var n := |columns| - 1;
      var before := MetricQueries(columns[..n], desc);
      var d := PyIndex(desc, ColumnId(columns[n]));
      assert forall c :: c in columns <==> c in columns[..n] || c == columns[n];
      if before.None? || d.None? then None
      else Some(before.value + [d.value.query])
  }

  /** col_name_to_metric: look each column's id up in the descriptions;
      None stands for the IndexError of an unknown id. */
  method ColNameToMetric(columns: seq<string>, desc: seq<DataCollection.Desc>) returns (r: Option<seq<string>>)
    ensures r == MetricQueries(columns, desc)
  {
    var out: seq<string> := [];
    for i := 0 to |columns|
      invariant MetricQueries(columns[..i], desc) == Some(out)
    {
      var d := PyIndex(desc, ColumnId(columns[i]));
      assert columns[..i + 1][..i] == columns[..i];
      if d.None? {
        return None;
      }
      out := out + [d.value.query];
    }
    assert columns[..|columns|] == columns;
    return Some(out);
  }

  /** The column names the metrics data frame gets carry their own number
      as id ("value" carries none and reads as 0). */
  lemma {:induction false} ColumnIdOfName(k: nat)
    ensures ColumnId(DataCollection.ColumnName(k)) == k
  {
    if k == 0 {
      SplitNoSeparator("value", '_');
    } else {
      var digits := IntToString(k);
      SplitAfterPiece("value", '_', digits);
      IntTextHasNo(k, '_');
      SplitNoSeparator(digits, '_');
      IntRoundTrip(k);
      assert "value_" + digits == "value" + ['_'] + digits;
    }
  }

  /** Columns that carry their own position as id map back to the
      queries of the descriptions, in order. */
  lemma {:induction false} MetricsOfNumberedColumns(columns: seq<string>, desc: seq<DataCollection.Desc>)
    requires |columns| == |desc|
    requires forall k :: 0 <= k < |columns| ==> ColumnId(columns[k]) == k
    ensures MetricQueries(columns, desc) == Some(seq(|desc|, k requires 0 <= k < |desc| => desc[k].query))
  {
    var expected := seq(|desc|, k requires 0 <= k < |desc| => desc[k].query);
    forall c | c in columns
      ensures PyIndex(desc, ColumnId(c)).Some?
    {
      var k :| 0 <= k < |columns| && columns[k] == c;
    }
    var r := MetricQueries(columns, desc).value;
    forall k | 0 <= k < |desc|
      ensures r[k] == expected[k]
    {
      assert PyIndex(desc, ColumnId(columns[k])) == Some(desc[k]);
    }
    assert r == expected;
  }

  /** The columns of a built metrics frame, with its descriptions, map back
      to the queries that produced them, in order. */
  lemma {:induction false} MetricsOfBuiltColumns(desc: seq<DataCollection.Desc>)
    ensures var columns := seq(|desc|, k requires 0 <= k < |desc| => DataCollection.ColumnName(k));
      MetricQueries(columns, desc) == Some(seq(|desc|, k requires 0 <= k < |desc| => desc[k].query))
  {
    var columns := seq(|desc|, k requires 0 <= k < |desc| => DataCollection.ColumnName(k));
    forall k | 0 <= k < |columns|
      ensures ColumnId(columns[k]) == k
    {
      ColumnIdOfName(k);
    }
    MetricsOfNumberedColumns(columns, desc);
  }

  // ---------------------------------------------------------------------
  // Labelling
  // ---------------------------------------------------------------------

  /** A data frame's time index (kept sorted) and its labels column. */
  class Frame {
    const index: seq<int>
    var labels: seq<int>

    constructor(index: seq<int>)
      ensures this.index == index && labels == []
    {
      this.index := index;
      labels := [];
    }
  }

  /** The labels from an interval file: 1 when strictly inside some
      (from, to). */
  function StrictLabel(t: int, intervals: seq<(int, int)>): (l: int)
    ensures l == 1 <==> exists i :: 0 <= i < |intervals| && intervals[i].0 < t < intervals[i].1
    ensures l == 0 || l == 1
  {
    if exists i :: 0 <= i < |intervals| && intervals[i].0 < t < intervals[i].1 then 1 else 0
  }

  /** The labels from a list of anomalies: 1 when inside some inclusive
      [start, end]. */
  function InclusiveLabel(t: int, anomalies: seq<(int, int)>): (l: int)
    ensures l == 1 <==> exists i :: 0 <= i < |anomalies| && anomalies[i].0 <= t <= anomalies[i].1
    ensures l == 0 || l == 1
  {
    if exists i :: 0 <= i < |anomalies| && anomalies[i].0 <= t <= anomalies[i].1 then 1 else 0
  }

  /** The inner scan over the intervals, stopping at the first one that
      holds the sample. */
  method InSomeInterval(t: int, intervals: seq<(int, int)>) returns (found: bool)
    ensures found <==> StrictLabel(t, intervals) == 1
  {
    for i := 0 to |intervals|
      invariant forall j :: 0 <= j < i ==> !(intervals[j].0 < t < intervals[j].1)
    {
      if intervals[i].0 < t && t < intervals[i].1 {
        return true;
      }
    }
    return false;
  }

  /** label_anomalous_samples_from_file: collect the samples strictly
      inside an interval, then set the labels column to 1 for them and 0
      for the rest. Reading and localising the interval file is left out. */
  method LabelAnomalousSamplesFromFile(intervals: seq<(int, int)>, dataset: Frame)
    modifies dataset
    ensures |dataset.labels| == |dataset.index|
    ensures forall k :: 0 <= k < |dataset.index| ==> dataset.labels[k] == StrictLabel(dataset.index[k], intervals)
  {
    var toLabel: set<int> := {};
    for k := 0 to |dataset.index|
      invariant toLabel == set j | 0 <= j < k && StrictLabel(dataset.index[j], intervals) == 1
    {
      var found := InSomeInterval(dataset.index[k], intervals);
      if found {
        toLabel := toLabel + {k};
      }
    }
    dataset.labels := seq(|dataset.index|, k requires 0 <= k < |dataset.index| => if k in toLabel then 1 else 0);
  }

  /** A sample strictly inside an interval is also inside it inclusively;
      the two rules differ only on the interval bounds. */
  lemma {:induction false} StrictWithinInclusive(t: int, intervals: seq<(int, int)>)
    ensures StrictLabel(t, intervals) == 1 ==> InclusiveLabel(t, intervals) == 1
    ensures InclusiveLabel(t, intervals) == 1 && StrictLabel(t, intervals) == 0 ==>
      exists i :: 0 <= i < |intervals| && (t == intervals[i].0 || t == intervals[i].1)
  {
    if StrictLabel(t, intervals) == 1 {
      var i :| 0 <= i < |intervals| && intervals[i].0 < t < intervals[i].1;
      assert intervals[i].0 <= t <= intervals[i].1;
    }
  }

  /** One row of the anomaly file. */
  datatype Anomaly = Anomaly(service: string, start: int, end: int)

  /** Anomalies given directly, or the rows of a file (None: not found). */
  datatype AnomalySource = Given(intervals: seq<(int, int)>) | FromFile(rows: Option<seq<Anomaly>>)

  datatype LabelError = FileNotFound

  /** The rows for the service (all of them when none is given), as
      (start, end) pairs in file order. */
  function ForService(rows: seq<Anomaly>, svc: Option<string>): (r: seq<(int, int)>)
    ensures forall p :: p in r <==> exists a :: a in rows && (svc.None? || Contains(a.service, svc.value)) && p == (a.start, a.end)
  {
    if |rows| == 0 then []
    else
      var n := |rows| - 1;
      var a := rows[n];
      assert forall x :: x in rows <==> x in rows[..n] || x == a;
      ForService(rows[..n], svc) + (if svc.None? || Contains(a.service, svc.value) then [(a.start, a.end)] else [])
  }

  predicate SortedByStart(xs: seq<(int, int)>)
  {
    forall a, b :: 0 <= a < b < |xs| ==> xs[a].0 <= xs[b].0
  }

  /** Insert an interval after those starting no later than it. */
  function InsertByStart(x: (int, int), xs: seq<(int, int)>): seq<(int, int)>
  {
    if |xs| == 0 then [x]
    else if x.0 < xs[0].0 then [x] + xs
    else [xs[0]] + InsertByStart(x, xs[1..])
  }

  /** Inserting adds exactly the one interval. */
  lemma {:induction false} InsertAddsOne(x: (int, int), xs: seq<(int, int)>)
    ensures multiset(InsertByStart(x, xs)) == multiset(xs) + multiset{x}
  {
    if |xs| > 0 {
      assert xs == [xs[0]] + xs[1..];
      if x.0 >= xs[0].0 {
        InsertAddsOne(x, xs[1..]);
      }
    }
  }

  /** A bound below every start stays below after inserting an interval
      that starts above it. */
  lemma {:induction false} InsertKeepsLowerBound(x: (int, int), xs: seq<(int, int)>, v: int)
    requires v <= x.0 && forall i :: 0 <= i < |xs| ==> v <= xs[i].0
    ensures forall i :: 0 <= i < |InsertByStart(x, xs)| ==> v <= InsertByStart(x, xs)[i].0
  {
    if |xs| > 0 && x.0 >= xs[0].0 {
      InsertKeepsLowerBound(x, xs[1..], v);
    }
  }

  /** Inserting into a sorted list keeps it sorted. */
  lemma {:induction false} InsertKeepsOrder(x: (int, int), xs: seq<(int, int)>)
    requires SortedByStart(xs)
    ensures SortedByStart(InsertByStart(x, xs))
  {
    if |xs| > 0 && x.0 >= xs[0].0 {
      var rest := InsertByStart(x, xs[1..]);
      InsertKeepsOrder(x, xs[1..]);
      InsertKeepsLowerBound(x, xs[1..], xs[0].0);
      var r := [xs[0]] + rest;
      assert forall a, b :: 0 < a < b < |r| ==> r[a] == rest[a - 1] && r[b] == rest[b - 1];
    }
  }

  /** The intervals sorted by start (stable; pandas' default sort does not
      promise an order among equal starts). */
  function SortByStart(xs: seq<(int, int)>): (r: seq<(int, int)>)
    ensures SortedByStart(r) && multiset(r) == multiset(xs)
  {
    if |xs| == 0 then []
    else
      var n := |xs| - 1;
      assert xs == xs[..n] + [xs[n]];
      var sorted := SortByStart(xs[..n]);
      InsertKeepsOrder(xs[n], sorted);
      InsertAddsOne(xs[n], sorted);
      InsertByStart(xs[n], sorted)
  }

  /** The labels depend only on which intervals there are, not on their
      order, so sorting the anomalies does not change them. */
  lemma {:induction false} LabelsIgnoreOrder(t: int, a: seq<(int, int)>, b: seq<(int, int)>)
    requires multiset(a) == multiset(b)
    ensures InclusiveLabel(t, a) == InclusiveLabel(t, b)
  {
    if InclusiveLabel(t, a) == 1 {
      var i :| 0 <= i < |a| && a[i].0 <= t <= a[i].1;
      assert a[i] in multiset(b);
      var j :| 0 <= j < |b| && b[j] == a[i];
    }
    if InclusiveLabel(t, b) == 1 {
      var j :| 0 <= j < |b| && b[j].0 <= t <= b[j].1;
      assert b[j] in multiset(a);
      var i :| 0 <= i < |a| && a[i] == b[j];
    }
  }

  /** The anomalies label_anomalous_samples uses: given ones as they are;
      read ones filtered by service and sorted by start. */
  function UsedAnomalies(anomalies: AnomalySource, svc: Option<string>): (r: Result<seq<(int, int)>, LabelError>)
    ensures r.Failure? <==> anomalies == FromFile(None)
    ensures anomalies.Given? ==> r == Success(anomalies.intervals)
    ensures anomalies.FromFile? && r.Success? ==>
      SortedByStart(r.value) && multiset(r.value) == multiset(ForService(anomalies.rows.value, svc))
  {
    match anomalies
    case Given(intervals) => Success(intervals)
    case FromFile(None) => Failure(FileNotFound)
    case FromFile(Some(rows)) => Success(SortByStart(ForService(rows, svc)))
  }

  /** A file-read anomaly labels a sample iff some row for the service
      holds it inclusively. */
  lemma {:induction false} FileLabelsMeaning(t: int, rows: seq<Anomaly>, svc: Option<string>)
    ensures InclusiveLabel(t, UsedAnomalies(FromFile(Some(rows)), svc).value) == 1 <==>
      exists a :: a in rows && (svc.None? || Contains(a.service, svc.value)) && a.start <= t <= a.end
  {
    var selected := ForService(rows, svc);
    var used := UsedAnomalies(FromFile(Some(rows)), svc).value;
    LabelsIgnoreOrder(t, used, selected);
    if exists a :: a in rows && (svc.None? || Contains(a.service, svc.value)) && a.start <= t <= a.end {
      var a :| a in rows && (svc.None? || Contains(a.service, svc.value)) && a.start <= t <= a.end;
      assert (a.start, a.end) in selected;
      var i :| 0 <= i < |selected| && selected[i] == (a.start, a.end);
    }
    if InclusiveLabel(t, selected) == 1 {
      var i :| 0 <= i < |selected| && selected[i].0 <= t <= selected[i].1;
      assert selected[i] in selected;
    }
  }

  /** Set the labels to 1 on the inclusive slice [from, to] of the index. */
  method LabelSlice(df: Frame, from: int, to: int)
    modifies df
    requires |df.labels| == |df.index|
    ensures |df.labels| == |df.index|
    ensures forall k :: 0 <= k < |df.index| ==>
      df.labels[k] == (if from <= df.index[k] <= to then 1 else old(df.labels[k]))
  {
    var labels := df.labels;
    df.labels := seq(|df.index|, k requires 0 <= k < |df.index| => if from <= df.index[k] <= to then 1 else labels[k]);
  }

  /** label_anomalous_samples: zero the labels column, take the anomalies
      (exiting when the file is missing), and set the labels to 1 on each
      anomaly's inclusive slice of the index. */
  method LabelAnomalousSamples(df: Frame, anomalies: AnomalySource, svc: Option<string>)
    returns (r: Result<seq<(int, int)>, LabelError>)
    modifies df
    ensures r == UsedAnomalies(anomalies, svc)
    ensures |df.labels| == |df.index|
    ensures r.Failure? ==> forall k :: 0 <= k < |df.index| ==> df.labels[k] == 0
    ensures r.Success? ==> forall k :: 0 <= k < |df.index| ==> df.labels[k] == InclusiveLabel(df.index[k], r.value)
  {
    df.labels := seq(|df.index|, k requires 0 <= k < |df.index| => 0);
    r := UsedAnomalies(anomalies, svc);
    if r.Failure? {
      return;
    }
    var used := r.value;
    for i := 0 to |used|
      invariant LabelledBy(df.labels, df.index, used[..i])
    {
      ghost var before := df.labels;
      LabelSlice(df, used[i].0, used[i].1);
      LabelledStep(before, df.labels, df.index, used[..i], used[i]);
      assert used[..i + 1] == used[..i] + [used[i]];
    }
    assert used[..|used|] == used;
  }

  /** Every sample of `index` carries its inclusive label for `anomalies`. */
  ghost predicate LabelledBy(labels: seq<int>, index: seq<int>, anomalies: seq<(int, int)>)
  {
    |labels| == |index| && forall k :: 0 <= k < |index| ==> labels[k] == InclusiveLabel(index[k], anomalies)
  }

  /** One more anomaly: a sample is inside the longer list iff it is inside
      the new anomaly or the earlier ones. */
  lemma {:induction false} InclusiveLabelSnoc(t: int, init: seq<(int, int)>, last: (int, int))
    ensures InclusiveLabel(t, init + [last]) == if last.0 <= t <= last.1 then 1 else InclusiveLabel(t, init)
  {
    var all := init + [last];
    if InclusiveLabel(t, init) == 1 {
      var i :| 0 <= i < |init| && init[i].0 <= t <= init[i].1;
      assert all[i] == init[i];
    }
    if InclusiveLabel(t, all) == 1 && !(last.0 <= t <= last.1) {
      var i :| 0 <= i < |all| && all[i].0 <= t <= all[i].1;
      assert i < |init| && all[i] == init[i];
    }
    if last.0 <= t <= last.1 {
      assert all[|init|] == last;
    }
  }

  /** Labelling the slice of one more anomaly keeps the labels exact. */
  lemma {:induction false} LabelledStep(labels: seq<int>, labels': seq<int>, index: seq<int>, init: seq<(int, int)>, last: (int, int))
    requires LabelledBy(labels, index, init)
    requires |labels'| == |index|
    requires forall k :: 0 <= k < |index| ==> labels'[k] == (if last.0 <= index[k] <= last.1 then 1 else labels[k])
    ensures LabelledBy(labels', index, init + [last])
  {
    forall k | 0 <= k < |index|
      ensures labels'[k] == InclusiveLabel(index[k], init + [last])
    {
      InclusiveLabelSnoc(index[k], init, last);
    }
  }
}
