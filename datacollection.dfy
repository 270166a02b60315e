/**
 * The observability data collection helpers (datacollection/utils.py):
 * checking the time frame of a collection, summarising each Jaeger trace
 * into one CSV row, and numbering the series a set of Prometheus queries
 * returns. Date parsing, the Jaeger and Prometheus clients and the files
 * are outside the model: parsed dates, decoded traces and query results
 * are inputs.
 */
module DataCollection {
  import opened Common

  // ---------------------------------------------------------------------
  // Time frame
  // ---------------------------------------------------------------------

  const SECONDS_PER_MINUTE: int := 60

  /** Why a time frame is refused: the process exits with "Invalid time
      frame", or a missing date reaches arithmetic and raises. */
  datatype FrameError = InvalidTimeFrame | Crash

  /** A date argument: absent or empty (falsy), or text that parses to a
      time in seconds or does not parse (parse_datetime gives None). */
  datatype DateArg = NoDate | Date(parsed: Option<int>)

  /** The parsed time of an argument; an absent one parses to None too. */
  function ParsedTime(d: DateArg): Option<int>
  {
    if d.Date? then d.parsed else None
  }

  /** The final check every branch goes through: both ends known and the
      start strictly before the end. */
  function CheckFrame(start: Option<int>, end: Option<int>): (r: Result<(int, int), FrameError>)
    ensures r.Success? <==> start.Some? && end.Some? && start.value < end.value
    ensures r.Success? ==> r.value == (start.value, end.value)
    ensures r.Failure? ==> r.error == InvalidTimeFrame
  {
    if start.None? || end.None? || start.value >= end.value then Failure(InvalidTimeFrame)
    else Success((start.value, end.value))
  }

  /** parse_timeframe as written: with a duration (in minutes), a start
      gives the end, and an end gives the start; but when no end is given
      the end is reset to None even if the start produced it. */
  function ParseTimeframeAsWritten(start: DateArg, end: DateArg, duration: int): (r: Result<(int, int), FrameError>)
    ensures r.Success? ==> r.value.0 < r.value.1
  {
    if duration != 0 then
      if start.Date? && start.parsed.None? then Failure(Crash)
      else if end.Date? && end.parsed.None? then Failure(Crash)
      else if end.Date? then CheckFrame(Some(end.parsed.value - duration * SECONDS_PER_MINUTE), end.parsed)
      else CheckFrame(if start.Date? then start.parsed else None, None)
    else CheckFrame(ParsedTime(start), ParsedTime(end))
  }

  /** The discrepancy: a start and a duration without an end are always
      refused, though the start and the duration fix the frame. */
  lemma {:induction false} StartAndDurationRefused(s: int, duration: int)
    requires duration > 0
    ensures ParseTimeframeAsWritten(Date(Some(s)), NoDate, duration) == Failure(InvalidTimeFrame)
  {
  }

  /** parse_timeframe as evidently intended: the end a start and a duration
      give is kept when no end is given. */
  function ParseTimeframe(start: DateArg, end: DateArg, duration: int): (r: Result<(int, int), FrameError>)
    ensures r.Success? ==> r.value.0 < r.value.1
  {
    if duration != 0 then
      if start.Date? && start.parsed.None? then Failure(Crash)
      else if end.Date? && end.parsed.None? then Failure(Crash)
      else if end.Date? then CheckFrame(Some(end.parsed.value - duration * SECONDS_PER_MINUTE), end.parsed)
      else if start.Date? then CheckFrame(start.parsed, Some(start.parsed.value + duration * SECONDS_PER_MINUTE))
      else CheckFrame(None, None)
    else CheckFrame(ParsedTime(start), ParsedTime(end))
  }

  /** A start and a positive duration give the frame of that length from
      the start. */
  lemma {:induction false} StartAndDurationAccepted(s: int, duration: int)
    requires duration > 0
    ensures ParseTimeframe(Date(Some(s)), NoDate, duration) == Success((s, s + duration * SECONDS_PER_MINUTE))
  {
  }

  /** With a duration and an end, the start is the end less the duration
      (the end wins over a start given too); a non-positive duration gives
      an empty or reversed frame, which is refused. */
  lemma {:induction false} EndAndDuration(start: DateArg, e: int, duration: int)
    requires duration != 0 && !(start.Date? && start.parsed.None?)
    ensures duration > 0 ==> ParseTimeframe(start, Date(Some(e)), duration) == Success((e - duration * SECONDS_PER_MINUTE, e))
    ensures duration < 0 ==> ParseTimeframe(start, Date(Some(e)), duration) == Failure(InvalidTimeFrame)
    ensures ParseTimeframeAsWritten(start, Date(Some(e)), duration) == ParseTimeframe(start, Date(Some(e)), duration)
  {
  }

  /** Without a duration both dates must parse, and the start must come
      strictly before the end. */
  lemma {:induction false} WithoutDuration(start: DateArg, end: DateArg)
    ensures ParseTimeframe(start, end, 0).Success? <==>
      ParsedTime(start).Some? && ParsedTime(end).Some? && ParsedTime(start).value < ParsedTime(end).value
    ensures ParseTimeframe(start, end, 0) == ParseTimeframeAsWritten(start, end, 0)
  {
  }

  // ---------------------------------------------------------------------
  // Trace summary
  // ---------------------------------------------------------------------

  /** A tag value: the 'error' tag carries a boolean; other values are
      kept as text. */
  datatype TagValue = Flag(b: bool) | Text(s: string)

  datatype Tag = Tag(key: string, value: TagValue)

  datatype Span = Span(operationName: string, startTime: int, duration: int, tags: seq<Tag>)

  /** A decoded trace: its id, its spans, and the service name of each of
      its processes. */
  datatype Trace = Trace(traceId: string, spans: seq<Span>, services: seq<string>)

  /** The row written for a trace. The duration is kept in the trace's
      own unit (microseconds); the CSV holds it divided by 1000. */
  datatype Row = Row(traceId: string, duration: int, startTime: int, endTime: int,
                     rpcErrors: TagValue, operation: string, processes: set<string>)

  /** The earliest span start. */
  function MinStart(spans: seq<Span>): (m: int)
    requires |spans| > 0
    ensures forall i :: 0 <= i < |spans| ==> m <= spans[i].startTime
    ensures exists i :: 0 <= i < |spans| && m == spans[i].startTime
  {
    if |spans| == 1 then spans[0].startTime
    else
      var rest := MinStart(spans[1..]);
      assert forall i :: 1 <= i < |spans| ==> spans[i] == spans[1..][i - 1];
      if spans[0].startTime <= rest then spans[0].startTime else rest
  }

  /** The latest span end (start plus duration). */
  function MaxEnd(spans: seq<Span>): (m: int)
    requires |spans| > 0
    ensures forall i :: 0 <= i < |spans| ==> spans[i].startTime + spans[i].duration <= m
    ensures exists i :: 0 <= i < |spans| && m == spans[i].startTime + spans[i].duration
  {
    if |spans| == 1 then spans[0].startTime + spans[0].duration
    else
      var rest := MaxEnd(spans[1..]);
      assert forall i :: 1 <= i < |spans| ==> spans[i] == spans[1..][i - 1];
      if spans[0].startTime + spans[0].duration >= rest then spans[0].startTime + spans[0].duration else rest
  }

  /** The value of a span's first 'error' tag, if it has one. */
  function ErrorTag(tags: seq<Tag>): (v: Option<TagValue>)
    ensures v.Some? <==> exists i :: 0 <= i < |tags| && tags[i].key == "error"
  {
    if |tags| == 0 then None
    else if tags[0].key == "error" then Some(tags[0].value)
    else
      var rest := ErrorTag(tags[1..]);
      assert forall i :: 1 <= i < |tags| ==> tags[i] == tags[1..][i - 1];
      rest
  }

  /** The scan of one span's tags, stopping at the first 'error' tag. */
  method FindErrorTag(tags: seq<Tag>) returns (v: Option<TagValue>)
    ensures v == ErrorTag(tags)
  {
    for i := 0 to |tags|
      invariant ErrorTag(tags) == ErrorTag(tags[i..])
    {
      if tags[i].key == "error" {
        return Some(tags[i].value);
      }
      assert tags[i..][1..] == tags[i + 1..];
    }
    return None;
  }

  /** The trace's error flag: the 'error' value of the last span that has
      one, and false when none has. */
  function ErrorFlag(spans: seq<Span>): TagValue
  {
    if |spans| == 0 then Flag(false)
    else
      var last := ErrorTag(spans[|spans| - 1].tags);
      if last.Some? then last.value else ErrorFlag(spans[..|spans| - 1])
  }

  /** The flag is false exactly when no span has an 'error' tag, and
      otherwise comes from the last span that does. */
  lemma {:induction false} ErrorFlagMeaning(spans: seq<Span>)
    ensures (forall i :: 0 <= i < |spans| ==> ErrorTag(spans[i].tags).None?) ==> ErrorFlag(spans) == Flag(false)
    ensures forall k :: (0 <= k < |spans| && ErrorTag(spans[k].tags).Some? &&
                         (forall i :: k < i < |spans| ==> ErrorTag(spans[i].tags).None?)) ==>
      ErrorFlag(spans) == ErrorTag(spans[k].tags).value
  {
    if |spans| > 0 {
      var n := |spans| - 1;
      var init := spans[..n];
      ErrorFlagMeaning(init);
      assert forall i :: 0 <= i < n ==> init[i] == spans[i];
    }
  }

  /** A trace's row. A trace without spans has none: max() of an empty
      list raises. */
  function SummaryOf(t: Trace): (r: Option<Row>)
    ensures r.Some? <==> |t.spans| > 0
  {
    if |t.spans| == 0 then None
    else
      var start := MinStart(t.spans);
      var end := MaxEnd(t.spans);
      Some(Row(t.traceId, end - start, start, end, ErrorFlag(t.spans), t.spans[0].operationName, set s | s in t.services))
  }

  /** The row spans the trace: it starts at the first span start, ends at
      the last span end, and its duration is the difference, never negative
      when no span has a negative duration. */
  lemma {:induction false} SummaryBounds(t: Trace)
    requires |t.spans| > 0
    ensures var r := SummaryOf(t).value;
      r.duration == r.endTime - r.startTime &&
      (forall i :: 0 <= i < |t.spans| ==>
         r.startTime <= t.spans[i].startTime && t.spans[i].startTime + t.spans[i].duration <= r.endTime) &&
      ((forall i :: 0 <= i < |t.spans| ==> t.spans[i].duration >= 0) ==> r.duration >= 0)
  {
    var r := SummaryOf(t).value;
    if forall i :: 0 <= i < |t.spans| ==> t.spans[i].duration >= 0 {
      assert t.spans[0].startTime + t.spans[0].duration <= r.endTime;
    }
  }

  /** The per-trace body of stream_traces: the flag is updated span by span
      (each span's scan stopping at its first 'error' tag), the operation is
      the first span's, and the services are collected in a loop. */
  method SummarizeTrace(t: Trace) returns (r: Option<Row>)
    ensures r == SummaryOf(t)
  {
    if |t.spans| == 0 {
      return None;
    }
    var spans := t.spans;
    var endTrace := MaxEnd(spans);
    var startTrace := MinStart(spans);
    var hasErrors := Flag(false);
    var operationName := "";
    for si := 0 to |spans|
      invariant hasErrors == ErrorFlag(spans[..si])
      invariant si > 0 ==> operationName == spans[0].operationName
    {
      if si == 0 {
        operationName := spans[si].operationName;
      }
      var v := FindErrorTag(spans[si].tags);
      if v.Some? {
        hasErrors := v.value;
      }
      assert spans[..si + 1][..si] == spans[..si];
    }
    assert spans[..|spans|] == spans;
    var processes: seq<string> := [];
    for p := 0 to |t.services|
      invariant processes == t.services[..p]
    {
      processes := processes + [t.services[p]];
    }
    assert processes == t.services;
    r := Some(Row(t.traceId, endTrace - startTrace, startTrace, endTrace, hasErrors, operationName,
                  set s | s in processes));
  }

  /** The rows written for a stream of traces: one per trace, up to the
      first trace without spans, where the stream stops with an error. */
  function Written(traces: seq<Trace>): (rows: seq<Row>)
    ensures |rows| <= |traces|
  {
    if |traces| == 0 || |traces[0].spans| == 0 then []
    else [SummaryOf(traces[0]).value] + Written(traces[1..])
  }

  /** Row k is trace k's summary, as long as no earlier trace stopped the
      stream; all traces are written iff each has a span. */
  lemma {:induction false} WrittenRows(traces: seq<Trace>)
    ensures forall k :: 0 <= k < |Written(traces)| ==> Some(Written(traces)[k]) == SummaryOf(traces[k])
    ensures |Written(traces)| == |traces| <==> forall k :: 0 <= k < |traces| ==> |traces[k].spans| > 0
  {
    if |traces| > 0 && |traces[0].spans| > 0 {
      var rest := traces[1..];
      var w := Written(traces);
      WrittenRows(rest);
      assert w == [SummaryOf(traces[0]).value] + Written(rest);
      forall k | 1 <= k < |w|
        ensures Some(w[k]) == SummaryOf(traces[k])
      {
        assert w[k] == Written(rest)[k - 1] && traces[k] == rest[k - 1];
      }
      assert (forall k :: 0 <= k < |traces| ==> |traces[k].spans| > 0) <==>
        (forall k :: 0 <= k < |rest| ==> |rest[k].spans| > 0) by {
        assert forall k :: 1 <= k < |traces| ==> traces[k] == rest[k - 1];
      }
    }
  }

  /** stream_traces: summarise the traces in order; `failed` tells whether
      a trace without spans stopped it. */
  method StreamTraces(traces: seq<Trace>) returns (rows: seq<Row>, failed: bool)
    ensures rows == Written(traces)
    ensures failed <==> exists k :: 0 <= k < |traces| && |traces[k].spans| == 0
  {
    rows := [];
    var i := 0;
    while i < |traces|
      invariant 0 <= i <= |traces|
      invariant rows + Written(traces[i..]) == Written(traces)
      invariant forall k :: 0 <= k < i ==> |traces[k].spans| > 0
    {
      var r := SummarizeTrace(traces[i]);
      if r.None? {
        return rows, true;
      }
      assert traces[i..][1..] == traces[i + 1..];
      rows := rows + [r.value];
      i := i + 1;
    }
    return rows, false;
  }

  // ---------------------------------------------------------------------
  // Metric numbering
  // ---------------------------------------------------------------------

  /** The description kept for one result series: its labels, the query
      that returned it and its number. */
  datatype Desc = Desc(labels: map<string, string>, query: string, key: nat)

  datatype BuildError = NoQueries | NoSeries

  /** The descriptions of one query's series, numbered from `base`. */
  function Numbered(query: string, series: seq<map<string, string>>, base: nat): (ds: seq<Desc>)
    ensures |ds| == |series|
    ensures forall j :: 0 <= j < |series| ==> ds[j] == Desc(series[j], query, base + j)
  {
    seq(|series|, j requires 0 <= j < |series| => Desc(series[j], query, base + j))
  }

  /** All descriptions, query after query, numbered consecutively. */
  function Descs(queries: seq<string>, results: seq<seq<map<string, string>>>): (ds: seq<Desc>)
    requires |results| == |queries|
    ensures |ds| == |Flatten(results)|
  {
    if |queries| == 0 then []
    else
      var n := |queries| - 1;
      var before := Descs(queries[..n], results[..n]);
      before + Numbered(queries[n], results[n], |before|)
  }

  /** Series j of query i sits after the series of the queries before
      it, numbered by its place, with its query. */
  predicate Placed(queries: seq<string>, results: seq<seq<map<string, string>>>, i: nat, j: nat)
    requires |results| == |queries| && i < |queries| && j < |results[i]|
  {
    var k := |Flatten(results[..i])| + j;
    k < |Descs(queries, results)| && Descs(queries, results)[k] == Desc(results[i][j], queries[i], k)
  }

  /** The series are numbered 0, 1, 2, ... in query order: description k
      carries key k, and series j of query i is description
      |results[..i] flattened| + j, with query i. */
  lemma {:induction false} DescsNumbered(queries: seq<string>, results: seq<seq<map<string, string>>>)
    requires |results| == |queries|
    ensures forall k :: 0 <= k < |Descs(queries, results)| ==> Descs(queries, results)[k].key == k
    ensures forall i, j :: 0 <= i < |queries| && 0 <= j < |results[i]| ==> Placed(queries, results, i, j)
  {
    if |queries| > 0 {
      var n := |queries| - 1;
      DescsNumbered(queries[..n], results[..n]);
      var before := Descs(queries[..n], results[..n]);
      forall k | 0 <= k < |Descs(queries, results)|
        ensures Descs(queries, results)[k].key == k
      {
        if k < |before| {
          assert Descs(queries, results)[k] == before[k];
        }
      }
      forall i, j | 0 <= i < |queries| && 0 <= j < |results[i]|
        ensures Placed(queries, results, i, j)
      {
        var whole := Descs(queries, results);
        assert whole == before + Numbered(queries[n], results[n], |before|);
        if i < n {
          assert results[..n][..i] == results[..i];
          assert queries[..n][i] == queries[i] && results[..n][i] == results[i];
          assert Placed(queries[..n], results[..n], i, j);
        } else {
          assert results[..n] == results[..i];
        }
      }
    }
  }

  /** The name of result column k: the first is "value", a later one gets
      the join's suffix "_k". */
  function ColumnName(k: nat): (name: string)
    ensures k == 0 <==> name == "value"
  {
    if k == 0 then "value" else "value_" + IntToString(k)
  }

  /** build_metrics_dataframe: an empty query list raises; each series of
      each query becomes the next numbered column and description. When no
      query returns any series the result frame is never assigned and the
      return raises. */
  method BuildMetricsDataframe(queries: seq<string>, results: seq<seq<map<string, string>>>)
    returns (r: Result<(seq<string>, seq<Desc>), BuildError>)
    requires |results| == |queries|
    ensures |queries| == 0 ==> r == Failure(NoQueries)
    ensures |queries| > 0 && |Flatten(results)| == 0 ==> r == Failure(NoSeries)
    ensures r.Success? <==> |queries| > 0 && |Flatten(results)| > 0
    ensures r.Success? ==>
      r.value.1 == Descs(queries, results) &&
      r.value.0 == seq(|Flatten(results)|, k requires 0 <= k < |Flatten(results)| => ColumnName(k))
  {
    if |queries| == 0 {
      return Failure(NoQueries);
    }
    var descs: seq<Desc> := [];
    var features := 0;
    for i := 0 to |queries|
      invariant descs == Descs(queries[..i], results[..i])
      invariant features == |descs|
    {
      descs := QueryDescs(descs, queries[i], results[i]);
      assert queries[..i + 1][..i] == queries[..i] && results[..i + 1][..i] == results[..i];
      features := |descs|;
    }
    assert queries[..|queries|] == queries && results[..|results|] == results;
    if features == 0 {
      return Failure(NoSeries);
    }
    var columns := seq(features, k requires 0 <= k < features => ColumnName(k));
    r := Success((columns, descs));
  }

  /** The inner loop: one description per series, numbered on from those
      already there. */
  method QueryDescs(descs: seq<Desc>, query: string, series: seq<map<string, string>>) returns (out: seq<Desc>)
    ensures out == descs + Numbered(query, series, |descs|)
  {
    out := descs;
    for j := 0 to |series|
      invariant out == descs + Numbered(query, series[..j], |descs|)
    {
      out := out + [Desc(series[j], query, |out|)];
    }
    assert series[..|series|] == series;
  }
}
