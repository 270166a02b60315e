/**
 * Aggregation of the benchmark results (plot/preprocess.py): experiment
 * directories are named "metric_<n>_..._<algorithm>" or
 * "pods_<n>_..._<algorithm>"; the Prometheus runs contribute one wrk row
 * each, and the read-loop runs one row per "stats_LMAP_<k>.csv" file of
 * "key,value" lines. The directory listing, the files' contents and the
 * wrk figures arrive as values; float() enters as a function parameter.
 */
module Preprocess {
  import opened Common
  import Lmap

  const VALID_ALGOS: seq<string> := ["FD", "VAE", "TH"]

  /** sanity_check: only the known anomaly-detection algorithms pass. */
  function SanityCheck(algorithm: string): (ok: bool)
    ensures ok <==> algorithm == "FD" || algorithm == "VAE" || algorithm == "TH"
  {
    algorithm in VALID_ALGOS
  }

  // ---------------------------------------------------------------------
  // Directory names
  // ---------------------------------------------------------------------

  /** Which quantity a run sweeps: the number of metrics or of pods. */
  datatype Sweep = MetricSweep | PodSweep

  /** How the run collected: through Prometheus scrapes or the read loop. */
  datatype Mode = Prometheus | ReadLoop

  function SweepPrefix(sweep: Sweep): string
  {
    if sweep == MetricSweep then "metric_" else "pods_"
  }

  function ModeTag(mode: Mode): string
  {
    if mode == Prometheus then "prometheus" else "read_loop"
  }

  /** The directories a pass of to_dataframe looks at. */
  predicate Selected(name: string, sweep: Sweep, mode: Mode)
  {
    StartsWith(name, SweepPrefix(sweep)) && Contains(name, ModeTag(mode))
  }

  /** What a directory name tells: the swept number and the algorithm. */
  datatype Experiment = Experiment(n: int, algorithm: string)

  /** The number is the second '_'-field and the algorithm the last; a
      second field that is not an integer (ValueError) or a missing one
      (IndexError) gives None, and the directory is skipped. */
  function ParseDirName(name: string): (e: Option<Experiment>)
    ensures e.Some? <==> |Split(name, '_')| >= 2 && ParseInt(Split(name, '_')[1]).Some?
  {
    var fields := Split(name, '_');
    if |fields| < 2 then None
    else match ParseInt(fields[1])
      case None => None
      case Some(n) => Some(Experiment(n, fields[|fields| - 1]))
  }

  /** A name made of '_'-free fields, the second being a rendered integer,
      gives back that integer and the last field. */
  lemma {:induction false} DirNameFields(head: string, n: int, middle: seq<string>, algorithm: string)
    requires '_' !in head && '_' !in algorithm
    requires forall i :: 0 <= i < |middle| ==> '_' !in middle[i]
    ensures ParseDirName(Join([head, IntToString(n)] + middle + [algorithm], "_")) == Some(Experiment(n, algorithm))
  {
    var parts := [head, IntToString(n)] + middle + [algorithm];
    IntTextHasNo(n, '_');
    assert forall i :: 0 <= i < |parts| ==> '_' !in parts[i] by {
      forall i | 0 <= i < |parts|
        ensures '_' !in parts[i]
      {
        if 2 <= i < |parts| - 1 {
          assert parts[i] == middle[i - 2];
        }
      }
    }
    SplitJoin(parts, '_');
    IntRoundTrip(n);
  }

  // ---------------------------------------------------------------------
  // Prometheus runs: one wrk row per directory
  // ---------------------------------------------------------------------

  /** A directory of a Prometheus run: None when it has no wrk output,
      otherwise the requests per second and the average latency
      parse_wrk_output found (None where the figure is missing). */
  datatype WrkDir = WrkDir(name: string, wrk: Option<(Option<real>, Option<real>)>)

  datatype WrkRow = WrkRow(n: int, requestsPerSec: real, latencyMs: real, algorithm: string)

  /** The row a directory contributes: only a selected, well-named
      directory with both figures present and non-zero has one. */
  function WrkRowOf(sweep: Sweep, d: WrkDir): (r: Option<WrkRow>)
    ensures r.Some? ==> Selected(d.name, sweep, Prometheus) && ParseDirName(d.name).Some?
    ensures r.Some? ==> r.value.requestsPerSec != 0.0 && r.value.latencyMs != 0.0
    ensures r.Some? ==> r.value.n == ParseDirName(d.name).value.n && r.value.algorithm == ParseDirName(d.name).value.algorithm
  {
    if !Selected(d.name, sweep, Prometheus) then None
    else match ParseDirName(d.name)
      case None => None
      case Some(e) =>
        if d.wrk.None? then None
        else
          var (req, lat) := d.wrk.value;
          if req.Some? && req.value != 0.0 && lat.Some? && lat.value != 0.0 then
            Some(WrkRow(e.n, req.value, lat.value, e.algorithm))
          else None
  }

  /** A run is dropped only for a missing or zero figure once the name is
      right. */
  lemma {:induction false} WrkRowDropped(sweep: Sweep, d: WrkDir)
    requires Selected(d.name, sweep, Prometheus) && ParseDirName(d.name).Some?
    ensures WrkRowOf(sweep, d).None? <==>
      d.wrk.None? || d.wrk.value.0.None? || d.wrk.value.0.value == 0.0 ||
      d.wrk.value.1.None? || d.wrk.value.1.value == 0.0
  {
  }

  function WrkRows(sweep: Sweep, dirs: seq<WrkDir>): seq<WrkRow>
  {
    if |dirs| == 0 then []
    else
      var n := |dirs| - 1;
      var r := WrkRowOf(sweep, dirs[n]);
      WrkRows(sweep, dirs[..n]) + (if r.Some? then [r.value] else [])
  }

  /** The rows are exactly those of the directories that have one, in
      listing order. */
  lemma {:induction false} WrkRowsFromDirs(sweep: Sweep, dirs: seq<WrkDir>)
    ensures forall r :: r in WrkRows(sweep, dirs) <==> RowFromSomeDir(sweep, dirs, r)
  {
    forall r
      ensures r in WrkRows(sweep, dirs) <==> RowFromSomeDir(sweep, dirs, r)
    {
      if r in WrkRows(sweep, dirs) {
        RowComesFromDir(sweep, dirs, r);
      }
      if RowFromSomeDir(sweep, dirs, r) {
        var i :| 0 <= i < |dirs| && WrkRowOf(sweep, dirs[i]) == Some(r);
        DirRowListed(sweep, dirs, i);
      }
    }
  }

  lemma {:induction false} RowComesFromDir(sweep: Sweep, dirs: seq<WrkDir>, r: WrkRow)
    requires r in WrkRows(sweep, dirs)
    ensures RowFromSomeDir(sweep, dirs, r)
  {
    var n := |dirs| - 1;
    var init := dirs[..n];
    WrkRowsSnoc(sweep, dirs);
    if r in WrkRows(sweep, init) {
      RowComesFromDir(sweep, init, r);
      var i :| 0 <= i < |init| && WrkRowOf(sweep, init[i]) == Some(r);
      assert init[i] == dirs[i];
    }
  }

  lemma {:induction false} DirRowListed(sweep: Sweep, dirs: seq<WrkDir>, i: nat)
    requires i < |dirs| && WrkRowOf(sweep, dirs[i]).Some?
    ensures WrkRowOf(sweep, dirs[i]).value in WrkRows(sweep, dirs)
  {
    var n := |dirs| - 1;
    var init := dirs[..n];
    if i < n {
      assert init[i] == dirs[i];
      DirRowListed(sweep, init, i);
      RowKeptBySnoc(sweep, dirs, WrkRowOf(sweep, dirs[i]).value);
    } else {
      LastRowListed(sweep, dirs);
    }
  }

  lemma {:induction false} RowKeptBySnoc(sweep: Sweep, dirs: seq<WrkDir>, row: WrkRow)
    requires |dirs| > 0 && row in WrkRows(sweep, dirs[..|dirs| - 1])
    ensures row in WrkRows(sweep, dirs)
  {
    var before := WrkRows(sweep, dirs[..|dirs| - 1]);
    var k :| 0 <= k < |before| && before[k] == row;
    WrkRowsSnoc(sweep, dirs);
    if WrkRowOf(sweep, dirs[|dirs| - 1]).Some? {
      var after := before + [WrkRowOf(sweep, dirs[|dirs| - 1]).value];
      assert after[k] == row;
    }
  }

  lemma {:induction false} LastRowListed(sweep: Sweep, dirs: seq<WrkDir>)
    requires |dirs| > 0 && WrkRowOf(sweep, dirs[|dirs| - 1]).Some?
    ensures WrkRowOf(sweep, dirs[|dirs| - 1]).value in WrkRows(sweep, dirs)
  {
    var before := WrkRows(sweep, dirs[..|dirs| - 1]);
    WrkRowsSnoc(sweep, dirs);
    assert WrkRows(sweep, dirs)[|before|] == WrkRowOf(sweep, dirs[|dirs| - 1]).value;
  }

  /** WrkRows of a listing: the rows of all but the last directory, then
      the last one's row if it has one. */
  lemma {:induction false} WrkRowsSnoc(sweep: Sweep, dirs: seq<WrkDir>)
    requires |dirs| > 0
    ensures var last := WrkRowOf(sweep, dirs[|dirs| - 1]);
      last.None? ==> WrkRows(sweep, dirs) == WrkRows(sweep, dirs[..|dirs| - 1])
    ensures var last := WrkRowOf(sweep, dirs[|dirs| - 1]);
      last.Some? ==> WrkRows(sweep, dirs) == WrkRows(sweep, dirs[..|dirs| - 1]) + [last.value]
  {
  }

  /** Some directory of the listing has `r` as its row. */
  ghost predicate RowFromSomeDir(sweep: Sweep, dirs: seq<WrkDir>, r: WrkRow)
  {
    exists i :: 0 <= i < |dirs| && WrkRowOf(sweep, dirs[i]) == Some(r)
  }

  /** The first two passes of to_dataframe (metrics, then pods). */
  method CollectWrk(sweep: Sweep, dirs: seq<WrkDir>) returns (rows: seq<WrkRow>)
    ensures rows == WrkRows(sweep, dirs)
  {
    rows := [];
    for i := 0 to |dirs|
      invariant rows == WrkRows(sweep, dirs[..i])
    {
      var r := WrkRowOf(sweep, dirs[i]);
      if r.Some? {
        rows := rows + [r.value];
      }
      assert dirs[..i + 1][..i] == dirs[..i];
    }
    assert dirs[..|dirs|] == dirs;
  }

  // ---------------------------------------------------------------------
  // Statistics files
  // ---------------------------------------------------------------------

  /** The whitespace str.strip() removes (its ASCII part). */
  predicate IsSpace(c: char)
  {
    c == ' ' || c == '\t' || c == '\n' || c == '\r' || c as int == 11 || c as int == 12
  }

  function StripLeft(s: string): string
  {
    if |s| > 0 && IsSpace(s[0]) then StripLeft(s[1..]) else s
  }

  function StripRight(s: string): string
  {
    if |s| > 0 && IsSpace(s[|s| - 1]) then StripRight(s[..|s| - 1]) else s
  }

  /** str.strip(). */
  function Strip(s: string): string
  {
    StripRight(StripLeft(s))
  }

  /** Neither end is whitespace. */
  predicate Trimmed(s: string)
  {
    |s| == 0 || (!IsSpace(s[0]) && !IsSpace(s[|s| - 1]))
  }

  /** The position of the first `c`. */
  function FirstIndex(s: string, c: char): (i: nat)
    requires c in s
    ensures i < |s| && s[i] == c && c !in s[..i]
  {
    if s[0] == c then 0
    else
      var j := FirstIndex(s[1..], c);
      assert s[1..][..j] == s[1..j + 1];
      j + 1
  }

  /** str.split(c, 1) of text holding `c`: before and after the first `c`. */
  function SplitOnce(s: string, c: char): (string, string)
    requires c in s
  {
    var i := FirstIndex(s, c);
    (s[..i], s[i + 1..])
  }

  /** What a line of a statistics file gives. */
  datatype LineRead = NoComma | Entry(key: string, value: real) | Unparsable

  /** A line with a comma is stripped and cut at its first comma; the rest
      must parse as a float. */
  function ReadLine(line: string, parseFloat: string -> Option<real>): (r: LineRead)
    ensures r.NoComma? <==> ',' !in line
  {
    if ',' !in line then NoComma
    else
      var stripped := Strip(line);
      assert ',' in stripped by { StripKeepsComma(line); }
      var (key, value) := SplitOnce(stripped, ',');
      match parseFloat(value)
      case None => Unparsable
      case Some(x) => Entry(key, x)
  }

  lemma {:induction false} StripKeepsComma(s: string)
    requires ',' in s
    ensures ',' in Strip(s)
  {
    StripLeftKeeps(s);
    StripRightKeeps(StripLeft(s));
  }

  lemma {:induction false} StripLeftKeeps(s: string)
    requires ',' in s
    ensures ',' in StripLeft(s)
  {
    if |s| > 0 && IsSpace(s[0]) {
      assert ',' in s[1..] by {
        var i :| 0 <= i < |s| && s[i] == ',';
        assert s[1..][i - 1] == ',';
      }
      StripLeftKeeps(s[1..]);
    }
  }

  lemma {:induction false} StripRightKeeps(s: string)
    requires ',' in s
    ensures ',' in StripRight(s)
  {
    if |s| > 0 && IsSpace(s[|s| - 1]) {
      assert ',' in s[..|s| - 1] by {
        var i :| 0 <= i < |s| && s[i] == ',';
        assert s[..|s| - 1][i] == ',';
      }
      StripRightKeeps(s[..|s| - 1]);
    }
  }

  /** The statistics a file's lines give, or None as soon as one line does
      not parse (the whole file is then dropped). */
  function ParseStats(lines: seq<string>, parseFloat: string -> Option<real>): Option<map<string, real>>
  {
    if |lines| == 0 then Some(map[])
    else
      var n := |lines| - 1;
      match ParseStats(lines[..n], parseFloat)
      case None => None
      case Some(stats) =>
        match ReadLine(lines[n], parseFloat)
        case NoComma => Some(stats)
        case Unparsable => None
        case Entry(key, value) => Some(stats[key := value])
  }

  /** One unparsable line drops the whole file, and only that does. */
  lemma {:induction false} OneBadLineDropsFile(lines: seq<string>, parseFloat: string -> Option<real>)
    ensures ParseStats(lines, parseFloat).None? <==> exists i :: 0 <= i < |lines| && ReadLine(lines[i], parseFloat).Unparsable?
  {
    if |lines| > 0 {
      var n := |lines| - 1;
      OneBadLineDropsFile(lines[..n], parseFloat);
      assert forall i :: 0 <= i < n ==> lines[..n][i] == lines[i];
    }
  }

  /** The line loop of to_dataframe: fill the dict line by line, giving
      up on the first line that does not parse. */
  method ReadStats(lines: seq<string>, parseFloat: string -> Option<real>) returns (stats: Option<map<string, real>>)
    ensures stats == ParseStats(lines, parseFloat)
  {
    var m: map<string, real> := map[];
    for i := 0 to |lines|
      invariant ParseStats(lines[..i], parseFloat) == Some(m)
    {
      assert lines[..i + 1][..i] == lines[..i];
      var r := ReadLine(lines[i], parseFloat);
      if r.Unparsable? {
        OneBadLineDropsFile(lines, parseFloat);
        return None;
      }
      if r.Entry? {
        m := m[r.key := r.value];
      }
    }
    assert lines[..|lines|] == lines;
    return Some(m);
  }

  /** A trimmed line is left alone by strip(). */
  lemma {:induction false} StripTrimmed(s: string)
    requires Trimmed(s)
    ensures Strip(s) == s
  {
  }

  /** The first comma of key + "," + rest is the one after a comma-free key. */
  lemma {:induction false} SplitOnceAfterKey(key: string, rest: string)
    requires ',' !in key
    ensures SplitOnce(key + "," + rest, ',') == (key, rest)
  {
    var s := key + "," + rest;
    assert s[|key|] == ',' && s[..|key|] == key;
    var i := FirstIndex(s, ',');
    assert forall j :: 0 <= j < |key| ==> s[j] == key[j];
    assert s[|key| + 1..] == rest;
  }

  /** A statistic LMAP can write back safely: a comma-free key and a
      rendering with no newline and neither whitespace at its ends. */
  predicate Writable(key: string, v: Lmap.StatValue)
  {
    ',' !in key && '\n' !in key && Trimmed(key) && '\n' !in Lmap.Render(v) && Trimmed(Lmap.Render(v))
  }

  predicate DistinctKeys(stats: seq<(string, Lmap.StatValue)>)
  {
    forall i, j :: 0 <= i < j < |stats| ==> stats[i].0 != stats[j].0
  }

  /** The line LMAP writes for a statistic reads back as that key and its
      parsed value. */
  lemma {:induction false} StatLineReadBack(key: string, v: Lmap.StatValue, parseFloat: string -> Option<real>)
    requires Writable(key, v) && parseFloat(Lmap.Render(v)).Some?
    ensures ReadLine(Lmap.StatLine(key, v), parseFloat) == Entry(key, parseFloat(Lmap.Render(v)).value)
  {
    var line := Lmap.StatLine(key, v);
    assert line[|key|] == ',';
    assert Trimmed(line) by {
      assert |key| > 0 ==> line[0] == key[0];
      assert |Lmap.Render(v)| > 0 ==> line[|line| - 1] == Lmap.Render(v)[|Lmap.Render(v)| - 1];
    }
    StripTrimmed(line);
    SplitOnceAfterKey(key, Lmap.Render(v));
  }

  /** The keys of a statistics list. */
  function KeysOf(stats: seq<(string, Lmap.StatValue)>): set<string>
  {
    set i | 0 <= i < |stats| :: stats[i].0
  }

  /** `m` holds exactly the keys of `stats`, each with its parsed value. */
  predicate ReadBackOf(m: map<string, real>, stats: seq<(string, Lmap.StatValue)>, parseFloat: string -> Option<real>)
  {
    m.Keys == KeysOf(stats) &&
    forall i :: 0 <= i < |stats| ==> parseFloat(Lmap.Render(stats[i].1)).Some? && m[stats[i].0] == parseFloat(Lmap.Render(stats[i].1)).value
  }

  /** All statistics are writable and parse back. */
  predicate AllWritable(stats: seq<(string, Lmap.StatValue)>, parseFloat: string -> Option<real>)
  {
    forall i :: 0 <= i < |stats| ==> Writable(stats[i].0, stats[i].1) && parseFloat(Lmap.Render(stats[i].1)).Some?
  }

  /** Adding one more line to a file read so far. */
  lemma {:induction false} ParseStatsSnoc(lines: seq<string>, line: string, parseFloat: string -> Option<real>)
    ensures ParseStats(lines + [line], parseFloat) ==
      match ParseStats(lines, parseFloat)
      case None => None
      case Some(stats) =>
        match ReadLine(line, parseFloat)
        case NoComma => Some(stats)
        case Unparsable => None
        case Entry(key, value) => Some(stats[key := value])
  {
    assert (lines + [line])[..|lines|] == lines;
  }

  /** Reading one more statistic with a new key extends the read-back. */
  lemma {:induction false} ReadBackSnoc(m: map<string, real>, init: seq<(string, Lmap.StatValue)>,
                                        last: (string, Lmap.StatValue), parseFloat: string -> Option<real>)
    requires ReadBackOf(m, init, parseFloat) && last.0 !in KeysOf(init)
    requires parseFloat(Lmap.Render(last.1)).Some?
    ensures ReadBackOf(m[last.0 := parseFloat(Lmap.Render(last.1)).value], init + [last], parseFloat)
  {
    var stats := init + [last];
    var m' := m[last.0 := parseFloat(Lmap.Render(last.1)).value];
    assert KeysOf(stats) == KeysOf(init) + {last.0} by {
      forall k | k in KeysOf(stats)
        ensures k in KeysOf(init) + {last.0}
      {
        var i :| 0 <= i < |stats| && stats[i].0 == k;
        if i < |init| {
          assert init[i] == stats[i];
        }
      }
      forall k | k in KeysOf(init)
        ensures k in KeysOf(stats)
      {
        var i :| 0 <= i < |init| && init[i].0 == k;
        assert stats[i] == init[i];
      }
      assert stats[|init|] == last;
    }
    forall i | 0 <= i < |stats|
      ensures parseFloat(Lmap.Render(stats[i].1)).Some? && m'[stats[i].0] == parseFloat(Lmap.Render(stats[i].1)).value
    {
      if i < |init| {
        assert stats[i] == init[i] && init[i].0 in KeysOf(init);
      }
    }
  }

  /** Dropping the last statistic keeps the keys distinct and writable,
      and the last key is not among the others. */
  lemma {:induction false} StatsPrefix(stats: seq<(string, Lmap.StatValue)>, parseFloat: string -> Option<real>)
    requires |stats| > 0 && DistinctKeys(stats) && AllWritable(stats, parseFloat)
    ensures DistinctKeys(stats[..|stats| - 1]) && AllWritable(stats[..|stats| - 1], parseFloat)
    ensures stats[|stats| - 1].0 !in KeysOf(stats[..|stats| - 1])
  {
    var init := stats[..|stats| - 1];
    assert forall i :: 0 <= i < |init| ==> init[i] == stats[i];
  }

  lemma {:induction false} StatLinesSnoc(init: seq<(string, Lmap.StatValue)>, last: (string, Lmap.StatValue))
    ensures Lmap.StatLines(init + [last]) == Lmap.StatLines(init) + [Lmap.StatLine(last.0, last.1)]
  {
    var stats := init + [last];
    assert forall i :: 0 <= i < |init| ==> stats[i] == init[i];
  }

  /** Reading the lines of a statistics dump gives every key written, each
      with its parsed value, and no other key. */
  lemma {:induction false} StatLinesReadBack(stats: seq<(string, Lmap.StatValue)>, parseFloat: string -> Option<real>)
    requires DistinctKeys(stats) && AllWritable(stats, parseFloat)
    ensures ParseStats(Lmap.StatLines(stats), parseFloat).Some?
    ensures ReadBackOf(ParseStats(Lmap.StatLines(stats), parseFloat).value, stats, parseFloat)
  {
    if |stats| > 0 {
      var n := |stats| - 1;
      var init := stats[..n];
      var last := stats[n];
      var linesInit := Lmap.StatLines(init);
      var line := Lmap.StatLine(last.0, last.1);
      StatsPrefix(stats, parseFloat);
      StatLinesReadBack(init, parseFloat);
      StatLinesSnoc(init, last);
      assert stats == init + [last];
      assert Writable(last.0, last.1) && parseFloat(Lmap.Render(last.1)).Some?;
      StatLineReadBack(last.0, last.1, parseFloat);
      ParseEntrySnoc(linesInit, line, parseFloat, last.0, parseFloat(Lmap.Render(last.1)).value);
      ReadBackSnoc(ParseStats(linesInit, parseFloat).value, init, last, parseFloat);
    }
  }

  /** A line that reads as an entry adds it to the statistics read so far. */
  lemma {:induction false} ParseEntrySnoc(lines: seq<string>, line: string, parseFloat: string -> Option<real>, key: string, value: real)
    requires ParseStats(lines, parseFloat).Some? && ReadLine(line, parseFloat) == Entry(key, value)
    ensures ParseStats(lines + [line], parseFloat) == Some(ParseStats(lines, parseFloat).value[key := value])
  {
    ParseStatsSnoc(lines, line, parseFloat);
  }

  /** The round trip with LMAP's dump_statistics: the file it writes reads
      back as the same keys with their parsed values. */
  lemma {:induction false} StatsFileRoundTrip(stats: seq<(string, Lmap.StatValue)>, parseFloat: string -> Option<real>)
    requires DistinctKeys(stats) && AllWritable(stats, parseFloat)
    ensures ParseStats(Split(Lmap.StatsText(stats), '\n'), parseFloat).Some?
    ensures ReadBackOf(ParseStats(Split(Lmap.StatsText(stats), '\n'), parseFloat).value, stats, parseFloat)
  {
    Lmap.StatsFileLines(stats);
    StatLinesReadBack(stats, parseFloat);
    ParseStatsSnoc(Lmap.StatLines(stats), "", parseFloat);
    assert ReadLine("", parseFloat) == NoComma;
  }

  // ---------------------------------------------------------------------
  // Read-loop runs: one row per statistics file
  // ---------------------------------------------------------------------

  /** A cell of a result row. */
  datatype Value = Num(x: real) | Int(i: int) | Text(s: string)

  /** The statistics of one file with the run's metadata added; the
      metadata overwrites a statistic of the same name. */
  function WithMetadata(sweep: Sweep, stats: map<string, real>, n: int, lmap: string, algorithm: string): (row: map<string, Value>)
    ensures "lmap" in row && row["lmap"] == Text(lmap)
    ensures "algorithm" in row && row["algorithm"] == Text(algorithm)
    ensures "delta_t_seconds" in row && row["delta_t_seconds"] == Int(10)
    ensures sweep == MetricSweep ==> "num_metrics" in row && row["num_metrics"] == Int(n) && "num_pod" in row && row["num_pod"] == Int(8)
    ensures sweep == PodSweep ==> "num_pods" in row && row["num_pods"] == Int(n) && "num_metrics" in row && row["num_metrics"] == Int(64)
    ensures forall k :: k in stats && k !in MetadataKeys(sweep) ==> k in row && row[k] == Num(stats[k])
    ensures row.Keys == stats.Keys + MetadataKeys(sweep)
  {
    var base := map k | k in stats :: Num(stats[k]);
    if sweep == MetricSweep then
      base["num_metrics" := Int(n)]["lmap" := Text(lmap)]["algorithm" := Text(algorithm)]
          ["num_pod" := Int(8)]["delta_t_seconds" := Int(10)]
    else
      base["num_pods" := Int(n)]["lmap" := Text(lmap)]["algorithm" := Text(algorithm)]
          ["num_metrics" := Int(64)]["delta_t_seconds" := Int(10)]
  }

  function MetadataKeys(sweep: Sweep): set<string>
  {
    if sweep == MetricSweep then {"num_metrics", "lmap", "algorithm", "num_pod", "delta_t_seconds"}
    else {"num_pods", "lmap", "algorithm", "num_metrics", "delta_t_seconds"}
  }

  predicate EndsWith(s: string, suffix: string)
  {
    |suffix| <= |s| && s[|s| - |suffix|..] == suffix
  }

  predicate IsStatsFileName(f: string)
  {
    StartsWith(f, "stats_LMAP_") && EndsWith(f, ".csv")
  }

  /** A statistics file name has at least three '_'-fields, the first two
      being "stats" and "LMAP". */
  lemma {:induction false} StatsFileFields(f: string)
    requires StartsWith(f, "stats_LMAP_")
    ensures |Split(f, '_')| >= 3 && Split(f, '_')[..2] == ["stats", "LMAP"]
    ensures Split(f, '_')[2..] == Split(f[|"stats_LMAP_"|..], '_')
  {
    var rest := f[|"stats_LMAP_"|..];
    assert f == "stats" + ['_'] + ("LMAP" + ['_'] + rest);
    SplitAfterPiece("stats", '_', "LMAP" + ['_'] + rest);
    SplitAfterPiece("LMAP", '_', rest);
  }

  /** The LMAP number: the third '_'-field, cut at its first '.'. */
  function LmapNumber(f: string): string
    requires StartsWith(f, "stats_LMAP_")
  {
    StatsFileFields(f);
    Split(Split(f, '_')[2], '.')[0]
  }

  /** "stats_LMAP_<k>.csv" gives k back, for k free of '_' and '.'. */
  lemma {:induction false} LmapNumberOf(k: string)
    requires '_' !in k && '.' !in k
    ensures IsStatsFileName("stats_LMAP_" + k + ".csv")
    ensures LmapNumber("stats_LMAP_" + k + ".csv") == k
  {
    var f := "stats_LMAP_" + k + ".csv";
    assert f[..|"stats_LMAP_"|] == "stats_LMAP_";
    assert f[|f| - 4..] == ".csv";
    StatsFileFields(f);
    var rest := f[|"stats_LMAP_"|..];
    assert rest == k + ".csv";
    SplitNoSeparator(rest, '_');
    assert rest == k + ['.'] + "csv";
    SplitAfterPiece(k, '.', "csv");
  }

  /** A file in a read-loop directory: None when it cannot be read. */
  datatype StatsFile = StatsFile(name: string, content: Option<string>)

  datatype LoopDir = LoopDir(name: string, files: seq<StatsFile>)

  /** The row one file contributes, if it is a statistics file that reads. */
  function FileRow(sweep: Sweep, e: Experiment, f: StatsFile, parseFloat: string -> Option<real>): Option<map<string, Value>>
  {
    if !IsStatsFileName(f.name) || f.content.None? then None
    else match ParseStats(Split(f.content.value, '\n'), parseFloat)
      case None => None
      case Some(stats) => Some(WithMetadata(sweep, stats, e.n, LmapNumber(f.name), e.algorithm))
  }

  function FileRows(sweep: Sweep, e: Experiment, files: seq<StatsFile>, parseFloat: string -> Option<real>): seq<map<string, Value>>
  {
    if |files| == 0 then []
    else
      var n := |files| - 1;
      var r := FileRow(sweep, e, files[n], parseFloat);
      FileRows(sweep, e, files[..n], parseFloat) + (if r.Some? then [r.value] else [])
  }

  /** The rows a directory contributes: none unless it is selected, its
      name parses and its algorithm is a valid one. */
  function DirRows(sweep: Sweep, d: LoopDir, parseFloat: string -> Option<real>): seq<map<string, Value>>
  {
    if !Selected(d.name, sweep, ReadLoop) then []
    else match ParseDirName(d.name)
      case None => []
      case Some(e) => if !SanityCheck(e.algorithm) then [] else FileRows(sweep, e, d.files, parseFloat)
  }

  function LoopRows(sweep: Sweep, dirs: seq<LoopDir>, parseFloat: string -> Option<real>): seq<map<string, Value>>
  {
    if |dirs| == 0 then []
    else
      var n := |dirs| - 1;
      LoopRows(sweep, dirs[..n], parseFloat) + DirRows(sweep, dirs[n], parseFloat)
  }

  /** Every row of a directory carries the directory's number, a valid
      algorithm and the fixed delta. */
  predicate RowOfRun(sweep: Sweep, row: map<string, Value>)
  {
    "algorithm" in row && row["algorithm"] in {Text("FD"), Text("VAE"), Text("TH")} &&
    "delta_t_seconds" in row && row["delta_t_seconds"] == Int(10) &&
    (sweep == MetricSweep ==> "num_pod" in row && row["num_pod"] == Int(8)) &&
    (sweep == PodSweep ==> "num_metrics" in row && row["num_metrics"] == Int(64))
  }

  lemma {:induction false} FileRowsOfRun(sweep: Sweep, e: Experiment, files: seq<StatsFile>, parseFloat: string -> Option<real>)
    requires SanityCheck(e.algorithm)
    ensures forall r :: r in FileRows(sweep, e, files, parseFloat) ==> RowOfRun(sweep, r)
  {
    if |files| > 0 {
      FileRowsOfRun(sweep, e, files[..|files| - 1], parseFloat);
    }
  }

  /** Only valid algorithms reach the read-loop tables, each row with the
      sweep's fixed settings. */
  lemma {:induction false} LoopRowsOfRuns(sweep: Sweep, dirs: seq<LoopDir>, parseFloat: string -> Option<real>)
    ensures forall r :: r in LoopRows(sweep, dirs, parseFloat) ==> RowOfRun(sweep, r)
  {
    if |dirs| > 0 {
      var n := |dirs| - 1;
      var before := LoopRows(sweep, dirs[..n], parseFloat);
      var added := DirRows(sweep, dirs[n], parseFloat);
      LoopRowsOfRuns(sweep, dirs[..n], parseFloat);
      DirRowsOfRun(sweep, dirs[n], parseFloat);
      assert LoopRows(sweep, dirs, parseFloat) == before + added;
    }
  }

  lemma {:induction false} DirRowsOfRun(sweep: Sweep, d: LoopDir, parseFloat: string -> Option<real>)
    ensures forall r :: r in DirRows(sweep, d, parseFloat) ==> RowOfRun(sweep, r)
  {
    match ParseDirName(d.name)
    case None =>
    case Some(e) =>
      if Selected(d.name, sweep, ReadLoop) && SanityCheck(e.algorithm) {
        FileRowsOfRun(sweep, e, d.files, parseFloat);
      }
  }

  /** The file loop of one directory. */
  method CollectFiles(sweep: Sweep, e: Experiment, files: seq<StatsFile>, parseFloat: string -> Option<real>)
    returns (rows: seq<map<string, Value>>)
    ensures rows == FileRows(sweep, e, files, parseFloat)
  {
    rows := [];
    for i := 0 to |files|
      invariant rows == FileRows(sweep, e, files[..i], parseFloat)
    {
      assert files[..i + 1][..i] == files[..i];
      var f := files[i];
      if IsStatsFileName(f.name) && f.content.Some? {
        var stats := ReadStats(Split(f.content.value, '\n'), parseFloat);
        if stats.Some? {
          rows := rows + [WithMetadata(sweep, stats.value, e.n, LmapNumber(f.name), e.algorithm)];
        }
      }
    }
    assert files[..|files|] == files;
  }

  /** The last two passes of to_dataframe (metrics, then pods). */
  method CollectReadLoop(sweep: Sweep, dirs: seq<LoopDir>, parseFloat: string -> Option<real>)
    returns (rows: seq<map<string, Value>>)
    ensures rows == LoopRows(sweep, dirs, parseFloat)
  {
    rows := [];
    for i := 0 to |dirs|
      invariant rows == LoopRows(sweep, dirs[..i], parseFloat)
    {
      assert dirs[..i + 1][..i] == dirs[..i];
      var more := CollectDir(sweep, dirs[i], parseFloat);
      rows := rows + more;
    }
    assert dirs[..|dirs|] == dirs;
  }

  /** One directory of the read-loop passes. */
  method CollectDir(sweep: Sweep, d: LoopDir, parseFloat: string -> Option<real>)
    returns (rows: seq<map<string, Value>>)
    ensures rows == DirRows(sweep, d, parseFloat)
  {
    rows := [];
    if Selected(d.name, sweep, ReadLoop) {
      var e := ParseDirName(d.name);
      if e.Some? && SanityCheck(e.value.algorithm) {
        rows := CollectFiles(sweep, e.value, d.files, parseFloat);
      }
    }
  }
}
