/**
 * The hotel-reservation workload generator (workloadgen/request_loop.go and
 * workloadgen/workload.go): an engine that drives requests either in an
 * open loop or from a pool of worker threads, collects one Stat per
 * request through a channel, and writes the Stats as CSV. The timers,
 * goroutines and the Poisson jitter are not modelled; what is modelled is
 * the sequential part: the collector, the order of shutdown, the tick and
 * throughput arithmetic, the pool's request counter, the flag overrides,
 * the mode selection and the report. The clock, the service call and
 * time.ParseDuration enter as parameters.
 */
module WorkloadGen {
  import opened Common
  import Channels

  /** One request: start time and duration in nanoseconds, and whether it
      failed. */
  datatype Stat = Stat(start: int, duration: int, isError: bool)

  /** The JSON configuration. */
  datatype Config = Config(numThreads: int, numReqs: int, duration: string, throughput: int)

  /** Ways a run stops the process: a Go runtime panic (integer division by
      zero, a negative channel size) or a log.Fatal. */
  datatype Abort = DivideByZero | NegativeBufferSize | BadDuration

  const NANOS_PER_SECOND: int := 1_000_000_000

  // ---------------------------------------------------------------------
  // Tick and throughput arithmetic
  // ---------------------------------------------------------------------

  /** What a mode works out before it starts sending: the per-worker
      throughput, the tick in nanoseconds and the run's duration. */
  datatype Plan = Plan(throughput: int, tick: int, duration: int)

  /** The open loop: the duration is parsed first, then a channel of
      `throughput` slots is made, then the tick is the integer quotient of
      one second by the throughput. `duration` is what time.ParseDuration
      made of the configured text. */
  function OpenLoopPlan(throughput: int, duration: Option<int>): Result<Plan, Abort>
  {
    if duration.None? then Failure(BadDuration)
    else if throughput < 0 then Failure(NegativeBufferSize)
    else if throughput == 0 then Failure(DivideByZero)
    else Success(Plan(throughput, GoDiv(NANOS_PER_SECOND, throughput), duration.value))
  }

  /** The thread pool: the throughput is split evenly (integer quotient)
      over the threads, the duration is parsed, a channel of twice the
      thread count is made, and the tick is one second over the per-worker
      throughput. */
  function PoolPlan(throughput: int, numThreads: int, duration: Option<int>): Result<Plan, Abort>
  {
    if numThreads == 0 then Failure(DivideByZero)
    else
      var perWorker := GoDiv(throughput, numThreads);
      if duration.None? then Failure(BadDuration)
      else if 2 * numThreads < 0 then Failure(NegativeBufferSize)
      else if perWorker == 0 then Failure(DivideByZero)
      else Success(Plan(perWorker, GoDiv(NANOS_PER_SECOND, perWorker), duration.value))
  }

  /** The pool starts exactly when there is at least one thread, the
      duration parses and the throughput is at least the thread count in
      size; a throughput below the thread count gives a zero quotient and
      divides by zero. */
  lemma {:induction false} PoolPlanStarts(throughput: int, numThreads: int, duration: Option<int>)
    ensures PoolPlan(throughput, numThreads, duration).Success? <==>
      numThreads > 0 && duration.Some? && (throughput >= numThreads || throughput <= -numThreads)
    ensures numThreads > 0 && duration.Some? && 0 <= throughput < numThreads ==>
      PoolPlan(throughput, numThreads, duration) == Failure(DivideByZero)
  {
    if numThreads > 0 {
      var t := if throughput < 0 then -throughput else throughput;
      assert t < numThreads ==> t / numThreads == 0;
      assert t >= numThreads ==> t / numThreads >= 1;
    }
  }

  /** With a non-negative throughput the workers together ask for at most
      the configured rate, and less than one request per second per worker
      is lost to the rounding. */
  lemma {:induction false} PoolPerWorker(throughput: int, numThreads: int, duration: Option<int>)
    requires PoolPlan(throughput, numThreads, duration).Success? && throughput >= 0
    ensures var p := PoolPlan(throughput, numThreads, duration).value.throughput;
      p * numThreads <= throughput < (p + 1) * numThreads
  {
    PoolPlanStarts(throughput, numThreads, duration);
  }

  /** A positive per-worker rate gets the longest whole-nanosecond tick
      that does not undershoot it. */
  lemma {:induction false} TickBounds(p: Plan)
    requires p.throughput > 0 && p.tick == GoDiv(NANOS_PER_SECOND, p.throughput)
    ensures p.tick * p.throughput <= NANOS_PER_SECOND < (p.tick + 1) * p.throughput
  {
  }

  /** The open loop starts exactly when the duration parses and the
      throughput is positive. */
  lemma {:induction false} OpenLoopStarts(throughput: int, duration: Option<int>)
    ensures OpenLoopPlan(throughput, duration).Success? <==> duration.Some? && throughput > 0
    ensures OpenLoopPlan(throughput, duration).Success? ==>
      OpenLoopPlan(throughput, duration).value.tick == NANOS_PER_SECOND / throughput
  {
  }

  // ---------------------------------------------------------------------
  // The pool's request counter
  // ---------------------------------------------------------------------

  /** The counter shared by the pool's workers: how many requests have
      completed, and for each worker whether it has one in flight. */
  datatype PoolState = PoolState(curReqs: int, busy: seq<bool>)

  function InFlight(busy: seq<bool>): (n: nat)
    ensures n <= |busy|
  {
    if |busy| == 0 then 0 else InFlight(busy[..|busy| - 1]) + (if busy[|busy| - 1] then 1 else 0)
  }

  /** Requests issued so far: completed plus in flight. */
  function Issued(s: PoolState): int
  {
    s.curReqs + InFlight(s.busy)
  }

  function IdlePool(numThreads: nat): (s: PoolState)
    ensures |s.busy| == numThreads && Issued(s) == 0
  {
    var busy := seq(numThreads, _ => false);
    NoneInFlight(busy);
    PoolState(0, busy)
  }

  lemma {:induction false} NoneInFlight(busy: seq<bool>)
    requires forall i :: 0 <= i < |busy| ==> !busy[i]
    ensures InFlight(busy) == 0
  {
    if |busy| > 0 {
      NoneInFlight(busy[..|busy| - 1]);
    }
  }

  /** Raising or lowering one worker's flag moves the in-flight count by one. */
  lemma {:induction false} InFlightSet(busy: seq<bool>, w: nat, b: bool)
    requires w < |busy|
    ensures InFlight(busy[w := b]) ==
      InFlight(busy) - (if busy[w] then 1 else 0) + (if b then 1 else 0)
  {
    var n := |busy| - 1;
    if w < n {
      assert busy[w := b][..n] == busy[..n][w := b];
      InFlightSet(busy[..n], w, b);
    } else {
      assert busy[w := b][..n] == busy[..n];
    }
  }

  /** An idle worker at the head of its loop: it issues a request only when
      it sees fewer than `maxReqs` completed requests. */
  function TryStart(s: PoolState, maxReqs: int, w: nat): (PoolState, bool)
    requires w < |s.busy| && !s.busy[w]
  {
    if s.curReqs < maxReqs then (s.(busy := s.busy[w := true]), true) else (s, false)
  }

  /** A worker's request returns: the counter is incremented only now. */
  function Complete(s: PoolState, w: nat): PoolState
    requires w < |s.busy| && s.busy[w]
  {
    PoolState(s.curReqs + 1, s.busy[w := false])
  }

  /** The bound the counter as written keeps: at most `maxReqs - 1` plus
      one request per worker. */
  ghost predicate WithinOvershoot(s: PoolState, maxReqs: int)
  {
    s.curReqs >= 0 &&
    Issued(s) <= (if maxReqs > 0 then maxReqs - 1 + |s.busy| else 0)
  }

  /** Both steps keep the overshoot bound, so the pool never issues more
      than `maxReqs + numThreads - 1` requests. */
  lemma {:induction false} OvershootKept(s: PoolState, maxReqs: int, w: nat)
    requires WithinOvershoot(s, maxReqs) && w < |s.busy|
    ensures !s.busy[w] ==> WithinOvershoot(TryStart(s, maxReqs, w).0, maxReqs)
    ensures s.busy[w] ==> WithinOvershoot(Complete(s, w), maxReqs)
  {
    if !s.busy[w] {
      InFlightSet(s.busy, w, true);
    } else {
      InFlightSet(s.busy, w, false);
    }
  }

  /** As written, two workers that both look before either completes both
      issue a request, so `maxReqs` 1 yields 2 requests. */
  lemma {:induction false} CounterOvershoots()
    ensures var s0 := IdlePool(2);
      var (s1, first) := TryStart(s0, 1, 0);
      var (s2, second) := TryStart(s1, 1, 1);
      first && second && Issued(s2) == 2
  {
    var s0 := IdlePool(2);
    var s1 := TryStart(s0, 1, 0).0;
    var s2 := TryStart(s1, 1, 1).0;
    assert s0.busy == [false, false];
    InFlightSet(s0.busy, 0, true);
    InFlightSet(s1.busy, 1, true);
  }

  /** The counter as evidently intended: a worker reserves its request
      before issuing it (an atomic add checked against the limit), so
      issued requests are what is compared with `maxReqs`. */
  function TryReserve(s: PoolState, maxReqs: int, w: nat): (PoolState, bool)
    requires w < |s.busy| && !s.busy[w]
  {
    if Issued(s) < maxReqs then (s.(busy := s.busy[w := true]), true) else (s, false)
  }

  ghost predicate WithinLimit(s: PoolState, maxReqs: int)
  {
    s.curReqs >= 0 && Issued(s) <= (if maxReqs > 0 then maxReqs else 0)
  }

  /** With reservation the limit holds whatever the interleaving. */
  lemma {:induction false} LimitKept(s: PoolState, maxReqs: int, w: nat)
    requires WithinLimit(s, maxReqs) && w < |s.busy|
    ensures !s.busy[w] ==> WithinLimit(TryReserve(s, maxReqs, w).0, maxReqs)
    ensures s.busy[w] ==> WithinLimit(Complete(s, w), maxReqs)
  {
    if !s.busy[w] {
      InFlightSet(s.busy, w, true);
    } else {
      InFlightSet(s.busy, w, false);
    }
  }

  /** Reservation still lets every worker run while the limit allows: a
      worker is refused only when the limit is reached. */
  lemma {:induction false} ReserveRefusesOnlyAtLimit(s: PoolState, maxReqs: int, w: nat)
    requires w < |s.busy| && !s.busy[w]
    ensures !TryReserve(s, maxReqs, w).1 <==> Issued(s) >= maxReqs
    ensures TryReserve(s, maxReqs, w).1 ==> Issued(TryReserve(s, maxReqs, w).0) == Issued(s) + 1
  {
    InFlightSet(s.busy, w, true);
  }

  // ---------------------------------------------------------------------
  // The report
  // ---------------------------------------------------------------------

  const HEADER: string := "Start,Duration,IsError"

  function ErrorCount(stats: seq<Stat>): (n: nat)
    ensures n <= |stats|
  {
    if |stats| == 0 then 0
    else ErrorCount(stats[..|stats| - 1]) + (if stats[|stats| - 1].isError then 1 else 0)
  }

  function DurationSum(stats: seq<Stat>): int
  {
    if |stats| == 0 then 0 else DurationSum(stats[..|stats| - 1]) + stats[|stats| - 1].duration
  }

  /** "start,duration,true|false". */
  function StatLine(s: Stat): string
  {
    Join([IntToString(s.start), IntToString(s.duration), FormatBool(s.isError)], ",")
  }

  function StatLines(stats: seq<Stat>): (lines: seq<string>)
    ensures |lines| == |stats|
  {
    seq(|stats|, i requires 0 <= i < |stats| => StatLine(stats[i]))
  }

  /** The CSV file: the header line, then the lines joined by newlines with
      no newline after the last. */
  function StatsFile(stats: seq<Stat>): string
  {
    HEADER + "\n" + Join(StatLines(stats), "\n")
  }

  /** What PrintStats reports and writes. */
  datatype Report = Report(total: nat, successful: int, errors: nat, sumDurations: int, data: string)

  /** Reading a data line back: three comma-separated fields, two decimal
      integers and a Go boolean. */
  function ParseStatLine(line: string): Option<Stat>
  {
    var f := Split(line, ',');
    if |f| != 3 then None
    else match (ParseInt(f[0]), ParseInt(f[1]), ParseBool(f[2]))
      case (Some(a), Some(d), Some(e)) => Some(Stat(a, d, e))
      case _ => None
  }

  lemma {:induction false} StatLineRoundTrip(s: Stat)
    ensures ParseStatLine(StatLine(s)) == Some(s)
    ensures Split(StatLine(s), ',') == [IntToString(s.start), IntToString(s.duration), FormatBool(s.isError)]
    ensures '\n' !in StatLine(s)
  {
    StatLineFields(s);
    StatLineParses(s);
    StatLineOneLine(s);
  }

  lemma {:induction false} StatLineParses(s: Stat)
    ensures ParseStatLine(StatLine(s)) == Some(s)
  {
    StatLineFields(s);
    IntRoundTrip(s.start);
    IntRoundTrip(s.duration);
    BoolRoundTrip(s.isError);
  }

  lemma {:induction false} StatLineOneLine(s: Stat)
    ensures '\n' !in StatLine(s)
  {
    StatLineFields(s);
    IntTextHasNo(s.start, '\n');
    IntTextHasNo(s.duration, '\n');
    assert '\n' !in FormatBool(s.isError);
  }

  /** The line is the three fields joined with commas, none holding one. */
  lemma {:induction false} StatLineFields(s: Stat)
    ensures StatLine(s) == IntToString(s.start) + "," + IntToString(s.duration) + "," + FormatBool(s.isError)
    ensures Split(StatLine(s), ',') == [IntToString(s.start), IntToString(s.duration), FormatBool(s.isError)]
  {
    var parts := [IntToString(s.start), IntToString(s.duration), FormatBool(s.isError)];
    IntTextHasNo(s.start, ',');
    IntTextHasNo(s.duration, ',');
    SplitJoin(parts, ',');
    assert parts[1..] == [parts[1], parts[2]] && parts[1..][1..] == [parts[2]];
    assert Join(parts[1..][1..], ",") == parts[2];
    assert Join(parts[1..], ",") == parts[1] + "," + parts[2];
    assert Join(parts, ",") == parts[0] + "," + (parts[1] + "," + parts[2]);
  }

  /** Splitting the file on newlines gives the header, then exactly one
      line per Stat (a single empty line when there are none), and each
      data line reads back as its Stat. */
  lemma {:induction false} StatsFileRoundTrip(stats: seq<Stat>)
    ensures var lines := Split(StatsFile(stats), '\n');
      lines[0] == HEADER &&
      lines[1..] == (if |stats| == 0 then [""] else StatLines(stats))
    ensures forall i :: 0 <= i < |stats| ==> ParseStatLine(StatLines(stats)[i]) == Some(stats[i])
  {
    var body := Join(StatLines(stats), "\n");
    assert StatsFile(stats) == HEADER + ['\n'] + body;
    SplitAfterPiece(HEADER, '\n', body);
    forall i | 0 <= i < |stats|
      ensures ParseStatLine(StatLines(stats)[i]) == Some(stats[i]) && '\n' !in StatLines(stats)[i]
    {
      StatLineRoundTrip(stats[i]);
    }
    if |stats| > 0 {
      SplitJoin(StatLines(stats), '\n');
    }
  }

  /** Counting is additive over appended Stats, so the report over
      everything collected is the sum of the reports over the parts. */
  lemma {:induction false} CountsAppend(a: seq<Stat>, b: seq<Stat>)
    ensures ErrorCount(a + b) == ErrorCount(a) + ErrorCount(b)
    ensures DurationSum(a + b) == DurationSum(a) + DurationSum(b)
  {
    if |b| > 0 {
      var n := |b| - 1;
      assert (a + b)[..|a + b| - 1] == a + b[..n];
      CountsAppend(a, b[..n]);
    } else {
      assert a + b == a;
    }
  }

  // ---------------------------------------------------------------------
  // The stat channel and the engine
  // ---------------------------------------------------------------------

  /** One request of the hotel workload: the start time is taken before the
      search call, the duration after it, and exactly one Stat is sent,
      an error iff the search returned one. */
  method RunRequest(ch: Channels.Channel<Stat>, start: int, elapsed: int, searchFailed: bool)
    requires ch.Valid() && !ch.closed
    modifies ch`sent
    ensures ch.Valid() && ch.sent == old(ch.sent) + [Stat(start, elapsed, searchFailed)]
  {
    var stat := Stat(start, 0, false);
    stat := stat.(duration := elapsed);
    if searchFailed {
      stat := stat.(isError := true);
    }
    ch.Send(stat);
  }

  class Engine {
    const outFile: string
    var stats: seq<Stat>

    constructor (outFile: string)
      ensures this.outFile == outFile && stats == []
    {
      this.outFile := outFile;
      stats := [];
    }

    /** A whole run, abstracting the timing: `sentDuringRun` are the Stats
        the producers sent before the stop, in the order received, and
        `finalSends` what each producer sent while shutting down. */
    method RunProducers(sentDuringRun: seq<Stat>, finalSends: seq<seq<Stat>>)
      modifies this`stats
      ensures stats == old(stats) + sentDuringRun + Flatten(finalSends)
    {
      var ch := new Channels.Channel<Stat>();
      Channels.SendAll(ch, sentDuringRun);
      var got := Channels.Shutdown(ch, finalSends);
      stats := stats + got;
    }

    /** The open loop: nothing is sent when the plan fails. */
    method RunOpenLoop(config: Config, duration: Option<int>, sentDuringRun: seq<Stat>, finalSends: seq<seq<Stat>>)
      returns (r: Result<Plan, Abort>)
      modifies this`stats
      ensures r == OpenLoopPlan(config.throughput, duration)
      ensures r.Failure? ==> stats == old(stats)
      ensures r.Success? ==> stats == old(stats) + sentDuringRun + Flatten(finalSends)
    {
      r := OpenLoopPlan(config.throughput, duration);
      if r.Success? {
        RunProducers(sentDuringRun, finalSends);
      }
    }

    /** The thread pool: nothing is sent when the plan fails. */
    method RunWithThreadPool(config: Config, duration: Option<int>, sentDuringRun: seq<Stat>, finalSends: seq<seq<Stat>>)
      returns (r: Result<Plan, Abort>)
      modifies this`stats
      ensures r == PoolPlan(config.throughput, config.numThreads, duration)
      ensures r.Failure? ==> stats == old(stats)
      ensures r.Success? ==> stats == old(stats) + sentDuringRun + Flatten(finalSends)
    {
      r := PoolPlan(config.throughput, config.numThreads, duration);
      if r.Success? {
        RunProducers(sentDuringRun, finalSends);
      }
    }

    /** Count the Stats and render the CSV file. */
    method PrintStats() returns (rep: Report)
      ensures rep.total == |stats| && rep.errors == ErrorCount(stats)
      ensures rep.successful == |stats| - ErrorCount(stats) && rep.successful >= 0
      ensures rep.sumDurations == DurationSum(stats)
      ensures rep.data == StatsFile(stats)
    {
      var numErrors := 0;
      var numReqs := 0;
      var sumDurations := 0;
      var lines: seq<string> := [];
      for i := 0 to |stats|
        invariant numReqs == i
        invariant numErrors == ErrorCount(stats[..i])
        invariant sumDurations == DurationSum(stats[..i])
        invariant lines == StatLines(stats[..i])
      {
        assert stats[..i + 1][..i] == stats[..i];
        numReqs := numReqs + 1;
        if stats[i].isError {
          numErrors := numErrors + 1;
        }
        sumDurations := sumDurations + stats[i].duration;
        lines := lines + [StatLine(stats[i])];
      }
      assert stats[..|stats|] == stats;
      rep := Report(numReqs, numReqs - numErrors, numErrors, sumDurations, HEADER + "\n" + Join(lines, "\n"));
    }
  }

  // ---------------------------------------------------------------------
  // Run: flags, overrides and mode
  // ---------------------------------------------------------------------

  /** The command-line flags. */
  datatype Flags = Flags(config: string, tput: int, duration: string, outfile: string, mode: string)

  datatype Mode = OpenLoop | Pool | NoRun

  function ModeOf(mode: string): (m: Mode)
    ensures m == OpenLoop <==> mode == "openloop"
    ensures m == Pool <==> mode == "pool"
  {
    if mode == "openloop" then OpenLoop else if mode == "pool" then Pool else NoRun
  }

  /** The flags override the file: a non-zero throughput and a non-empty
      duration replace the configured ones; everything else is kept. */
  function Override(c: Config, f: Flags): (c': Config)
    ensures c'.numThreads == c.numThreads && c'.numReqs == c.numReqs
    ensures c'.throughput == (if f.tput != 0 then f.tput else c.throughput)
    ensures c'.duration == (if f.duration != "" then f.duration else c.duration)
  {
    var t := if f.tput != 0 then c.(throughput := f.tput) else c;
    if f.duration != "" then t.(duration := f.duration) else t
  }

  datatype RunError = Usage | ConfigUnreadable | Aborted(abort: Abort)

  /** What a run produced: the effective configuration, the mode, and the
      report. */
  datatype Outcome = Outcome(config: Config, mode: Mode, report: Report)

  /** The workload's entry point. `loaded` is the parsed configuration file
      (None when it cannot be opened, read or decoded), `duration` what
      time.ParseDuration makes of the effective duration, and the Stats
      are those the chosen mode's producers send. An empty config path is
      fatal before anything runs; an unknown mode runs nothing but still
      writes the (empty) report. */
  method Run(flags: Flags, loaded: Option<Config>, duration: Option<int>,
             sentDuringRun: seq<Stat>, finalSends: seq<seq<Stat>>)
    returns (r: Result<Outcome, RunError>)
    ensures flags.config == "" ==> r == Failure(Usage)
    ensures flags.config != "" && loaded.None? ==> r == Failure(ConfigUnreadable)
    ensures r.Success? ==> r.value.config == Override(loaded.value, flags) && r.value.mode == ModeOf(flags.mode)
    ensures r.Success? ==>
      var ran := if r.value.mode == NoRun then [] else sentDuringRun + Flatten(finalSends);
      r.value.report.data == StatsFile(ran) && r.value.report.total == |ran|
    ensures flags.config != "" && loaded.Some? && ModeOf(flags.mode) == NoRun ==> r.Success?
    ensures flags.config != "" && loaded.Some? && ModeOf(flags.mode) == Pool ==>
      var c := Override(loaded.value, flags);
      (r.Success? <==> PoolPlan(c.throughput, c.numThreads, duration).Success?)
    ensures flags.config != "" && loaded.Some? && ModeOf(flags.mode) == OpenLoop ==>
      var c := Override(loaded.value, flags);
      (r.Success? <==> OpenLoopPlan(c.throughput, duration).Success?)
  {
    if flags.config == "" {
      return Failure(Usage);
    }
    if loaded.None? {
      return Failure(ConfigUnreadable);
    }
    var config := Override(loaded.value, flags);
    var engine := new Engine(flags.outfile);
    var mode := ModeOf(flags.mode);
    if mode == OpenLoop {
      var plan := engine.RunOpenLoop(config, duration, sentDuringRun, finalSends);
      if plan.Failure? {
        return Failure(Aborted(plan.error));
      }
      assert engine.stats == sentDuringRun + Flatten(finalSends);
    } else if mode == Pool {
      var plan := engine.RunWithThreadPool(config, duration, sentDuringRun, finalSends);
      if plan.Failure? {
        return Failure(Aborted(plan.error));
      }
      assert engine.stats == sentDuringRun + Flatten(finalSends);
    }
    var rep := engine.PrintStats();
    r := Success(Outcome(config, mode, rep));
  }
}
