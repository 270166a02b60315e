/**
 * The workflow-driven web-users load generator (web_users/main.go). Each
 * user thread repeatedly runs a randomly chosen workflow, one HTTP request
 * per step, and reports one Stat per request through a channel; at the end
 * the Stats are counted and written as CSV. The network, the clock and the
 * random choices are inputs: for each user, the steps it got to before the
 * duration ran out, with what each step met (whether its URL parsed, its
 * start time and duration, and the client's reply).
 */
module WebUsers {
  import opened Common
  import Registry
  import Sockshop
  import Channels
  import WorkloadGen

  datatype Api = Api(name: string, funcName: string, kind: string)

  datatype Workflow = Workflow(name: string, steps: seq<Api>)

  datatype Config = Config(numThreads: int, baseUrl: string, duration: string,
                           workflows: seq<Workflow>, throughput: int, isOriginal: bool)

  // ---------------------------------------------------------------------
  // User state
  // ---------------------------------------------------------------------

  datatype UserState = UserState(
    userId: string, sessionId: string, username: string, password: string, cartId: string,
    addressIds: seq<string>, cardIds: seq<string>, cartItems: seq<string>, orderIds: seq<string>,
    isLoggedIn: bool, lastItems: seq<string>, metadata: map<string, string>)

  /** The five identifiers a new user draws, in the order they are drawn. */
  predicate UserDraws(ids: seq<seq<int>>)
  {
    |ids| == 5 && forall k :: 0 <= k < 5 ==> Sockshop.IdDraws(ids[k])
  }

  function UserPrefix(threadId: int): string
  {
    "user_" + IntToString(threadId) + "_"
  }

  /** A new user: fresh identifiers, a user name "user_<thread>_" and a
      password "pass_", each followed by the first 8 characters of a fresh
      identifier, logged out, with nothing collected yet. */
  function NewUserState(threadId: int, ids: seq<seq<int>>): (u: UserState)
    requires UserDraws(ids)
    ensures Sockshop.IsObjectId(u.userId) && Sockshop.IsObjectId(u.sessionId) && Sockshop.IsObjectId(u.cartId)
    ensures StartsWith(u.username, UserPrefix(threadId)) && |u.username| == |UserPrefix(threadId)| + 8
    ensures forall i :: |UserPrefix(threadId)| <= i < |u.username| ==> u.username[i] in Sockshop.OBJECT_ID_CHARS
    ensures StartsWith(u.password, "pass_") && |u.password| == 13
    ensures forall i :: 5 <= i < 13 ==> u.password[i] in Sockshop.OBJECT_ID_CHARS
    ensures !u.isLoggedIn && u.metadata == map[]
    ensures u.addressIds == [] && u.cardIds == [] && u.cartItems == [] && u.orderIds == [] && u.lastItems == []
  {
    var name := Sockshop.ObjectIdOf(ids[2]);
    var pass := Sockshop.ObjectIdOf(ids[3]);
    UserState(Sockshop.ObjectIdOf(ids[0]), Sockshop.ObjectIdOf(ids[1]),
              UserPrefix(threadId) + name[..8], "pass_" + pass[..8], Sockshop.ObjectIdOf(ids[4]),
              [], [], [], [], false, [], map[])
  }

  // ---------------------------------------------------------------------
  // One step
  // ---------------------------------------------------------------------

  /** What the HTTP client returned: an error, or a response with a status. */
  datatype Reply = ClientFailed | Response(status: int)

  datatype RequestInfo = RequestInfo(url: string, kind: string, fn: Registry.Generator)

  datatype Stat = Stat(start: int, duration: int, isError: bool, request: RequestInfo)

  /** What one executed step met. */
  datatype Step = Step(api: Api, urlParses: bool, start: int, elapsed: int, reply: Reply)

  function TargetUrl(baseUrl: string, api: Api): string
  {
    baseUrl + "/" + api.name
  }

  /** A request failed when the client returned an error or the status is
      not 2xx. */
  predicate Failed(reply: Reply)
  {
    reply.ClientFailed? || !(200 <= reply.status < 300)
  }

  /** Whether a step is skipped without a Stat: its generator is not
      registered, or it is not a POST and its URL does not parse. */
  predicate Skipped(registry: map<string, Registry.Generator>, step: Step)
  {
    step.api.funcName !in registry || (step.api.kind != "POST" && !step.urlParses)
  }

  /** The Stat a step reports, if any. */
  function StepStat(registry: map<string, Registry.Generator>, baseUrl: string, step: Step): (r: Option<Stat>)
    ensures r.None? <==> Skipped(registry, step)
    ensures r.Some? ==> r.value.start == step.start && r.value.duration == step.elapsed
    ensures r.Some? ==> r.value.request.url == TargetUrl(baseUrl, step.api) && r.value.request.kind == step.api.kind
    ensures r.Some? ==> (r.value.isError <==> Failed(step.reply))
  {
    match Registry.GetGeneratorFunction(registry, step.api.funcName)
    case None => None
    case Some(fn) =>
      if step.api.kind != "POST" && !step.urlParses then None
      else Some(Stat(step.start, step.elapsed, Failed(step.reply), RequestInfo(TargetUrl(baseUrl, step.api), step.api.kind, fn)))
  }

  /** One step of a user thread: look the generator up, skip the step when
      there is none or a GET's URL does not parse, otherwise time the
      request, mark the Stat as an error on a client error or a non-2xx
      status, and send it. */
  method RunStep(ch: Channels.Channel<Stat>, registry: map<string, Registry.Generator>, baseUrl: string, step: Step)
    requires ch.Valid() && !ch.closed
    modifies ch`sent
    ensures ch.Valid()
    ensures ch.sent == old(ch.sent) + (if Skipped(registry, step) then [] else [StepStat(registry, baseUrl, step).value])
  {
    var targetUrl := baseUrl + "/" + step.api.name;
    var fn := Registry.GetGeneratorFunction(registry, step.api.funcName);
    if fn.None? {
      return;
    }
    if step.api.kind != "POST" && !step.urlParses {
      return;
    }
    var stat := Stat(step.start, step.elapsed, false, RequestInfo(targetUrl, step.api.kind, fn.value));
    if step.reply.ClientFailed? {
      stat := stat.(isError := true);
    } else if !(200 <= step.reply.status < 300) {
      stat := stat.(isError := true);
    }
    ch.Send(stat);
  }

  /** The Stats a user's steps report, in order. */
  function StatsOf(registry: map<string, Registry.Generator>, baseUrl: string, steps: seq<Step>): (stats: seq<Stat>)
    ensures |stats| <= |steps|
  {
    if |steps| == 0 then []
    else
      var last := steps[|steps| - 1];
      StatsOf(registry, baseUrl, steps[..|steps| - 1]) +
      (if Skipped(registry, last) then [] else [StepStat(registry, baseUrl, last).value])
  }

  /** Exactly the steps that are not skipped report, each its own Stat:
      every Stat comes from some step, and every step that is not skipped
      has its Stat among them. */
  lemma {:induction false} StatsOfSteps(registry: map<string, Registry.Generator>, baseUrl: string, steps: seq<Step>)
    ensures forall s :: s in StatsOf(registry, baseUrl, steps) ==>
      exists k :: 0 <= k < |steps| && StepStat(registry, baseUrl, steps[k]) == Some(s)
    ensures forall k :: 0 <= k < |steps| && !Skipped(registry, steps[k]) ==>
      StepStat(registry, baseUrl, steps[k]).value in StatsOf(registry, baseUrl, steps)
  {
    if |steps| > 0 {
      var n := |steps| - 1;
      var init := steps[..n];
      StatsOfSteps(registry, baseUrl, init);
      forall s | s in StatsOf(registry, baseUrl, steps)
        ensures exists k :: 0 <= k < |steps| && StepStat(registry, baseUrl, steps[k]) == Some(s)
      {
        if s in StatsOf(registry, baseUrl, init) {
          var k :| 0 <= k < |init| && StepStat(registry, baseUrl, init[k]) == Some(s);
          assert steps[k] == init[k];
        } else {
          assert StepStat(registry, baseUrl, steps[n]) == Some(s);
        }
      }
      forall k | 0 <= k < |steps| && !Skipped(registry, steps[k])
        ensures StepStat(registry, baseUrl, steps[k]).value in StatsOf(registry, baseUrl, steps)
      {
        if k < n {
          assert steps[k] == init[k];
        }
      }
    }
  }

  /** A user thread: its steps, one after another. */
  method RunUser(ch: Channels.Channel<Stat>, registry: map<string, Registry.Generator>, baseUrl: string, steps: seq<Step>)
    requires ch.Valid() && !ch.closed
    modifies ch`sent
    ensures ch.Valid() && ch.sent == old(ch.sent) + StatsOf(registry, baseUrl, steps)
  {
    for i := 0 to |steps|
      invariant ch.Valid() && !ch.closed
      invariant ch.sent == old(ch.sent) + StatsOf(registry, baseUrl, steps[..i])
    {
      assert steps[..i + 1][..i] == steps[..i];
      RunStep(ch, registry, baseUrl, steps[i]);
    }
    assert steps[..|steps|] == steps;
  }

  /** What each user reports, user by user. */
  function UserStats(registry: map<string, Registry.Generator>, baseUrl: string, userSteps: seq<seq<Step>>): (sends: seq<seq<Stat>>)
    ensures |sends| == |userSteps|
  {
    seq(|userSteps|, k requires 0 <= k < |userSteps| => StatsOf(registry, baseUrl, userSteps[k]))
  }

  /** Every step a user runs belongs to a configured workflow. */
  predicate FromWorkflows(steps: seq<Step>, workflows: seq<Workflow>)
  {
    forall k :: 0 <= k < |steps| ==> exists w :: w in workflows && steps[k].api in w.steps
  }

  // ---------------------------------------------------------------------
  // Report
  // ---------------------------------------------------------------------

  const HEADER: string := "Name,Start,Duration,IsError"

  function ErrorCount(stats: seq<Stat>): (n: nat)
    ensures n <= |stats|
  {
    if |stats| == 0 then 0
    else ErrorCount(stats[..|stats| - 1]) + (if stats[|stats| - 1].isError then 1 else 0)
  }

  function DurationSum(stats: seq<Stat>): int
  {
    if |stats| == 0 then 0 else DurationSum(stats[..|stats| - 1]) + stats[|stats| - 1].duration
  }

  /** The timing part of a Stat, as the pool workload records it. */
  function Timing(s: Stat): WorkloadGen.Stat
  {
    WorkloadGen.Stat(s.start, s.duration, s.isError)
  }

  /** "url,start,duration,true|false": the URL, then the same three fields
      the pool workload writes; the request type is not written. */
  function StatLine(s: Stat): string
  {
    s.request.url + [','] + WorkloadGen.StatLine(Timing(s))
  }

  function StatLines(stats: seq<Stat>): (lines: seq<string>)
    ensures |lines| == |stats|
  {
    seq(|stats|, i requires 0 <= i < |stats| => StatLine(stats[i]))
  }

  function StatsFile(stats: seq<Stat>): string
  {
    HEADER + "\n" + Join(StatLines(stats), "\n")
  }

  datatype Report = Report(total: nat, successful: int, errors: nat, sumDurations: int, data: string)

  /** A data line read back: the URL and the three values. */
  datatype Row = Row(url: string, start: int, duration: int, isError: bool)

  function ParseStatLine(line: string): Option<Row>
  {
    var f := Split(line, ',');
    if |f| != 4 then None
    else match (ParseInt(f[1]), ParseInt(f[2]), ParseBool(f[3]))
      case (Some(a), Some(d), Some(e)) => Some(Row(f[0], a, d, e))
      case _ => None
  }

  /** A URL that the CSV line can carry unchanged. */
  predicate PlainUrl(url: string)
  {
    ',' !in url && '\n' !in url
  }

  /** A line reads back as its Stat's URL and values, provided the URL
      holds no comma or newline (the writer does not quote). */
  lemma {:induction false} StatLineRoundTrip(s: Stat)
    requires PlainUrl(s.request.url)
    ensures ParseStatLine(StatLine(s)) == Some(Row(s.request.url, s.start, s.duration, s.isError))
    ensures '\n' !in StatLine(s)
  {
    var tail := WorkloadGen.StatLine(Timing(s));
    WorkloadGen.StatLineRoundTrip(Timing(s));
    SplitAfterPiece(s.request.url, ',', tail);
    IntRoundTrip(s.start);
    IntRoundTrip(s.duration);
    BoolRoundTrip(s.isError);
  }

  /** The file is the header, then exactly one line per Stat (a single empty
      line when there are none); each reads back as its Stat. */
  lemma {:induction false} StatsFileRoundTrip(stats: seq<Stat>)
    requires forall i :: 0 <= i < |stats| ==> PlainUrl(stats[i].request.url)
    ensures var lines := Split(StatsFile(stats), '\n');
      lines[0] == HEADER &&
      lines[1..] == (if |stats| == 0 then [""] else StatLines(stats))
    ensures forall i :: 0 <= i < |stats| ==>
      ParseStatLine(StatLines(stats)[i]) ==
        Some(Row(stats[i].request.url, stats[i].start, stats[i].duration, stats[i].isError))
  {
    var body := Join(StatLines(stats), "\n");
    assert StatsFile(stats) == HEADER + ['\n'] + body;
    SplitAfterPiece(HEADER, '\n', body);
    forall i | 0 <= i < |stats|
      ensures ParseStatLine(StatLines(stats)[i]) ==
                Some(Row(stats[i].request.url, stats[i].start, stats[i].duration, stats[i].isError))
      ensures '\n' !in StatLines(stats)[i]
    {
      StatLineRoundTrip(stats[i]);
    }
    if |stats| > 0 {
      SplitJoin(StatLines(stats), '\n');
    }
  }

  // ---------------------------------------------------------------------
  // The engine
  // ---------------------------------------------------------------------

  datatype Fatal = NoWorkflows | BadDuration | NegativeThreads | Usage | ConfigUnreadable

  class Engine {
    const config: Config
    const registry: map<string, Registry.Generator>
    const outFile: string
    var stats: seq<Stat>

    constructor (config: Config, outFile: string)
      ensures this.config == config && this.outFile == outFile
      ensures registry == Registry.NewWorkloadRegistry() && stats == []
    {
      this.config := config;
      this.outFile := outFile;
      registry := Registry.NewWorkloadRegistry();
      stats := [];
    }

    /** Run every user. No workflows is fatal, then an unparsable duration
        (`duration` is what time.ParseDuration made of it), then a negative
        thread count (the wait group panics). Otherwise user k runs
        `userSteps[k]`, and the collector receives everything they send;
        users are taken one after another. */
    method Run(duration: Option<int>, userSteps: seq<seq<Step>>) returns (r: Result<(), Fatal>)
      requires config.numThreads >= 0 ==> |userSteps| == config.numThreads
      requires forall k :: 0 <= k < |userSteps| ==> FromWorkflows(userSteps[k], config.workflows)
      modifies this`stats
      ensures |config.workflows| == 0 ==> r == Failure(NoWorkflows)
      ensures |config.workflows| > 0 && duration.None? ==> r == Failure(BadDuration)
      ensures |config.workflows| > 0 && duration.Some? && config.numThreads < 0 ==> r == Failure(NegativeThreads)
      ensures r.Failure? ==> stats == old(stats)
      ensures r.Success? <==> |config.workflows| > 0 && duration.Some? && config.numThreads >= 0
      ensures r.Success? ==> stats == old(stats) + Flatten(UserStats(registry, config.baseUrl, userSteps))
    {
      if |config.workflows| == 0 {
        return Failure(NoWorkflows);
      }
      if duration.None? {
        return Failure(BadDuration);
      }
      if config.numThreads < 0 {
        return Failure(NegativeThreads);
      }
      var sends := UserStats(registry, config.baseUrl, userSteps);
      var ch := new Channels.Channel<Stat>();
      var k := 0;
      while k < |userSteps|
        invariant 0 <= k <= |userSteps|
        invariant ch.Valid() && !ch.closed && ch.taken == 0
        invariant ch.sent == Flatten(sends[..k])
        invariant stats == old(stats)
      {
        RunUser(ch, registry, config.baseUrl, userSteps[k]);
        assert sends[..k + 1][..k] == sends[..k];
        k := k + 1;
      }
      assert sends[..k] == sends;
      var got := Channels.Shutdown(ch, []);
      assert got == Flatten(sends);
      stats := stats + got;
      r := Success(());
    }

    /** Count the Stats and render the CSV file. */
    method PrintStats() returns (rep: Report)
      ensures rep.total == |stats| && rep.errors == ErrorCount(stats)
      ensures rep.successful == |stats| - ErrorCount(stats) && rep.successful >= 0
      ensures rep.sumDurations == DurationSum(stats)
      ensures rep.data == StatsFile(stats)
    {
      var numErrors := 0;
      var numReqs := 0;
      var sumDurations := 0;
      var lines: seq<string> := [];
      for i := 0 to |stats|
        invariant numReqs == i
        invariant numErrors == ErrorCount(stats[..i])
        invariant sumDurations == DurationSum(stats[..i])
        invariant lines == StatLines(stats[..i])
      {
        assert stats[..i + 1][..i] == stats[..i];
        numReqs := numReqs + 1;
        if stats[i].isError {
          numErrors := numErrors + 1;
        }
        sumDurations := sumDurations + stats[i].duration;
        lines := lines + [StatLine(stats[i])];
      }
      assert stats[..|stats|] == stats;
      rep := Report(numReqs, numReqs - numErrors, numErrors, sumDurations, HEADER + "\n" + Join(lines, "\n"));
    }
  }

  /** The program: an empty config path is a usage error and an unreadable
      or undecodable file is fatal (`loaded` is the decoded file, if any);
      then the engine runs and its report is written. */
  method RunProgram(configPath: string, outFile: string, loaded: Option<Config>,
                    duration: Option<int>, userSteps: seq<seq<Step>>)
    returns (r: Result<Report, Fatal>)
    requires loaded.Some? && loaded.value.numThreads >= 0 ==> |userSteps| == loaded.value.numThreads
    requires loaded.Some? ==> forall k :: 0 <= k < |userSteps| ==> FromWorkflows(userSteps[k], loaded.value.workflows)
    ensures configPath == "" ==> r == Failure(Usage)
    ensures configPath != "" && loaded.None? ==> r == Failure(ConfigUnreadable)
    ensures configPath != "" && loaded.Some? ==>
      (r.Success? <==> |loaded.value.workflows| > 0 && duration.Some? && loaded.value.numThreads >= 0)
    ensures configPath != "" && loaded.Some? && |loaded.value.workflows| == 0 ==> r == Failure(NoWorkflows)
    ensures configPath != "" && loaded.Some? && |loaded.value.workflows| > 0 && duration.None?
      ==> r == Failure(BadDuration)
    ensures configPath != "" && loaded.Some? && |loaded.value.workflows| > 0 && duration.Some? && loaded.value.numThreads < 0
      ==> r == Failure(NegativeThreads)
    ensures r.Success? ==>
      var stats := Flatten(UserStats(Registry.NewWorkloadRegistry(), loaded.value.baseUrl, userSteps));
      r.value.data == StatsFile(stats) && r.value.total == |stats| && r.value.errors == ErrorCount(stats)
  {
    if configPath == "" {
      return Failure(Usage);
    }
    if loaded.None? {
      return Failure(ConfigUnreadable);
    }
    var engine := new Engine(loaded.value, outFile);
    var ran := engine.Run(duration, userSteps);
    if ran.Failure? {
      return Failure(ran.error);
    }
    assert engine.stats == Flatten(UserStats(Registry.NewWorkloadRegistry(), loaded.value.baseUrl, userSteps));
    var rep := engine.PrintStats();
    r := Success(rep);
  }
}
