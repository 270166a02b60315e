/**
 * The Chaos Mesh stress injector (anomaly-injector/chaos_mesh_client.py):
 * it applies and deletes StressChaos experiments with kubectl and keeps a
 * table of the experiments it believes are active. kubectl is outside the
 * model: every command the injector runs is appended to a log, and what
 * the command answered is a parameter of the method that runs it.
 */
module Chaos {
  import opened Common

  const STRESS_CHAOS: string := "StressChaos"

  /** What a stress experiment stresses, with the stressor's settings. */
  datatype Stressor = Cpu(workers: int, load: int) | Memory(workers: int, size: string)

  /** The experiment document applied to the cluster. */
  datatype Experiment = Experiment(name: string, namespace: string, mode: string,
                                   app: string, stressor: Stressor, duration: string)

  /** One event of an experiment's first container record. */
  datatype Event = Event(operation: string, kind: string)

  /** The kubectl commands the injector runs. */
  datatype Command =
    | GetChaosPods
    | DeleteAllStressChaos(namespace: string)
    | Apply(experiment: Experiment)
    | Delete(kind: string, name: string, namespace: string)
    | GetInjectedCount(kind: string, name: string, namespace: string)
    | GetEvents(kind: string, name: string, namespace: string)

  /** The answer to the injected-count query: the command failed, or its
      output, which is an integer or not (int() then raises). */
  datatype CountReply = CountFailed | CountOutput(count: Option<int>)

  /** The answer to the events query: the command failed, or its output,
      which decodes as a list of events or not (json.loads then raises). */
  datatype EventsReply = EventsFailed | EventsOutput(events: Option<seq<Event>>)

  /** A call that returns a value, or raises. */
  datatype Outcome<T> = Returned(value: T) | Raised

  /** The name an experiment gets when none is given. */
  function DefaultName(stressor: Stressor, microservice: string): (name: string)
    ensures stressor.Cpu? ==> StartsWith(name, "burn-cpu-") && name[9..] == microservice
    ensures stressor.Memory? ==> StartsWith(name, "pod-oom-") && name[8..] == microservice
  {
    if stressor.Cpu? then "burn-cpu-" + microservice else "pod-oom-" + microservice
  }

  /** A CPU experiment and a memory experiment never get the same default
      name, and two services never share one. */
  lemma {:induction false} DefaultNamesDistinct(s1: Stressor, m1: string, s2: Stressor, m2: string)
    requires s1.Cpu? != s2.Cpu? || m1 != m2
    ensures DefaultName(s1, m1) != DefaultName(s2, m2)
  {
    var n1 := DefaultName(s1, m1);
    var n2 := DefaultName(s2, m2);
    if s1.Cpu? != s2.Cpu? {
      assert n1[0] != n2[0];
    }
  }

  /** Whether an experiment has been recovered successfully. */
  predicate Recovered(events: seq<Event>)
  {
    exists i :: 0 <= i < |events| && events[i].operation == "Recover" && events[i].kind == "Succeeded"
  }

  /** The scan over the events: true at the first Recover/Succeeded event. */
  method FindRecovered(events: seq<Event>) returns (found: bool)
    ensures found <==> Recovered(events)
  {
    for i := 0 to |events|
      invariant forall k :: 0 <= k < i ==> !(events[k].operation == "Recover" && events[k].kind == "Succeeded")
    {
      if events[i].operation == "Recover" && events[i].kind == "Succeeded" {
        return true;
      }
    }
    return false;
  }

  /** What _check_if_terminated_and_succeeded decides for a tracked
      experiment: a count of 0 means not started; otherwise (or when the
      count query failed) the events decide, and a failed events query
      means no events. Malformed output raises. */
  function TerminationVerdict(count: CountReply, events: EventsReply): (r: Outcome<bool>)
    ensures r == Returned(true) <==>
      !(count.CountOutput? && (count.count.None? || count.count.value == 0)) &&
      events.EventsOutput? && events.events.Some? && Recovered(events.events.value)
    ensures r == Raised <==>
      (count.CountOutput? && count.count.None?) ||
      (!(count.CountOutput? && count.count.Some? && count.count.value == 0) &&
       events.EventsOutput? && events.events.None?)
  {
    if count.CountOutput? && count.count.None? then Raised
    else if count.CountOutput? && count.count.value == 0 then Returned(false)
    else match events
      case EventsFailed => Returned(false)
      case EventsOutput(None) => Raised
      case EventsOutput(Some(evs)) => Returned(Recovered(evs))
  }

  class ChaosMeshStressInjector {
    const namespace: string
    /** experiment name -> experiment kind */
    var activeExperiments: map<string, string>
    /** The kubectl commands run so far, in order. */
    var commands: seq<Command>

    /** Construction with Chaos Mesh installed (otherwise the process
        exits): the namespace's stress experiments are all deleted, and the
        empty table stays empty whatever that command answers. */
    constructor (namespace: string, deleteAllOk: bool)
      ensures this.namespace == namespace && activeExperiments == map[]
      ensures commands == [GetChaosPods, DeleteAllStressChaos(namespace)]
    {
      this.namespace := namespace;
      activeExperiments := map[];
      commands := [GetChaosPods];
      new;
      var _ := RecoverAllExperiments(deleteAllOk);
    }

    /** Delete every stress experiment of the namespace; the table is
        cleared only when the command succeeds. */
    method RecoverAllExperiments(ok: bool) returns (success: bool)
      modifies this`activeExperiments, this`commands
      ensures success == ok
      ensures commands == old(commands) + [DeleteAllStressChaos(namespace)]
      ensures activeExperiments == if ok then map[] else old(activeExperiments)
    {
      commands := commands + [DeleteAllStressChaos(namespace)];
      success := ok;
      if success {
        activeExperiments := map[];
      }
    }

    /** Apply an experiment; it is tracked as a StressChaos only when the
        apply command succeeds. */
    method CreateChaosExperiment(experiment: Experiment, name: string, applyOk: bool) returns (success: bool)
      modifies this`activeExperiments, this`commands
      ensures success == applyOk
      ensures commands == old(commands) + [Apply(experiment)]
      ensures activeExperiments == if applyOk then old(activeExperiments)[name := STRESS_CHAOS] else old(activeExperiments)
    {
      commands := commands + [Apply(experiment)];
      success := applyOk;
      if success {
        activeExperiments := activeExperiments[name := STRESS_CHAOS];
      }
    }

    /** Delete an experiment; it leaves the table only when the delete
        command succeeds. */
    method DeleteChaosExperiment(name: string, kind: string, deleteOk: bool) returns (success: bool)
      modifies this`activeExperiments, this`commands
      ensures success == deleteOk
      ensures commands == old(commands) + [Delete(kind, name, namespace)]
      ensures activeExperiments == if deleteOk then old(activeExperiments) - {name} else old(activeExperiments)
    {
      commands := commands + [Delete(kind, name, namespace)];
      success := deleteOk;
      if success {
        activeExperiments := activeExperiments - {name};
      }
    }

    /** Whether a tracked experiment has terminated and succeeded. An
        untracked name is not, and nothing is asked of the cluster; a
        count of 0 is not, and the events are not asked for. */
    method CheckIfTerminatedAndSucceeded(name: string, count: CountReply, events: EventsReply)
      returns (r: Outcome<bool>)
      modifies this`commands
      ensures name !in activeExperiments ==> r == Returned(false) && commands == old(commands)
      ensures name in activeExperiments ==> r == TerminationVerdict(count, events)
      ensures name in activeExperiments ==>
        var kind := activeExperiments[name];
        var asked := old(commands) + [GetInjectedCount(kind, name, namespace)];
        if count.CountOutput? && (count.count.None? || count.count.value == 0) then commands == asked
        else commands == asked + [GetEvents(kind, name, namespace)]
    {
      if name !in activeExperiments {
        return Returned(false);
      }
      var kind := activeExperiments[name];
      commands := commands + [GetInjectedCount(kind, name, namespace)];
      if count.CountOutput? {
        if count.count.None? {
          return Raised;
        }
        if count.count.value == 0 {
          return Returned(false);
        }
      }
      commands := commands + [GetEvents(kind, name, namespace)];
      if events.EventsFailed? {
        return Returned(false);
      }
      if events.events.None? {
        return Raised;
      }
      var found := FindRecovered(events.events.value);
      r := Returned(found);
    }

    /** inject_cpu_stress and inject_memory_stress. A tracked name is
        checked first: one still in progress (or whose status cannot be
        read) makes the call return False with the table unchanged; one that
        has finished is deleted, whatever the delete answers, before the
        new experiment is applied. */
    method InjectStress(microservice: string, duration: string, stressor: Stressor, mode: string,
                        experimentName: Option<string>, count: CountReply, events: EventsReply,
                        deleteOk: bool, applyOk: bool)
      returns (r: Outcome<bool>)
      modifies this`activeExperiments, this`commands
      ensures var name := if experimentName.Some? then experimentName.value else DefaultName(stressor, microservice);
        var tracked := name in old(activeExperiments);
        var verdict := TerminationVerdict(count, events);
        (tracked && verdict == Raised ==> r == Raised && activeExperiments == old(activeExperiments)) &&
        (tracked && verdict == Returned(false) ==> r == Returned(false) && activeExperiments == old(activeExperiments)) &&
        (!tracked || verdict == Returned(true) ==>
          r == Returned(applyOk) &&
          |commands| > 0 && commands[|commands| - 1] == Apply(Experiment(name, namespace, mode, microservice, stressor, duration)) &&
          activeExperiments ==
            (var afterDelete := if tracked && deleteOk then old(activeExperiments) - {name} else old(activeExperiments);
             if applyOk then afterDelete[name := STRESS_CHAOS] else afterDelete))
    {
      var name := if experimentName.Some? then experimentName.value else DefaultName(stressor, microservice);
      if name in activeExperiments {
        var check := CheckIfTerminatedAndSucceeded(name, count, events);
        if check.Raised? {
          return Raised;
        }
        if check.value {
          var _ := DeleteChaosExperiment(name, activeExperiments[name], deleteOk);
        } else {
          return Returned(false);
        }
      }
      var experiment := Experiment(name, namespace, mode, microservice, stressor, duration);
      var created := CreateChaosExperiment(experiment, name, applyOk);
      r := Returned(created);
    }

    /** recover_cpu_stress and recover_memory_stress: neither a name nor a
        service, or an untracked name, returns False without running a
        command; otherwise the experiment is deleted as a StressChaos. */
    method RecoverStress(stressor: Stressor, experimentName: Option<string>, microservice: Option<string>, deleteOk: bool)
      returns (success: bool)
      modifies this`activeExperiments, this`commands
      ensures experimentName.None? && microservice.None? ==>
        !success && commands == old(commands) && activeExperiments == old(activeExperiments)
      ensures experimentName.Some? || microservice.Some? ==>
        var name := if experimentName.Some? then experimentName.value else DefaultName(stressor, microservice.value);
        (name !in old(activeExperiments) ==>
          !success && commands == old(commands) && activeExperiments == old(activeExperiments)) &&
        (name in old(activeExperiments) ==>
          success == deleteOk &&
          commands == old(commands) + [Delete(STRESS_CHAOS, name, namespace)] &&
          activeExperiments == if deleteOk then old(activeExperiments) - {name} else old(activeExperiments))
    {
      var name: string;
      if experimentName.None? && microservice.Some? {
        name := DefaultName(stressor, microservice.value);
      } else if experimentName.None? {
        return false;
      } else {
        name := experimentName.value;
      }
      if name !in activeExperiments {
        return false;
      }
      success := DeleteChaosExperiment(name, STRESS_CHAOS, deleteOk);
    }

    /** Delete every tracked experiment, in `names` order (the table's own
        order), `deleteOks[k]` answering the k-th delete. True on an empty
        table; otherwise true iff every delete succeeded, and exactly the
        experiments whose delete succeeded leave the table. */
    method CleanupAllExperiments(names: seq<string>, deleteOks: seq<bool>) returns (success: bool)
      requires |names| == |deleteOks|
      requires NoDuplicates(names) && (forall k :: 0 <= k < |names| ==> names[k] in activeExperiments)
      requires forall n :: n in activeExperiments ==> n in names
      requires |names| == |activeExperiments|
      modifies this`activeExperiments, this`commands
      ensures success <==> forall k :: 0 <= k < |deleteOks| ==> deleteOks[k]
      ensures activeExperiments == old(activeExperiments) - Deleted(names, deleteOks)
      ensures commands == old(commands) + DeleteCommands(names, old(activeExperiments), namespace)
    {
      if |activeExperiments| == 0 {
        assert names == [];
        return true;
      }
      var results := DeleteEach(names, deleteOks);
      success := AllTrue(results);
    }

    /** The loop of cleanup_all_experiments: delete each name in turn under
        the kind the table records for it, collecting the answers. */
    method DeleteEach(names: seq<string>, deleteOks: seq<bool>) returns (results: seq<bool>)
      requires |names| == |deleteOks|
      requires NoDuplicates(names) && (forall k :: 0 <= k < |names| ==> names[k] in activeExperiments)
      modifies this`activeExperiments, this`commands
      ensures results == deleteOks
      ensures activeExperiments == old(activeExperiments) - Deleted(names, deleteOks)
      ensures commands == old(commands) + DeleteCommands(names, old(activeExperiments), namespace)
    {
      results := [];
      ghost var before := activeExperiments;
      for k := 0 to |names|
        invariant results == deleteOks[..k]
        invariant activeExperiments == before - Deleted(names[..k], deleteOks[..k])
        invariant commands == old(commands) + DeleteCommands(names[..k], before, namespace)
      {
        DeletedStep(names, deleteOks, k);
        DeletedOnly(names, deleteOks, k);
        ghost var gone := Deleted(names[..k], deleteOks[..k]);
        assert names[k] in activeExperiments;
        var kind := activeExperiments[names[k]];
        assert kind == before[names[k]];
        assert names[..k + 1][..k] == names[..k];
        var result := DeleteChaosExperiment(names[k], kind, deleteOks[k]);
        if result {
          MinusStep(before, gone, names[k]);
        }
        assert deleteOks[..k + 1] == deleteOks[..k] + [deleteOks[k]];
        results := results + [result];
      }
      assert names[..|names|] == names && deleteOks[..|deleteOks|] == deleteOks;
    }

    /** The number of tracked experiments. */
    function ActiveExperimentCount(): (n: nat)
      reads this
      ensures n == |activeExperiments.Keys|
    {
      |activeExperiments|
    }
  }

  predicate NoDuplicates(names: seq<string>)
  {
    forall i, j :: 0 <= i < j < |names| ==> names[i] != names[j]
  }

  /** The delete commands for `names`, in order, each under the kind
      `kinds` records for its name. */
  function DeleteCommands(names: seq<string>, kinds: map<string, string>, namespace: string): (cs: seq<Command>)
    requires forall k :: 0 <= k < |names| ==> names[k] in kinds
    ensures |cs| == |names|
    ensures forall k :: 0 <= k < |names| ==> cs[k] == Delete(kinds[names[k]], names[k], namespace)
  {
    if names == [] then []
    else
      var last := names[|names| - 1];
      DeleteCommands(names[..|names| - 1], kinds, namespace) + [Delete(kinds[last], last, namespace)]
  }

  /** The names whose delete succeeded. */
  function Deleted(names: seq<string>, oks: seq<bool>): (d: set<string>)
    requires |names| == |oks|
    ensures forall n :: n in d <==> exists k :: 0 <= k < |names| && names[k] == n && oks[k]
  {
    set k | 0 <= k < |names| && oks[k] :: names[k]
  }

  lemma {:induction false} DeletedStep(names: seq<string>, oks: seq<bool>, k: nat)
    requires |names| == |oks| && k < |names|
    ensures Deleted(names[..k + 1], oks[..k + 1]) ==
      Deleted(names[..k], oks[..k]) + (if oks[k] then {names[k]} else {})
  {
    var a := Deleted(names[..k + 1], oks[..k + 1]);
    var b := Deleted(names[..k], oks[..k]) + (if oks[k] then {names[k]} else {});
    forall n | n in a
      ensures n in b
    {
      var j :| 0 <= j < k + 1 && names[..k + 1][j] == n && oks[..k + 1][j];
      if j < k {
        assert names[..k][j] == n && oks[..k][j];
      }
    }
    forall n | n in b
      ensures n in a
    {
      if n in Deleted(names[..k], oks[..k]) {
        var j :| 0 <= j < k && names[..k][j] == n && oks[..k][j];
        assert names[..k + 1][j] == n && oks[..k + 1][j];
      } else {
        assert names[..k + 1][k] == n && oks[..k + 1][k];
      }
    }
  }

  /** With no duplicate names, a later name was not among those deleted
      before it. */
  lemma {:induction false} DeletedOnly(names: seq<string>, oks: seq<bool>, k: nat)
    requires |names| == |oks| && k < |names| && NoDuplicates(names)
    ensures names[k] !in Deleted(names[..k], oks[..k])
  {
  }

  lemma {:induction false} MinusStep(m: map<string, string>, gone: set<string>, n: string)
    ensures (m - gone) - {n} == m - (gone + {n})
  {
  }

  /** Python's all(). */
  function AllTrue(bs: seq<bool>): (r: bool)
    ensures r <==> forall k :: 0 <= k < |bs| ==> bs[k]
  {
    if |bs| == 0 then true else bs[0] && AllTrue(bs[1..])
  }
}
