/** The `build` command: choose the job, layer the parameter sources, ask for confirmation,
    trigger the build and remember what was used. There is no queue polling and no console
    streaming: the command returns once `build_job` has been accepted. */
module BuildCommand {
  import opened Wrappers
  import opened Remote
  import opened Settings
  import opened Cli
  import opened BuildParams

  /** How the command ended, what it did outside, and the parameters it asked to confirm. */
  datatype BuildOutcome = BuildOutcome(ending: Ending, events: seq<Event>, proposed: Option<map<string, string>>)

  /** The stored `build_number`: one past the last completed build, or 1 when there is none.
      This predicts the number of the triggered build; it is not read back from the server. */
  function PredictedNumber(info: JobInfo): (n: int)
    ensures info.lastCompletedBuild.Some? ==> n == info.lastCompletedBuild.value + 1
    ensures info.lastCompletedBuild.None? ==> n == 1
  {
    (if info.lastCompletedBuild.Some? then info.lastCompletedBuild.value else 0) + 1
  }

  /** `config["template"]["builds"][job] = {...}`, creating `builds` when the key is missing. */
  function Remember(c: Config, j: string, number: int, p: map<string, string>): (r: Config)
    ensures r.url == c.url && r.username == c.username && r.token == c.token
    ensures r.template.job == c.template.job
    ensures r.template.builds.Some? && j in r.template.builds.value
    ensures r.template.builds.value[j] == JobMemory(number, p)
    ensures forall k :: k != j ==>
      (k in r.template.builds.value <==> c.template.builds.Some? && k in c.template.builds.value)
    ensures forall k :: k != j && k in r.template.builds.value ==>
      r.template.builds.value[k] == c.template.builds.value[k]
  {
    var builds := if c.template.builds.Some? then c.template.builds.value else map[];
    c.(template := c.template.(builds := Some(builds[j := JobMemory(number, p)])))
  }

  /** What the command needs of its inputs so that build.py:94 and :99 do not raise. */
  predicate BuildWellDefined(loaded: Config, job: Option<string>, load: Option<int>, server: Server)
  {
    var choice := ChooseJob(loaded.template, job);
    Validate(loaded) && choice.job.Some? ==> LoadWellDefined(server, choice.job.value, load)
  }

  /** Lines 83-111: grow the parameter dictionary source by source, in precedence order, starting
      from the corrected lookup `MemoryParams` rather than the `KeyError`-raising one of line 86. */
  method GatherParameters(t: Template, name: string, server: Server, load: Option<int>,
                          file: Option<Document>, param: Option<string>)
    returns (events: seq<Event>, gathered: Result<map<string, string>, Failure>)
    requires LoadWellDefined(server, name, load)
    ensures var res := ResolveParameters(t, name, server, load, file, param);
            events == Calls(res.requests) && gathered == res.outcome
  {
    events := [];
    var parameters: map<string, string> := map[];
    parameters := parameters + MemoryParams(t, name);
    assert parameters == MemoryParams(t, name);
    ghost var fromBuild := LoadFromBuild(server, name, load);

    if load.Some? {
      var number: int;
      if load.value == 0 {
        events := events + [Call(GetJobInfo(name))];
        if name !in server.jobs {
          return events, Err(LoadFailed(load.value));
        }
        number := server.jobs[name].lastCompletedBuild.value;
      } else {
        number := load.value;
      }
      events := events + [Call(GetBuildInfo(name, number))];
      if (name, number) !in server.buildInfo {
        return events, Err(LoadFailed(load.value));
      }
      parameters := parameters + FirstActionParams(server.buildInfo[(name, number)].actions);
    }

    assert events == Calls(fromBuild.requests) && fromBuild.outcome.Ok?;
    assert parameters == MemoryParams(t, name) + fromBuild.outcome.value;
    ghost var beforeFile := parameters;

    if file.Some? {
      var fromFile := LoadParamsFromFile(file.value);
      if fromFile.Err? {
        return events, fromFile;
      }
      parameters := parameters + fromFile.value;
    }

    assert FileParams(file).Ok? && parameters == beforeFile + FileParams(file).value;
    ghost var beforeInline := parameters;

    if Present(param) {
      var inline := ParseParam(param);
      if inline.Err? {
        return events, inline;
      }
      parameters := parameters + inline.value;
    }

    assert ParseParam(param).Ok? && parameters == beforeInline + ParseParam(param).value;
    gathered := Ok(parameters);
  }

  /** Lines 113-136: confirm, then read the last completed build, trigger, and remember. */
  method Trigger(config: Config, j: string, p: map<string, string>, confirm: bool, server: Server)
    returns (ending: Ending, events: seq<Event>)
    ensures ending.Done? ==> |events| > 0 && events[|events| - 1].Save? && NoSave(events[..|events| - 1])
    ensures !ending.Done? ==> NoSave(events)
    ensures !confirm ==> ending == Stopped(Cancelled) && events == []
    ensures confirm && j !in server.jobs ==>
      ending == Stopped(TriggerFailed) && events == [Call(GetJobInfo(j))]
    ensures confirm && j in server.jobs && j !in server.accepting ==>
      ending == Stopped(TriggerFailed) && events == [Call(GetJobInfo(j)), Call(BuildJob(j, p))]
    ensures confirm && j in server.jobs && j in server.accepting ==>
      && ending == Done
      && events == [Call(GetJobInfo(j)), Call(BuildJob(j, p)),
                    Save(Remember(config, j, PredictedNumber(server.jobs[j]), p))]
  {
    if !confirm {
      return Stopped(Cancelled), [];
    }
    events := [Call(GetJobInfo(j))];
    if j !in server.jobs {
      return Stopped(TriggerFailed), events;
    }
    var lastCompleted := server.jobs[j].lastCompletedBuild;
    var lastNumber := if lastCompleted.Some? then lastCompleted.value else 0;
    events := events + [Call(BuildJob(j, p))];
    if j !in server.accepting {
      return Stopped(TriggerFailed), events;
    }
    var builds := if config.template.builds.Some? then config.template.builds.value else map[];
    var saved := config.(template := config.template.(builds := Some(builds[j := JobMemory(lastNumber + 1, p)])));
    events := events + [Save(saved)];
    ending := Done;
  }

  /** What the `build` command does, case by case, on the loaded configuration, the command-line
      options (the parameter file as its parsed document), the operator's answer to the
      confirmation and the server. */
  ghost predicate BuildBehaviour(loaded: Config, job: Option<string>, param: Option<string>,
                                 file: Option<Document>, load: Option<int>, confirm: bool,
                                 server: Server, out: BuildOutcome)
    requires BuildWellDefined(loaded, job, load, server)
  {
    // Incomplete credentials or no job: stop before any parameter source or request.
    && (!Validate(loaded) ==> out == BuildOutcome(Stopped(ConfigIncomplete), [], None))
    && (Validate(loaded) && ChooseJob(loaded.template, job).job.None? ==>
          out == BuildOutcome(Stopped(NoJob), [], None))
    && (Validate(loaded) && ChooseJob(loaded.template, job).job.Some? ==>
          var choice := ChooseJob(loaded.template, job);
          var j := choice.job.value;
          var res := ResolveParameters(loaded.template, j, server, load, file, param);
          // A failing parameter source aborts after the `--load` requests, with nothing confirmed.
          && (res.outcome.Err? ==> out == BuildOutcome(Stopped(res.outcome.error), Calls(res.requests), None))
          // Declining stops before any further request.
          && (res.outcome.Ok? && !confirm ==>
                out == BuildOutcome(Stopped(Cancelled), Calls(res.requests), Some(res.outcome.value)))
          && (res.outcome.Ok? && confirm && j !in server.jobs ==>
                out == BuildOutcome(Stopped(TriggerFailed), Calls(res.requests) + [Call(GetJobInfo(j))],
                                    Some(res.outcome.value)))
          && (res.outcome.Ok? && confirm && j in server.jobs ==>
                var p := res.outcome.value;
                var calls := Calls(res.requests) + [Call(GetJobInfo(j)), Call(BuildJob(j, p))];
                && (j !in server.accepting ==> out == BuildOutcome(Stopped(TriggerFailed), calls, Some(p)))
                // Only an accepted trigger saves, once, with this job's memory replaced.
                && (j in server.accepting ==>
                      out == BuildOutcome(Done, calls + [Save(Remember(loaded.(template := choice.template), j,
                                                                       PredictedNumber(server.jobs[j]), p))],
                                          Some(p)))))
  }

  /** The `build` command, on the stored document or, without a file, the default one. The
      remembered parameters are read by `MemoryParams`, so a document without a `builds` key
      proceeds where build.py:86 would raise `KeyError`. */
  method Build(stored: Option<Config>, job: Option<string>, param: Option<string>, file: Option<Document>,
               load: Option<int>, confirm: bool, server: Server)
    returns (out: BuildOutcome)
    requires BuildWellDefined(LoadConfig(stored), job, load, server)
    ensures BuildBehaviour(LoadConfig(stored), job, param, file, load, confirm, server, out)
    // Without a configuration file the command stops at validation, having done nothing.
    ensures stored.None? ==> out == BuildOutcome(Stopped(ConfigIncomplete), [], None)
  {
    var loaded := LoadConfig(stored);
    if !Validate(loaded) {
      return BuildOutcome(Stopped(ConfigIncomplete), [], None);
    }
    var config := loaded;
    var name: string;
    if Present(job) {
      config := config.(template := config.template.(job := job));
      name := job.value;
    } else {
      var remembered := config.template.job;
      if !Present(remembered) {
        return BuildOutcome(Stopped(NoJob), [], None);
      }
      name := remembered.value;
    }

    var events, gathered := GatherParameters(loaded.template, name, server, load, file, param);
    if gathered.Err? {
      return BuildOutcome(Stopped(gathered.error), events, None);
    }
    var parameters := gathered.value;

    var ending, triggered := Trigger(config, name, parameters, confirm, server);
    out := BuildOutcome(ending, events + triggered, Some(parameters));
  }

  /** The save discipline of `build`: the configuration is written exactly when the command
      succeeds, once, as its last act; declining triggers nothing and writes nothing. */
  lemma BuildSaves(loaded: Config, job: Option<string>, param: Option<string>, file: Option<Document>,
                   load: Option<int>, confirm: bool, server: Server, out: BuildOutcome)
    requires BuildWellDefined(loaded, job, load, server)
    requires BuildBehaviour(loaded, job, param, file, load, confirm, server, out)
    ensures out.ending.Done? <==> !NoSave(out.events)
    ensures out.ending.Done? ==>
      |out.events| > 0 && out.events[|out.events| - 1].Save? && NoSave(out.events[..|out.events| - 1])
    ensures !confirm ==> NoTrigger(out.events) && NoSave(out.events)
  {
    if Validate(loaded) && ChooseJob(loaded.template, job).job.Some? {
      var j := ChooseJob(loaded.template, job).job.value;
      var res := ResolveParameters(loaded.template, j, server, load, file, param);
      var calls := Calls(res.requests);
      assert NoTrigger(calls);
      if res.outcome.Ok? && confirm && j in server.jobs {
        var p := res.outcome.value;
        var tail := [Call(GetJobInfo(j)), Call(BuildJob(j, p))];
        NoSaveAppend(calls, tail);
        if j in server.accepting {
          assert out.events[..|out.events| - 1] == calls + tail;
          assert out.events[|out.events| - 1].Save?;
        }
      } else if res.outcome.Ok? && confirm {
        NoSaveAppend(calls, [Call(GetJobInfo(j))]);
      }
    }
  }
}
