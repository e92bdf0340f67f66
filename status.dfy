/** The `status` command: fetch the job's last build (which may still be running) and show its
    status label, number, triggering user and parameters. Time and duration are not modelled. */
module StatusCommand {
  import opened Wrappers
  import opened Remote
  import opened Settings
  import opened Cli
  import opened Actions

  /** The status line: "building" while the build runs, otherwise the raw `result`, which is
      `None` (printed as `None`) when the server reports none. */
  function StatusLabel(info: BuildInfo): (status: Option<string>)
    ensures info.building ==> status == Some("building")
    ensures !info.building ==> status == info.result
  {
    if info.building then Some("building") else info.result
  }

  datatype StatusView = StatusView(job: string, status: Option<string>, number: int, user: string,
                                   parameters: map<string, string>)

  datatype StatusOutcome = StatusOutcome(ending: Ending, events: seq<Event>, view: Option<StatusView>)

  /** status.py:26 indexes `job_info["lastBuild"]["number"]`, which raises for a job that has
      never been built; a configuration that fails validation never gets that far. */
  predicate StatusWellDefined(loaded: Config, job: string, server: Server)
  {
    Validate(loaded) && job in server.jobs ==> server.jobs[job].lastBuild.Some?
  }

  method Status(stored: Option<Config>, job: string, server: Server) returns (out: StatusOutcome)
    requires StatusWellDefined(LoadConfig(stored), job, server)
    ensures !Validate(LoadConfig(stored)) ==> out == StatusOutcome(Stopped(ConfigIncomplete), [], None)
    ensures Validate(LoadConfig(stored)) && job !in server.jobs ==>
      out == StatusOutcome(Stopped(StatusFailed), [Call(GetJobInfo(job))], None)
    ensures Validate(LoadConfig(stored)) && job in server.jobs ==>
      // The build shown is `lastBuild`, not `lastCompletedBuild`.
      var n := server.jobs[job].lastBuild.value;
      && out.events == [Call(GetJobInfo(job)), Call(GetBuildInfo(job, n))]
      && ((job, n) !in server.buildInfo ==> out.ending == Stopped(StatusFailed) && out.view.None?)
      && ((job, n) in server.buildInfo ==>
            var info := server.buildInfo[(job, n)];
            && out.ending == Done
            && out.view == Some(StatusView(job, StatusLabel(info), n, TriggeringUser(info.actions),
                                           ParamMap(AllParams(info.actions)))))
    // Nothing is shown unless every request succeeded, and the command changes nothing.
    ensures out.view.Some? <==> out.ending.Done?
    ensures NoSave(out.events) && NoTrigger(out.events)
    ensures stored.None? ==> out == StatusOutcome(Stopped(ConfigIncomplete), [], None)
  {
    var loaded := LoadConfig(stored);
    if !Validate(loaded) {
      return StatusOutcome(Stopped(ConfigIncomplete), [], None);
    }
    var events := [Call(GetJobInfo(job))];
    if job !in server.jobs {
      return StatusOutcome(Stopped(StatusFailed), events, None);
    }
    var number := server.jobs[job].lastBuild.value;
    events := events + [Call(GetBuildInfo(job, number))];
    if (job, number) !in server.buildInfo {
      return StatusOutcome(Stopped(StatusFailed), events, None);
    }
    var info := server.buildInfo[(job, number)];
    var status := StatusLabel(info);
    var user := FindUser(info.actions);
    var parameters := CollectParameters(info.actions);
    out := StatusOutcome(Done, events, Some(StatusView(job, status, number, user, parameters)));
  }
}
