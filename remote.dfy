/** What the Jenkins server answers, taken as input data. The `python-jenkins` client is not
    modelled: each of its calls becomes a lookup in one of the maps below, and a key that is
    absent stands for the call raising `JenkinsException`. */
module Remote {
  import opened Wrappers

  /** One `{"name": ..., "value": ...}` entry of a parameters action. */
  datatype Param = Param(name: string, value: string)

  /** One entry of an action's `causes` list; `userName` is present for user-started builds. */
  datatype Cause = Cause(userName: Option<string>)

  /** The heterogeneous dictionaries of a build's `actions` list, by the keys the commands probe.
      An `Other` action may still carry a `parameters` list under some other `_class`; an absent
      key is the empty list, which `.get("parameters", {})` treats alike. */
  datatype Action =
    | Empty                                       // `{}`, which is falsy
    | CauseAction(causes: seq<Cause>)             // a dictionary with a `causes` key
    | ParametersAction(parameters: seq<Param>)    // `_class == "hudson.model.ParametersAction"`
    | Other(parameters: seq<Param>)               // any other non-empty action

  /** The fields of `get_build_info` the commands read. `result` is `None` while running. */
  datatype BuildInfo = BuildInfo(building: bool, result: Option<string>, actions: seq<Action>)

  /** The fields of `get_job_info` the commands read: the numbers of `lastBuild` and
      `lastCompletedBuild` (each may be null) and the numbers of the `builds` list, newest first. */
  datatype JobInfo = JobInfo(lastBuild: Option<int>, lastCompletedBuild: Option<int>, builds: seq<int>)

  /** The server's answers. A missing key means the call for it fails. */
  datatype Server = Server(
    jobs: map<string, JobInfo>,                 // get_job_info(job)
    buildInfo: map<(string, int), BuildInfo>,   // get_build_info(job, number)
    consoles: map<(string, int), string>,       // get_build_console_output(job, number)
    accepting: set<string>)                     // jobs for which build_job(job, parameters) succeeds

  /** A call into the client, in the order the command makes it. */
  datatype Request =
    | GetJobInfo(job: string)
    | GetBuildInfo(job: string, number: int)
    | BuildJob(job: string, parameters: map<string, string>)
    | GetConsoleOutput(job: string, number: int)

  /** `{p["name"]: p["value"] for p in ps}`: a later entry with the same name overwrites an earlier one. */
  function ParamMap(ps: seq<Param>): map<string, string>
  {
    if ps == [] then map[]
    else ParamMap(ps[..|ps| - 1])[ps[|ps| - 1].name := ps[|ps| - 1].value]
  }

  /** The names defined by the map are exactly the names of the entries. */
  lemma {:induction false} ParamMapKeys(ps: seq<Param>, k: string)
    ensures k in ParamMap(ps) <==> exists i :: 0 <= i < |ps| && ps[i].name == k
  {
    if ps != [] {
      var init := ps[..|ps| - 1];
      ParamMapKeys(init, k);
      if k in ParamMap(init) {
        var i :| 0 <= i < |init| && init[i].name == k;
        assert ps[i].name == k;
      }
      if exists i :: 0 <= i < |ps| && ps[i].name == k {
        var i :| 0 <= i < |ps| && ps[i].name == k;
        if i < |init| {
          assert init[i].name == k;
        }
      }
    }
  }

  /** The value of a name is the value of its last entry. */
  lemma {:induction false} ParamMapLastWins(ps: seq<Param>, i: int)
    requires 0 <= i < |ps|
    requires forall j :: i < j < |ps| ==> ps[j].name != ps[i].name
    ensures ps[i].name in ParamMap(ps) && ParamMap(ps)[ps[i].name] == ps[i].value
  {
    if i < |ps| - 1 {
      var init := ps[..|ps| - 1];
      ParamMapLastWins(init, i);
    }
  }
}
