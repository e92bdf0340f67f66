/** The `builds` command: a table of the job's latest ten builds, in the server's order, with
    each build's raw result and triggering user. Start times are not modelled. */
module BuildsCommand {
  import opened Wrappers
  import opened Remote
  import opened Settings
  import opened Cli
  import opened Actions

  /** How many builds the table lists at most. */
  const Limit := 10

  /** `job_info["builds"][:10]`: the first entries of the server's list, in its order. */
  function Latest(builds: seq<int>): (r: seq<int>)
    ensures |r| == if |builds| < Limit then |builds| else Limit
    ensures r == builds[..|r|]
  {
    if |builds| < Limit then builds else builds[..Limit]
  }

  /** One table row: number, raw `result` (no "building" substitution) and triggering user. */
  datatype Row = Row(number: int, status: Option<string>, user: string)

  function RowOf(n: int, info: BuildInfo): Row
  {
    Row(n, info.result, TriggeringUser(info.actions))
  }

  /** One `get_build_info` request per listed build, in the listed order. */
  function Fetches(job: string, ns: seq<int>): (rs: seq<Request>)
    ensures |rs| == |ns|
    ensures forall i :: 0 <= i < |ns| ==> rs[i] == GetBuildInfo(job, ns[i])
  {
    seq(|ns|, i requires 0 <= i < |ns| => GetBuildInfo(job, ns[i]))
  }

  datatype BuildsOutcome = BuildsOutcome(ending: Ending, events: seq<Event>, table: Option<seq<Row>>)

  method ListBuilds(stored: Option<Config>, job: string, server: Server) returns (out: BuildsOutcome)
    ensures !Validate(LoadConfig(stored)) ==> out == BuildsOutcome(Stopped(ConfigIncomplete), [], None)
    ensures Validate(LoadConfig(stored)) && job !in server.jobs ==>
      out == BuildsOutcome(Stopped(ListingFailed), [Call(GetJobInfo(job))], None)
    ensures Validate(LoadConfig(stored)) && job in server.jobs ==>
      var listed := Latest(server.jobs[job].builds);
      // All or nothing: a table is printed exactly when every listed build could be fetched.
      && (out.table.Some? <==> forall i :: 0 <= i < |listed| ==> (job, listed[i]) in server.buildInfo)
      && (out.table.Some? ==>
            && out.ending == Done
            && out.events == Calls([GetJobInfo(job)] + Fetches(job, listed))
            && |out.table.value| == |listed|
            && forall i :: 0 <= i < |listed| ==>
                 out.table.value[i] == RowOf(listed[i], server.buildInfo[(job, listed[i])]))
      // The first build that cannot be fetched ends the listing; no later build is requested.
      && (out.table.None? ==>
            && out.ending == Stopped(ListingFailed)
            && exists k :: 0 <= k < |listed| && (job, listed[k]) !in server.buildInfo
                           && (forall i :: 0 <= i < k ==> (job, listed[i]) in server.buildInfo)
                           && out.events == Calls([GetJobInfo(job)] + Fetches(job, listed[..k + 1])))
    ensures stored.None? ==> out == BuildsOutcome(Stopped(ConfigIncomplete), [], None)
  {
    var loaded := LoadConfig(stored);
    if !Validate(loaded) {
      return BuildsOutcome(Stopped(ConfigIncomplete), [], None);
    }
    var requests := [GetJobInfo(job)];
    if job !in server.jobs {
      return BuildsOutcome(Stopped(ListingFailed), Calls(requests), None);
    }
    var listed := Latest(server.jobs[job].builds);
    var rows: seq<Row> := [];
    var i := 0;
    while i < |listed|
      invariant 0 <= i <= |listed|
      invariant requests == [GetJobInfo(job)] + Fetches(job, listed[..i])
      invariant |rows| == i
      invariant forall k :: 0 <= k < i ==> (job, listed[k]) in server.buildInfo
      invariant forall k :: 0 <= k < i ==> rows[k] == RowOf(listed[k], server.buildInfo[(job, listed[k])])
    {
      var number := listed[i];
      assert Fetches(job, listed[..i + 1]) == Fetches(job, listed[..i]) + [GetBuildInfo(job, number)];
      requests := requests + [GetBuildInfo(job, number)];
      if (job, number) !in server.buildInfo {
        return BuildsOutcome(Stopped(ListingFailed), Calls(requests), None);
      }
      var info := server.buildInfo[(job, number)];
      var user := FindUser(info.actions);
      rows := rows + [Row(number, info.result, user)];
      i := i + 1;
    }
    assert listed[..i] == listed;
    out := BuildsOutcome(Done, Calls(requests), Some(rows));
  }
}
