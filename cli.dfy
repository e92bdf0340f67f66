/** How a command ends, its exit status, and the trace of what it did to the outside world. */
module Cli {
  import opened Remote
  import opened Settings

  /** The reasons a command stops early, each with the message it prints. */
  datatype Failure =
    | ConfigIncomplete                // "Please configure Jenkins URL, username, and token ..."
    | NoJob                           // "No job specified and no previous job found in template."
    | Cancelled                       // "Build cancelled."
    | InvalidParameter(token: string) // "Invalid parameter format: <token>. Should be key=value"
    | InvalidParameterFile            // "Invalid format in the config file. It should be a dictionary."
    | LoadFailed(build: int)          // "Failed to load parameters from build number <build>: ..."
    | TriggerFailed                   // "Build trigger failed: ..."
    | StatusFailed                    // "Failed to get status: ..."
    | ListingFailed                   // "Failed to fetch builds: ..."
    | OutputFailed                    // "Failed to fetch console output: ..."

  datatype Ending = Done | Stopped(reason: Failure)

  /** The process exit status: `typer.Exit()` is status 0, `typer.Exit(code=1)` status 1. */
  function ExitCode(e: Ending): (code: int)
    ensures code == 0 || code == 1
    ensures code == 0 <==> e.Done? || e.reason in {ConfigIncomplete, NoJob, Cancelled}
  {
    match e
    case Done => 0
    case Stopped(ConfigIncomplete) => 0
    case Stopped(NoJob) => 0
    case Stopped(Cancelled) => 0
    case Stopped(_) => 1
  }

  /** What a command does outside itself: a call into the client, or a save of the configuration. */
  datatype Event = Call(request: Request) | Save(config: Config)

  /** The requests, as events, in the same order. */
  function Calls(rs: seq<Request>): (es: seq<Event>)
    ensures |es| == |rs|
    ensures forall i :: 0 <= i < |rs| ==> es[i] == Call(rs[i])
    ensures NoSave(es)
  {
    seq(|rs|, i requires 0 <= i < |rs| => Call(rs[i]))
  }

  /** The trace contains no save. */
  predicate NoSave(es: seq<Event>)
  {
    forall i :: 0 <= i < |es| ==> !es[i].Save?
  }

  /** The trace triggers no build. */
  predicate NoTrigger(es: seq<Event>)
  {
    forall i :: 0 <= i < |es| ==> !(es[i].Call? && es[i].request.BuildJob?)
  }

  lemma NoSaveAppend(a: seq<Event>, b: seq<Event>)
    ensures NoSave(a + b) <==> NoSave(a) && NoSave(b)
  {
    forall i | 0 <= i < |a| ensures (a + b)[i] == a[i] { }
    forall i | 0 <= i < |b| ensures (a + b)[|a| + i] == b[i] { }
  }
}
