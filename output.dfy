/** The `output` command: choose the job (saving it as the default at once), choose the build,
    fetch its console text and optionally keep only its last lines. */
module OutputCommand {
  import opened Wrappers
  import opened Text
  import opened Remote
  import opened Settings
  import opened Cli

  function Min(a: int, b: int): int
  {
    if a < b then a else b
  }

  /** Python's `lines[start:]`: a negative start counts from the end; both are clamped to the list. */
  function SliceFrom(lines: seq<string>, start: int): (r: seq<string>)
    ensures 0 <= start ==> r == lines[Min(start, |lines|)..]
    ensures start < 0 ==> r == lines[|lines| - Min(-start, |lines|)..]
  {
    var s := if start < 0 then start + |lines| else start;
    var c := if s < 0 then 0 else if s > |lines| then |lines| else s;
    lines[c..]
  }

  /** `"\n".join(output.splitlines()[-max_lines:])` when `max_lines` is non-zero, and the text
      unchanged otherwise. */
  function Tail(output: string, maxLines: Option<int>): (r: string)
    ensures !Nonzero(maxLines) ==> r == output
  {
    if Nonzero(maxLines) then Join(SliceFrom(SplitLines(output), -maxLines.value), '\n')
    else output
  }

  /** For a positive limit the text shown consists of the last `min(n, L)` lines of the output,
      in order, and of nothing else. */
  lemma TailKeepsLastLines(output: string, n: int)
    requires n > 0
    ensures var lines := SplitLines(output);
            var kept := lines[|lines| - Min(n, |lines|)..];
            && Tail(output, Some(n)) == Join(kept, '\n')
            && |kept| == Min(n, |lines|)
            && (|kept| > 0 ==> Split(Tail(output, Some(n)), '\n') == kept)
  {
    var lines := SplitLines(output);
    var start := |lines| - Min(n, |lines|);
    var kept := lines[start..];
    assert SliceFrom(lines, -n) == kept;
    assert Tail(output, Some(n)) == Join(kept, '\n');
    if |kept| > 0 {
      forall i | 0 <= i < |kept| ensures '\n' !in kept[i] {
        assert kept[i] == lines[start + i];
      }
      SplitJoin(kept, '\n');
    }
  }

  /** A limit at least the number of lines shows the whole output, less one final newline. */
  lemma TailOfEverything(output: string, n: int)
    requires n >= |SplitLines(output)| && n > 0
    ensures output == Tail(output, Some(n))
                      + (if output != [] && output[|output| - 1] == '\n' then "\n" else "")
  {
    SplitLinesJoin(output);
    assert SplitLines(output)[0..] == SplitLines(output);
  }

  /** A negative limit is not refused: it drops the first `|n|` lines instead. */
  lemma TailNegativeDropsFirst(output: string, n: int)
    requires n < 0
    ensures var lines := SplitLines(output);
            Tail(output, Some(n)) == Join(lines[Min(-n, |lines|)..], '\n')
  {
  }

  datatype OutputOutcome = OutputOutcome(ending: Ending, events: seq<Event>, shown: Option<string>)

  /** output.py:49 reads `lastCompletedBuild["number"]`, which raises for a job without a
      completed build. */
  predicate OutputWellDefined(loaded: Config, job: Option<string>, buildNumber: Option<int>, server: Server)
  {
    var choice := ChooseJob(loaded.template, job);
    (Validate(loaded) && choice.job.Some? && !Nonzero(buildNumber) && choice.job.value in server.jobs) ==>
      server.jobs[choice.job.value].lastCompletedBuild.Some?
  }

  method Output(stored: Option<Config>, job: Option<string>, buildNumber: Option<int>, maxLines: Option<int>,
                server: Server)
    returns (out: OutputOutcome)
    requires OutputWellDefined(LoadConfig(stored), job, buildNumber, server)
    ensures !Validate(LoadConfig(stored)) ==> out == OutputOutcome(Stopped(ConfigIncomplete), [], None)
    ensures Validate(LoadConfig(stored)) && ChooseJob(LoadConfig(stored).template, job).job.None? ==>
      out == OutputOutcome(Stopped(NoJob), [], None)
    ensures Validate(LoadConfig(stored)) && ChooseJob(LoadConfig(stored).template, job).job.Some? ==>
      var choice := ChooseJob(LoadConfig(stored).template, job);
      var j := choice.job.value;
      // The chosen job is saved first, before any request, whatever happens next.
      var saved := Save(LoadConfig(stored).(template := choice.template));
      // An explicit non-zero build number is used as given; otherwise the last completed build.
      var lookups := if Nonzero(buildNumber) then [] else [Call(GetJobInfo(j))];
      var target := if Nonzero(buildNumber) then Some(buildNumber.value)
                    else if j in server.jobs then server.jobs[j].lastCompletedBuild else None;
      && (target.None? ==> out == OutputOutcome(Stopped(OutputFailed), [saved] + lookups, None))
      && (target.Some? ==>
            var n := target.value;
            && out.events == [saved] + lookups + [Call(GetConsoleOutput(j, n))]
            && ((j, n) in server.consoles ==>
                  out.ending == Done && out.shown == Some(Tail(server.consoles[(j, n)], maxLines)))
            && ((j, n) !in server.consoles ==> out.ending == Stopped(OutputFailed) && out.shown.None?))
    ensures out.shown.Some? <==> out.ending.Done?
    ensures stored.None? ==> out == OutputOutcome(Stopped(ConfigIncomplete), [], None)
  {
    var loaded := LoadConfig(stored);
    if !Validate(loaded) {
      return OutputOutcome(Stopped(ConfigIncomplete), [], None);
    }
    var config := loaded;
    var name: string;
    if Present(job) {
      config := config.(template := config.template.(job := job));
      name := job.value;
    } else {
      var remembered := config.template.job;
      if !Present(remembered) {
        return OutputOutcome(Stopped(NoJob), [], None);
      }
      name := remembered.value;
    }
    var events := [Save(config)];

    var number: int;
    if Nonzero(buildNumber) {
      number := buildNumber.value;
    } else {
      events := events + [Call(GetJobInfo(name))];
      if name !in server.jobs {
        return OutputOutcome(Stopped(OutputFailed), events, None);
      }
      number := server.jobs[name].lastCompletedBuild.value;
    }
    events := events + [Call(GetConsoleOutput(name, number))];
    if (name, number) !in server.consoles {
      return OutputOutcome(Stopped(OutputFailed), events, None);
    }
    out := OutputOutcome(Done, events, Some(Tail(server.consoles[(name, number)], maxLines)));
  }
}
