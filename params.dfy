/** The parameter sources of the `build` command and the order in which they are layered:
    the job's remembered parameters, then those of an earlier build, then a parameter file,
    then the inline `key=value` token. */
module BuildParams {
  import opened Wrappers
  import opened Text
  import opened Remote
  import opened Settings
  import opened Cli
  import ConfigCommand
  import Actions

  /** `parse_param`: no token, or the empty one, gives no parameters; otherwise the token must
      split on `=` into exactly two pieces, the key and the value. */
  function ParseParam(param: Option<string>): (r: Result<map<string, string>, Failure>)
    ensures !Present(param) ==> r == Ok(map[])
    ensures Present(param) ==> (r.Ok? <==> Count(param.value, '=') == 1)
    ensures Present(param) && r.Err? ==> r.error == InvalidParameter(param.value)
    ensures Present(param) && r.Ok? ==> |r.value| == 1
  {
    if !Present(param) then Ok(map[])
    else
      var parts := Split(param.value, '=');
      if |parts| == 2 then Ok(map[parts[0] := parts[1]])
      else Err(InvalidParameter(param.value))
  }

  /** A key and a value without `=`, either of them possibly empty, parse back to themselves. */
  lemma ParseParamSingle(key: string, value: string)
    requires '=' !in key && '=' !in value
    ensures ParseParam(Some(key + "=" + value)) == Ok(map[key := value])
  {
    var parts := [key, value];
    assert Join(parts, '=') == key + "=" + value by {
      assert parts[1..] == [value];
    }
    SplitJoin(parts, '=');
  }

  /** Every accepted token is some `key=value` with no further `=` on either side. */
  lemma ParseParamAccepted(token: string)
    requires Count(token, '=') == 1
    ensures exists key, value :: '=' !in key && '=' !in value && token == key + "=" + value
                                 && ParseParam(Some(token)) == Ok(map[key := value])
  {
    var parts := Split(token, '=');
    JoinSplit(token, '=');
    assert parts[1..] == [parts[1]];
    assert token == parts[0] + "=" + parts[1];
  }

  /** The result of `yaml.safe_load` on the parameter file, by the shape of the document. */
  datatype Document =
    | Mapping(entries: map<string, string>)
    | Sequence(items: seq<string>)
    | Scalar(text: string)
    | Null

  /** `load_params_from_file` on the parsed document: only a mapping is accepted, unchanged. */
  function LoadParamsFromFile(doc: Document): (r: Result<map<string, string>, Failure>)
    ensures r.Ok? <==> doc.Mapping?
    ensures r.Ok? ==> r.value == doc.entries
    ensures r.Err? ==> r.error == InvalidParameterFile
  {
    match doc
    case Mapping(entries) => Ok(entries)
    case _ => Err(InvalidParameterFile)
  }

  /** The parameters the file option contributes: none without `--file`. */
  function FileParams(file: Option<Document>): (r: Result<map<string, string>, Failure>)
    ensures file.None? ==> r == Ok(map[])
    ensures file.Some? ==> r == LoadParamsFromFile(file.value)
  {
    if file.None? then Ok(map[]) else LoadParamsFromFile(file.value)
  }

  /** The remembered parameters as build.py reads them: `config["template"]["builds"].get(job)`.
      `None` stands for the `KeyError` raised when the document has no `builds` key. */
  function MemoryParamsAsWritten(t: Template, j: string): (r: Option<map<string, string>>)
    ensures r.None? <==> t.builds.None?
    ensures r.Some? && j in t.builds.value ==> r.value == t.builds.value[j].parameters
    ensures r.Some? && j !in t.builds.value ==> r.value == map[]
  {
    if t.builds.None? then None
    else if j in t.builds.value then Some(t.builds.value[j].parameters)
    else Some(map[])
  }

  /** A configuration written by the `config` command from the default one passes validation and
      names a default job, yet has no `builds` key, so `build` stops on the lookup above. */
  lemma FreshConfigBreaksBuild()
    ensures var c := ConfigCommand.Overwrite(DefaultConfig(), Some("admin"), Some("https://ci.example"),
                                             Some("secret"), Some("sv/protocol_tests"));
            && Validate(c)
            && ChooseJob(c.template, None).job == Some("sv/protocol_tests")
            && MemoryParamsAsWritten(c.template, "sv/protocol_tests").None?
  {
  }

  /** The remembered parameters with a missing `builds` key read as no memory, the way
      build.py:130-131 treats that key when it writes. */
  function MemoryParams(t: Template, j: string): (r: map<string, string>)
    ensures t.builds.Some? && j in t.builds.value ==> r == t.builds.value[j].parameters
    ensures t.builds.None? || j !in t.builds.value ==> r == map[]
    ensures MemoryParamsAsWritten(t, j).Some? ==> r == MemoryParamsAsWritten(t, j).value
  {
    if t.builds.Some? && j in t.builds.value then t.builds.value[j].parameters else map[]
  }

  /** `build_info.get("actions", [{}])[0].get("parameters", {})` made into a dictionary: only the
      first action is consulted, and its `parameters` list is read whatever its `_class`. */
  function FirstActionParams(actions: seq<Action>): (r: map<string, string>)
    requires |actions| > 0
    ensures actions[0].ParametersAction? || actions[0].Other? ==> r == ParamMap(actions[0].parameters)
    ensures actions[0].Empty? || actions[0].CauseAction? ==> r == map[]
  {
    match actions[0]
    case ParametersAction(ps) => ParamMap(ps)
    case Other(ps) => ParamMap(ps)
    case _ => map[]
  }

  /** Two action lists that agree on their first action give the same loaded parameters. */
  lemma FirstActionOnly(a: seq<Action>, b: seq<Action>)
    requires |a| > 0 && |b| > 0 && a[0] == b[0]
    ensures FirstActionParams(a) == FirstActionParams(b)
  {
  }

  /** `--load` reads a first action's pairs whatever its `_class`, while `status` collects
      pairs only from `hudson.model.ParametersAction` entries, so it shows none of them. */
  lemma LoadIgnoresClass(ps: seq<Param>, rest: seq<Action>)
    ensures FirstActionParams([Other(ps)] + rest) == ParamMap(ps)
    ensures Actions.AllParams([Other(ps)]) == [] && ParamMap(Actions.AllParams([Other(ps)])) == map[]
  {
    assert ([Other(ps)] + rest)[0] == Other(ps);
    assert [Other(ps)][..0] == [];
  }

  /** The build information of `(j, n)`, if fetched, has an action list to index. */
  predicate HasActions(s: Server, j: string, n: int)
  {
    (j, n) in s.buildInfo ==> |s.buildInfo[(j, n)].actions| > 0
  }

  /** What `--load` needs of the server for build.py:94 and :99 not to raise: for `0`, a job
      without a completed build has no `lastCompletedBuild` number; a build without actions
      cannot be indexed. */
  predicate LoadWellDefined(s: Server, j: string, load: Option<int>)
  {
    match load
    case None => true
    case Some(l) =>
      if l == 0 then
        j in s.jobs ==> s.jobs[j].lastCompletedBuild.Some? && HasActions(s, j, s.jobs[j].lastCompletedBuild.value)
      else HasActions(s, j, l)
  }

  /** The build `--load l` reads: `0` is the last completed build, any other number itself;
      `None` when fetching the job fails. */
  function LoadTarget(s: Server, j: string, l: int): (r: Option<int>)
    requires l == 0 && j in s.jobs ==> s.jobs[j].lastCompletedBuild.Some?
    ensures l != 0 ==> r == Some(l)
    ensures l == 0 && j in s.jobs ==> r == s.jobs[j].lastCompletedBuild
    ensures l == 0 && j !in s.jobs ==> r.None?
  {
    if l != 0 then Some(l)
    else if j in s.jobs then s.jobs[j].lastCompletedBuild
    else None
  }

  /** The parameters of one source, or the failure that aborts the command, with the requests made. */
  datatype Resolution = Resolution(outcome: Result<map<string, string>, Failure>, requests: seq<Request>)

  /** `--load`: the parameters of `actions[0]` of the chosen build. Any failing request aborts
      with a message naming the requested number. */
  function LoadFromBuild(s: Server, j: string, load: Option<int>): (r: Resolution)
    requires LoadWellDefined(s, j, load)
    ensures forall i :: 0 <= i < |r.requests| ==> !r.requests[i].BuildJob?
    ensures load.None? ==> r == Resolution(Ok(map[]), [])
    ensures load.Some? && LoadTarget(s, j, load.value).None? ==>
      r == Resolution(Err(LoadFailed(load.value)), [GetJobInfo(j)])
    ensures load.Some? && LoadTarget(s, j, load.value).Some? ==>
      var n := LoadTarget(s, j, load.value).value;
      && r.requests == (if load.value == 0 then [GetJobInfo(j)] else []) + [GetBuildInfo(j, n)]
      && ((j, n) in s.buildInfo ==> r.outcome == Ok(FirstActionParams(s.buildInfo[(j, n)].actions)))
      && ((j, n) !in s.buildInfo ==> r.outcome == Err(LoadFailed(load.value)))
  {
    match load
    case None => Resolution(Ok(map[]), [])
    case Some(l) =>
      var target := LoadTarget(s, j, l);
      if target.None? then Resolution(Err(LoadFailed(l)), [GetJobInfo(j)])
      else
        var n := target.value;
        var requests := (if l == 0 then [GetJobInfo(j)] else []) + [GetBuildInfo(j, n)];
        if (j, n) in s.buildInfo then Resolution(Ok(FirstActionParams(s.buildInfo[(j, n)].actions)), requests)
        else Resolution(Err(LoadFailed(l)), requests)
  }

  /** Layering of parameter sources: each later source overrides the earlier ones key by key. */
  function Override(sources: seq<map<string, string>>): map<string, string>
  {
    if sources == [] then map[]
    else Override(sources[..|sources| - 1]) + sources[|sources| - 1]
  }

  /** A key is defined by the layering exactly when some source defines it. */
  lemma {:induction false} OverrideKeys(sources: seq<map<string, string>>, k: string)
    ensures k in Override(sources) <==> exists i :: 0 <= i < |sources| && k in sources[i]
  {
    if sources != [] {
      var init := sources[..|sources| - 1];
      OverrideKeys(init, k);
      if exists i :: 0 <= i < |sources| && k in sources[i] {
        var i :| 0 <= i < |sources| && k in sources[i];
        if i < |init| {
          assert k in init[i];
        }
      }
      if k in Override(init) {
        var i :| 0 <= i < |init| && k in init[i];
        assert k in sources[i];
      }
    }
  }

  /** The value of a key is the one of the highest source that defines it. */
  lemma {:induction false} OverrideHighestWins(sources: seq<map<string, string>>, i: int, k: string)
    requires 0 <= i < |sources| && k in sources[i]
    requires forall j :: i < j < |sources| ==> k !in sources[j]
    ensures k in Override(sources) && Override(sources)[k] == sources[i][k]
  {
    if i < |sources| - 1 {
      OverrideHighestWins(sources[..|sources| - 1], i, k);
    }
  }

  lemma OverrideFour(a: map<string, string>, b: map<string, string>,
                     c: map<string, string>, d: map<string, string>)
    ensures Override([a, b, c, d]) == a + b + c + d
  {
    assert [a][..0] == [];
    assert Override([a]) == a by {
      assert map[] + a == a;
    }
    assert [a, b][..1] == [a];
    assert Override([a, b]) == a + b;
    assert [a, b, c][..2] == [a, b];
    assert Override([a, b, c]) == a + b + c;
    assert [a, b, c, d][..3] == [a, b, c];
  }

  /** The layering of the build parameters: the remembered ones (read by the corrected lookup
      `MemoryParams`), then `--load`, then `--file`, then `--param`; the first source that fails
      aborts, and only `--load` makes requests. */
  function ResolveParameters(t: Template, j: string, s: Server, load: Option<int>,
                             file: Option<Document>, param: Option<string>): (r: Resolution)
    requires LoadWellDefined(s, j, load)
    ensures r.requests == LoadFromBuild(s, j, load).requests
    ensures LoadFromBuild(s, j, load).outcome.Err? ==> r.outcome == LoadFromBuild(s, j, load).outcome
    ensures LoadFromBuild(s, j, load).outcome.Ok? && FileParams(file).Err? ==>
      r.outcome == Err(InvalidParameterFile)
    ensures LoadFromBuild(s, j, load).outcome.Ok? && FileParams(file).Ok? && ParseParam(param).Err? ==>
      r.outcome == Err(InvalidParameter(param.value))
    ensures r.outcome.Ok? <==>
      LoadFromBuild(s, j, load).outcome.Ok? && FileParams(file).Ok? && ParseParam(param).Ok?
    ensures r.outcome.Ok? ==>
      r.outcome.value == Override([MemoryParams(t, j), LoadFromBuild(s, j, load).outcome.value,
                                   FileParams(file).value, ParseParam(param).value])
  {
    var loaded := LoadFromBuild(s, j, load);
    var fromFile := FileParams(file);
    var inline := ParseParam(param);
    if loaded.outcome.Err? then loaded
    else if fromFile.Err? then Resolution(fromFile, loaded.requests)
    else if inline.Err? then Resolution(inline, loaded.requests)
    else
      OverrideFour(MemoryParams(t, j), loaded.outcome.value, fromFile.value, inline.value);
      Resolution(Ok(MemoryParams(t, j) + loaded.outcome.value + fromFile.value + inline.value),
                 loaded.requests)
  }

  /** An inline `key=value` decides that key, whatever the other sources hold. */
  lemma InlineWins(t: Template, j: string, s: Server, load: Option<int>, file: Option<Document>,
                   key: string, value: string)
    requires LoadWellDefined(s, j, load)
    requires '=' !in key && '=' !in value
    requires ResolveParameters(t, j, s, load, file, Some(key + "=" + value)).outcome.Ok?
    ensures var p := ResolveParameters(t, j, s, load, file, Some(key + "=" + value)).outcome.value;
            key in p && p[key] == value
  {
    ParseParamSingle(key, value);
    var sources := [MemoryParams(t, j), LoadFromBuild(s, j, load).outcome.value,
                    FileParams(file).value, map[key := value]];
    OverrideHighestWins(sources, 3, key);
  }

  /** A remembered parameter that no other source defines survives the layering. */
  lemma MemorySurvives(t: Template, j: string, s: Server, load: Option<int>, file: Option<Document>,
                       param: Option<string>, k: string)
    requires LoadWellDefined(s, j, load)
    requires ResolveParameters(t, j, s, load, file, param).outcome.Ok?
    requires k in MemoryParams(t, j)
    requires k !in LoadFromBuild(s, j, load).outcome.value
    requires k !in FileParams(file).value && k !in ParseParam(param).value
    ensures var p := ResolveParameters(t, j, s, load, file, param).outcome.value;
            k in p && p[k] == MemoryParams(t, j)[k]
  {
    var sources := [MemoryParams(t, j), LoadFromBuild(s, j, load).outcome.value,
                    FileParams(file).value, ParseParam(param).value];
    OverrideHighestWins(sources, 0, k);
  }

  /** Without `--load`, a parameter file that is not a mapping is refused before any request. */
  lemma BadFileMakesNoRequest(t: Template, j: string, s: Server, file: Document, param: Option<string>)
    requires !file.Mapping?
    ensures ResolveParameters(t, j, s, None, Some(file), param) == Resolution(Err(InvalidParameterFile), [])
  {
  }
}
