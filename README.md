# jenkins-terminal, modelled in Dafny

jenkins-terminal is a command-line front end to a Jenkins server. It has five commands:

- `config` stores the URL, the user name, the API token and a default job in a YAML file.
- `build` triggers a job with parameters layered from four sources:
  - what the job last used;
  - an earlier build (`--load`);
  - a YAML file (`--file`);
  - one inline `key=value` token (`--param`).

  It then asks for confirmation and remembers what it used.
- `status` shows the last build of a job.
- `builds` lists a job's ten latest builds.
- `output` prints a build's console text, optionally only its last lines.

The model keeps each command's decisions: which requests it makes, in which order, when it stops, with which failure and exit status, what it shows, and what it saves.

Every command is a method that takes three kinds of input:

- the stored configuration document, or none when there is no file; the command starts from `Settings.LoadConfig` of it;
- the command-line arguments;
- a `Remote.Server`.

The method returns an outcome with an event trace (`Cli.Event`). The trace lists calls into the Jenkins client and saves of the configuration file, in order.

The server is a set of finite maps. A request whose key is absent is a request the client reports as failed (a `JenkinsException`).

The operator's input is also passed in:

- the text typed at each prompt (`ConfigCommand.Replies`), before rich's prompt strips it (`ConfigCommand.Ask`);
- the answer to the confirmation (`confirm`);
- the parsed parameter file (`BuildParams.Document`).

Modules:

| module | contents |
|---|---|
| `Wrappers` | `Option`, `Result`, and Python truthiness (`Present`, `Nonzero`). |
| `Text` | Python's `str.split`, `"sep".join`, `splitlines` (restricted to `\n`) and `str.strip`. |
| `Remote` | The server, its responses, and the requests. |
| `Settings` | The configuration record, `validate_config`, `load_config`, and job defaulting. |
| `Cli` | Failures, exit status, and the event trace. |
| `ConfigCommand` | The `config` command. |
| `BuildParams` | The `build` command's parameter sources and their layering. |
| `BuildCommand` | The `build` command. |
| `Actions` | The triggering user and the build parameters, read from a build's `actions`. status.py and builds.py share these. |
| `StatusCommand` | The `status` command. |
| `BuildsCommand` | The `builds` command. |
| `OutputCommand` | The `output` command. |

Behaviour of the code worth knowing:

- An incomplete configuration, a missing job and a declined confirmation all end with exit status 0. The code raises `typer.Exit()` without a code in those cases (config.py:33, build.py:81, build.py:115, output.py:39).
- `build` does not poll the queue and does not stream the console. It returns once `build_job` has been accepted (build.py:126).
- The stored `build_number` is `lastCompletedBuild + 1`, read before the trigger (build.py:120-132). The model also calls this a prediction (`BuildCommand.PredictedNumber`); it is never read back from the server.
- With `--load`, the parameter file and the inline token are checked only after the `--load` requests have been made (build.py:90-111).
- `status` reports `lastBuild`, which may still be running, not `lastCompletedBuild` (status.py:26).
- Its status line prints the raw `result` when the build is not running, including `None`.
- `builds` shows the raw `result` with no "building" substitution (builds.py:40).
- `build` takes a single `--param` token (build.py:62).

## Model

| member | source | states |
|---|---|---|
| `Text.Split` | jenkins_terminal/build.py:26 | `s.split(sep)` yields one more piece than `s` has separators, and no piece contains the separator. |
| `Text.JoinSplit` | jenkins_terminal/build.py:26 | Joining the pieces of `s.split(sep)` with `sep` gives back `s`, for every string. |
| `Text.SplitJoin` | jenkins_terminal/build.py:26 | Splitting the join of separator-free pieces gives back exactly those pieces. |
| `Text.SplitLines` | jenkins_terminal/output.py:53 | `splitlines()` yields lines that contain no newline, and no lines exactly when the text is empty. |
| `Text.SplitLinesEdges` | jenkins_terminal/output.py:53 | `"".splitlines()` is `[]` and `"\n".splitlines()` is `[""]`. |
| `Text.SplitLinesJoin` | jenkins_terminal/output.py:53 | Joining `splitlines()` with newlines gives back the text, less at most one final newline. |
| `Text.LeadingSpace` | jenkins_terminal/config.py:53-56 | The count of leading white-space characters: all of them are white space, and the next character, if any, is not. |
| `Text.TextEnd` | jenkins_terminal/config.py:53-56 | The end of `s` less its trailing white space: everything after it is white space, and the character before it, if any, is not. |
| `Text.Strip` | jenkins_terminal/config.py:53-56 | `str.strip()`: one contiguous piece of the reply, after its leading white space, with only white space after it. A non-empty result starts and ends with a non-space character. The result is empty exactly when the reply is all white space. `Text.IsSpace` is Python's `str.isspace`. |
| `Text.StripTrimmed` | jenkins_terminal/config.py:53-56 | A reply without white space at either end is kept as typed. |
| `Remote.ParamMapKeys` | jenkins_terminal/build.py:100 | A name is a key of `Remote.ParamMap`, the `{p["name"]: p["value"]}` dictionary, exactly when some pair carries it. |
| `Remote.ParamMapLastWins` | jenkins_terminal/status.py:50-51 | In `Remote.ParamMap` a name takes the value of its last pair in the list, as the overwriting loop does. |
| `Settings.ValidateRejects` | jenkins_terminal/config.py:30-33 | `Settings.Validate` rejects the configuration exactly when the URL, the user name or the token is empty. |
| `Settings.DefaultConfig` | jenkins_terminal/config.py:21 | The configuration used when no file exists fails validation, has the empty default job and has no `builds` key. |
| `Settings.LoadConfig` | jenkins_terminal/config.py:17-21 | The stored document when one exists, otherwise the default one, which fails validation. Every command starts from it, and each command's contract states that without a file `build`, `status`, `builds` and `output` stop with `ConfigIncomplete` having made no request. |
| `Settings.ChooseJob` | jenkins_terminal/build.py:73-81 | A job is chosen exactly when the argument or the template's job is non-empty, and a chosen job is never empty. An explicit job wins and becomes the template's job; otherwise the template is unchanged. The remembered builds are untouched. output.py:31-39 is the same. |
| `Settings.DefaultHasNoJob` | jenkins_terminal/config.py:21 | Without a configuration file and without a job argument, no job can be chosen. |
| `Cli.ExitCode` | jenkins_terminal/build.py:79-81 | Exit status 0 exactly on success, incomplete configuration, missing job or declined confirmation; status 1 for every other failure. |
| `ConfigCommand.Ask` | jenkins_terminal/config.py:53-56 | rich's `Prompt.ask`: a reply of no characters yields the offered default, and any other reply is returned stripped of surrounding white space. The job prompt's default is `ConfigCommand.JobDefault`, the template's job or `""` (config.py:56). |
| `ConfigCommand.BlankReplyIgnored` | jenkins_terminal/config.py:53-66 | A reply of white space only yields `""`, not the default, and the guarded assignment then leaves that field unchanged. |
| `ConfigCommand.BlankTokenLeavesConfigIncomplete` | jenkins_terminal/config.py:50-71 | From no file, a blank reply at the token prompt leaves the token empty, so the saved configuration still fails `validate_config`. |
| `ConfigCommand.Overwrite` | jenkins_terminal/config.py:58-69 | Each of the four fields takes its supplied value exactly when that value is non-empty. The remembered builds are kept. |
| `ConfigCommand.OverwriteNothing` | jenkins_terminal/config.py:58-69 | Supplying only absent or empty values leaves the configuration unchanged. |
| `ConfigCommand.OverwriteIdempotent` | jenkins_terminal/config.py:58-69 | Applying the same values twice equals applying them once. |
| `ConfigCommand.OverwriteValidates` | jenkins_terminal/config.py:58-66 | Supplying all three credentials makes the configuration pass `validate_config`. |
| `ConfigCommand.AcceptingDefaultsKeepsConfig` | jenkins_terminal/config.py:52-69 | A prompting run in which every reply is empty writes back the configuration it loaded. |
| `ConfigCommand.Configure` | jenkins_terminal/config.py:40-72 | The command prompts exactly when none of user name, URL and token is non-empty. It saves exactly once, the overwrite with either the options or the answers. The answers are the rich-processed replies of `Ask`, so a blank reply keeps the loaded value. When every reply is empty it saves the loaded configuration itself. It never touches the remembered builds; started without a file, it writes a document with no `builds` key. |
| `BuildParams.ParseParam` | jenkins_terminal/build.py:22-36 | No token or the empty token gives no parameters. Otherwise the token is accepted exactly when it holds one `=`, giving one key. A rejected token fails naming the token. |
| `BuildParams.ParseParamSingle` | jenkins_terminal/build.py:26-27 | `key=value` with no `=` in either side parses to `{key: value}`, empty key or value included. |
| `BuildParams.ParseParamAccepted` | jenkins_terminal/build.py:26-27 | Every accepted token is some `key=value` with no other `=`, and parses to that single pair. |
| `BuildParams.LoadParamsFromFile` | jenkins_terminal/build.py:39-50 | The file is accepted exactly when its document is a mapping; that mapping is returned unchanged; any other document fails with the invalid-file message. |
| `BuildParams.FileParams` | jenkins_terminal/build.py:105-107 | Without `--file` there are no parameters; with it the result is that of loading the file. |
| `BuildParams.MemoryParamsAsWritten` | jenkins_terminal/build.py:86-88 | The lookup fails (`KeyError`) exactly when the document has no `builds` key. Otherwise it gives the job's remembered parameters, or none for a job without memory. |
| `BuildParams.FreshConfigBreaksBuild` | jenkins_terminal/build.py:86 | A configuration written by `config` over the default one validates and names a job, yet the lookup fails on it. |
| `BuildParams.MemoryParams` | jenkins_terminal/build.py:86-88 | The job's remembered parameters, or none when the job or the whole `builds` key is missing. It agrees with the lookup as written wherever that lookup succeeds. |
| `BuildParams.FirstActionParams` | jenkins_terminal/build.py:99-100 | Only the first action of the loaded build is read, and its `parameters` pairs are taken whatever its `_class`; an empty or cause action gives none. |
| `BuildParams.LoadIgnoresClass` | jenkins_terminal/build.py:99 | A first action with pairs under a class other than `hudson.model.ParametersAction` loads those pairs, while the `status` collection (status.py:49) takes none from it. |
| `BuildParams.FirstActionOnly` | jenkins_terminal/build.py:99 | Builds whose first actions agree load the same parameters, whatever their other actions. |
| `BuildParams.LoadTarget` | jenkins_terminal/build.py:93-97 | `--load 0` reads the job's last completed build, and fails when the job cannot be fetched. Any other number is read as given. |
| `BuildParams.LoadFromBuild` | jenkins_terminal/build.py:90-103 | Without `--load` there are no parameters and no requests. With it, the requests are `get_job_info` (only for 0) and then `get_build_info` for the target. Either one failing stops with a message naming the requested number. It never triggers a build. |
| `BuildParams.OverrideKeys` | jenkins_terminal/build.py:83-111 | A key is in `BuildParams.Override`, the chain of `.update` calls, exactly when some source defines it. |
| `BuildParams.OverrideHighestWins` | jenkins_terminal/build.py:83-111 | A key takes the value of the highest-precedence source that defines it. |
| `BuildParams.ResolveParameters` | jenkins_terminal/build.py:83-111 | The requests are those of `--load` alone. The first failing source decides the failure, in the order load, file, token. On success the parameters are the remembered ones, read by the corrected lookup `MemoryParams`, then load, then file, then token, each overriding the earlier ones. |
| `BuildParams.InlineWins` | jenkins_terminal/build.py:109-111 | An inline `key=value` decides that key whatever the other sources hold. |
| `BuildParams.MemorySurvives` | jenkins_terminal/build.py:86-88 | A remembered parameter that no other source defines is kept. |
| `BuildParams.BadFileMakesNoRequest` | jenkins_terminal/build.py:105-106 | Without `--load`, a parameter file that is not a mapping is refused before any request. |
| `BuildCommand.PredictedNumber` | jenkins_terminal/build.py:120-124 | The stored build number is one past the last completed build, or 1 when there is none. |
| `BuildCommand.Remember` | jenkins_terminal/build.py:129-132 | The job's memory becomes the predicted number and the parameters used, and a missing `builds` key is created. Every other job's memory and every other field is unchanged. |
| `BuildCommand.GatherParameters` | jenkins_terminal/build.py:83-111 | The imperative layering, starting from the corrected lookup `MemoryParams`, makes exactly the requests and ends with the outcome of `ResolveParameters`. |
| `BuildCommand.Trigger` | jenkins_terminal/build.py:113-136 | Declining does nothing. Otherwise `get_job_info` comes first, then `build_job` with the parameters, then one save of the remembered build. A failed request stops with `TriggerFailed` and no save. Success ends with the save and nothing after it. |
| `BuildCommand.Build` | jenkins_terminal/build.py:59-136 | Case by case: configuration, job, parameter resolution (with the corrected lookup `MemoryParams`), confirmation and trigger. Without a file it stops at validation with no request. It states exactly which requests are made, the failure each stop reports, and the one save on success (the chosen job plus this job's memory). |
| `BuildCommand.BuildSaves` | jenkins_terminal/build.py:113-136 | The configuration is saved exactly when the command succeeds, then once and last. A declined confirmation neither triggers nor saves. |
| `Actions.FirstUserIsEarliest` | jenkins_terminal/status.py:38-44 | `Actions.FirstUser`, on which `Actions.TriggeringUser` falls back to "Unknown user", finds the user of the earliest action whose first cause names one. It finds none exactly when no action names one. |
| `Actions.FindUser` | jenkins_terminal/status.py:38-44 | The loop with `break` returns that user, or "Unknown user". builds.py:42-48 is the same loop. |
| `Actions.AllParamsNames` | jenkins_terminal/status.py:47-51 | A name is collected exactly when some parameters action carries it. |
| `Actions.NoParametersAction` | jenkins_terminal/status.py:47-51 | A build without parameters actions shows no parameters. |
| `Actions.CollectedNames` | jenkins_terminal/status.py:47-51 | A name is a key of the shown parameters exactly when some parameters action carries it. |
| `Actions.CollectParameters` | jenkins_terminal/status.py:46-51 | The nested loops build the dictionary of every parameters action's pairs, in order, with later duplicates overwriting earlier ones. |
| `StatusCommand.StatusLabel` | jenkins_terminal/status.py:35 | A running build is shown as "building"; otherwise the raw result, absent included. |
| `StatusCommand.Status` | jenkins_terminal/status.py:14-65 | Requests are `get_job_info` then `get_build_info` of `lastBuild`. The view holds the job, the status label, that number, the triggering user and the collected parameters. It is shown exactly when both requests succeed. The command neither saves nor triggers. |
| `BuildsCommand.Latest` | jenkins_terminal/builds.py:29 | The first `min(n, 10)` builds of the server's list, in its order. |
| `BuildsCommand.Fetches` | jenkins_terminal/builds.py:37-38 | One `get_build_info` per listed build, in the listed order. |
| `BuildsCommand.ListBuilds` | jenkins_terminal/builds.py:15-58 | A table is printed exactly when every listed build can be fetched. Its rows are `BuildsCommand.RowOf` of each: the number, raw result and triggering user, in order. Otherwise the first unfetchable build ends the listing, and no later build is requested. |
| `OutputCommand.SliceFrom` | jenkins_terminal/output.py:53 | Python's `lines[start:]`: a non-negative start drops that many lines and a negative one keeps that many from the end, both clamped to the list. |
| `OutputCommand.Tail` | jenkins_terminal/output.py:52-53 | An absent or zero limit shows the console text unchanged. |
| `OutputCommand.TailKeepsLastLines` | jenkins_terminal/output.py:52-53 | A positive limit `n` shows exactly the last `min(n, L)` lines, in order: splitting the shown text on newlines gives back those lines. |
| `OutputCommand.TailOfEverything` | jenkins_terminal/output.py:52-53 | A limit of at least the number of lines shows the whole text, less one final newline. |
| `OutputCommand.TailNegativeDropsFirst` | jenkins_terminal/output.py:52-53 | A negative limit `-n` is not refused: it drops the first `n` lines. |
| `OutputCommand.Output` | jenkins_terminal/output.py:19-58 | The chosen job is saved before any request. A non-zero build number is used as given; otherwise `lastCompletedBuild` is looked up. The console text is fetched and its tail shown. The text is shown exactly when every request succeeded. Without a file it stops with `ConfigIncomplete` before saving. |

## Left out

- Reading and writing `~/.config/jenkins.yaml` (config.py:17-27) is not modelled. The loaded document is an input, and a save is an event carrying the configuration written.
- Only the URL, user name, token, default job and per-job memory of that document are modelled. Other keys are not.
- A document that is not a mapping, such as an empty file, is not modelled.
- YAML values are modelled as strings. Numbers, booleans and nested values in a parameter file or in a build's parameters are carried as opaque text, and file paths are not modelled.
- The python-jenkins client is not modelled. `get_jenkins_server` (config.py:36-37), authentication, HTTP and the exception texts are all outside the model. A request succeeds or fails according to the server maps.
- The same request always gets the same answer. A server that changes between the two `get_job_info` calls of `build --load 0` is not modelled.
- Rendering is not modelled: rich panels, tables, colours and the message texts beyond the failure kind and the offending token or build number.
- The confirmation panel's contents (build.py:53-56) are not modelled. The proposed parameters are part of the outcome.
- Build timestamps and durations (status.py:32-34, builds.py:50-51) are not modelled, because they are floating-point and clock formatting.
- ConfigCommand.Ask: rich's `Prompt.ask` is not part of this model. Its reply handling is modelled from its documented behaviour: a reply of no characters gives the default, any other reply is stripped. rich's prompt loop, its console echo and reading the line from the terminal are not modelled.
- `splitlines` is modelled for `\n` only. Python also breaks at `\r`, `\r\n` and other Unicode line boundaries.
- The command registration in main.py and `__main__.py` is not modelled.
- A build whose information has no `actions` key is not modelled. The `[{}]` default of build.py:99 is therefore unreachable.
- An action that carries both `causes` and a `parameters` list cannot be represented. `Remote.Action` has one variant per kind, so such a first action loads no pairs under `--load` in the model.
- Every non-empty action is assumed to carry `_class` (status.py:49).
- A remembered job entry always has both `build_number` and `parameters`. The `.get("parameters", {})` default of build.py:88 is not modelled, and an empty entry is not distinguished from a missing one.
- BuildCommand.Build: does not model the `KeyError` of build.py:86. It reads the remembered parameters by the corrected lookup `BuildParams.MemoryParams`, so on a document without a `builds` key the model proceeds to confirmation and trigger where the code stops with a traceback. The as-written lookup is `BuildParams.MemoryParamsAsWritten`, and the Findings section records the difference. `BuildParams.ResolveParameters` and `BuildCommand.GatherParameters` read the same corrected lookup.
- Crashes that are not client failures are preconditions rather than outcomes:
  - `build --load 0` on a job without a completed build (build.py:94);
  - a loaded build with an empty `actions` list (build.py:99);
  - `status` on a job never built (status.py:26);
  - `output` without a build number on a job without a completed build (output.py:49).

  These are `BuildParams.LoadWellDefined`, `BuildCommand.BuildWellDefined`, `StatusCommand.StatusWellDefined` and `OutputCommand.OutputWellDefined`.

## Findings

| source | as written | input that shows it | evidently intended | confidence | as-written member | corrected member |
|---|---|---|---|---|---|---|
| jenkins_terminal/build.py:86 | `config["template"]["builds"]` raises `KeyError` when the document has no `builds` key. The default configuration (config.py:21) lacks that key, and so does every document `config` writes from it (config.py:58-71) and every one `output` re-saves (output.py:41). Only build.py:130-132 adds the key, and line 86 raises before those lines run, so `build` can never succeed on such a document once it passes `validate_config`, and the branch at build.py:130-131 can never run. The default configuration itself never gets that far: it fails validation at config.py:31-33. | No configuration file; `config --username admin --url https://ci.example --token secret --job sv/protocol_tests`; then `build` | A missing `builds` key means no remembered parameters, as build.py:130-131 already assumes when it writes the key | high, not executed | `BuildParams.FreshConfigBreaksBuild` | `BuildParams.MemoryParams` |
