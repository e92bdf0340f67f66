/** The configuration document the commands load, read and save (`~/.config/jenkins.yaml`),
    as a typed record. Reading and writing the file is not modelled. */
module Settings {
  import opened Wrappers

  /** `template.builds[job]`: what the last triggered build of a job used. */
  datatype JobMemory = JobMemory(buildNumber: int, parameters: map<string, string>)

  /** `template`: the default job and, once a build has been triggered, the per-job memory.
      `builds` is `None` when the document has no `builds` key. */
  datatype Template = Template(job: Option<string>, builds: Option<map<string, JobMemory>>)

  datatype Config = Config(url: string, username: string, token: string, template: Template)

  /** `validate_config`: the check passes only when all three credentials are non-empty. */
  predicate Validate(c: Config)
  {
    c.url != "" && c.username != "" && c.token != ""
  }

  lemma ValidateRejects(c: Config)
    ensures !Validate(c) <==> c.url == "" || c.username == "" || c.token == ""
  {
  }

  /** What `load_config` returns when there is no configuration file. */
  function DefaultConfig(): (c: Config)
    ensures !Validate(c)
    ensures c.template.job == Some("") && c.template.builds.None?
  {
    Config("", "", "", Template(Some(""), None))
  }

  /** `load_config`: the stored document if the file exists, the default otherwise. */
  function LoadConfig(stored: Option<Config>): (c: Config)
    ensures stored.None? ==> c == DefaultConfig() && !Validate(c)
    ensures stored.Some? ==> c == stored.value
  {
    if stored.Some? then stored.value else DefaultConfig()
  }

  /** The outcome of job defaulting: the template to keep and the job the command acts on. */
  datatype JobChoice = JobChoice(template: Template, job: Option<string>)

  /** Job defaulting shared by `build` and `output`: an explicit job becomes the template's
      default job; without one the template's job is used; `None` when neither is non-empty. */
  function ChooseJob(t: Template, job: Option<string>): (r: JobChoice)
    ensures r.job.Some? <==> Present(job) || Present(t.job)
    ensures r.job.Some? ==> r.job.value != ""
    ensures Present(job) ==> r.job == job && r.template == t.(job := job)
    ensures !Present(job) ==> r.template == t
    ensures !Present(job) && Present(t.job) ==> r.job == t.job
    ensures r.template.builds == t.builds
  {
    if Present(job) then JobChoice(t.(job := job), job)
    else if Present(t.job) then JobChoice(t, t.job)
    else JobChoice(t, None)
  }

  /** Without a configuration file and without an explicit job, no job can be chosen. */
  lemma DefaultHasNoJob()
    ensures ChooseJob(DefaultConfig().template, None).job.None?
  {
  }
}
