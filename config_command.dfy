/** The `config` command: optionally prompt for the settings, overwrite the fields that were
    given a non-empty value, and save. Prompting is modelled by the text the operator types. */
module ConfigCommand {
  import opened Wrappers
  import opened Text
  import opened Settings
  import opened Cli

  /** The text typed at each of the four prompts, before rich's prompt processes it. */
  datatype Replies = Replies(url: string, username: string, token: string, job: string)

  /** rich's `Prompt.ask(..., default=d)`: a reply of no characters at all yields the default;
      any other reply is returned with its surrounding white space stripped. */
  function Ask(reply: string, default: string): (answer: string)
    ensures reply == "" ==> answer == default
    ensures reply != "" ==> answer == Strip(reply)
  {
    if reply == "" then default else Strip(reply)
  }

  /** A reply of white space only is not the empty reply: it yields `""`, not the default, and the
      guarded assignments then leave that field alone. */
  lemma BlankReplyIgnored(reply: string, default: string)
    requires reply != "" && forall i :: 0 <= i < |reply| ==> IsSpace(reply[i])
    ensures Ask(reply, default) == "" && !Present(Some(Ask(reply, default)))
  {
  }

  /** From no configuration file, blank spaces typed at the token prompt leave no token, so the
      saved configuration still fails `validate_config`. */
  lemma BlankTokenLeavesConfigIncomplete()
    ensures var c := DefaultConfig();
            var saved := Overwrite(c, Some(Ask("admin", c.username)), Some(Ask("https://ci", c.url)),
                                   Some(Ask("   ", c.token)), Some(Ask("", JobDefault(c.template))));
            saved.token == "" && !Validate(saved)
  {
    BlankReplyIgnored("   ", "");
  }

  /** The default offered at the job prompt: `config["template"].get("job", "")`. */
  function JobDefault(t: Template): string
  {
    if t.job.Some? then t.job.value else ""
  }

  /** The four guarded assignments: a field takes its supplied value only when that value is
      non-empty; every other part of the configuration is kept. */
  function Overwrite(c: Config, username: Option<string>, url: Option<string>,
                     token: Option<string>, job: Option<string>): (r: Config)
    ensures r.username == (if Present(username) then username.value else c.username)
    ensures r.url == (if Present(url) then url.value else c.url)
    ensures r.token == (if Present(token) then token.value else c.token)
    ensures r.template.job == (if Present(job) then job else c.template.job)
    ensures r.template.builds == c.template.builds
  {
    var c1 := if Present(username) then c.(username := username.value) else c;
    var c2 := if Present(url) then c1.(url := url.value) else c1;
    var c3 := if Present(token) then c2.(token := token.value) else c2;
    if Present(job) then c3.(template := c3.template.(job := job)) else c3
  }

  /** Supplying nothing, or only empty values, changes nothing. */
  lemma OverwriteNothing(c: Config, username: Option<string>, url: Option<string>,
                         token: Option<string>, job: Option<string>)
    requires !Present(username) && !Present(url) && !Present(token) && !Present(job)
    ensures Overwrite(c, username, url, token, job) == c
  {
  }

  /** Writing the same values twice is the same as writing them once. */
  lemma OverwriteIdempotent(c: Config, username: Option<string>, url: Option<string>,
                            token: Option<string>, job: Option<string>)
    ensures var once := Overwrite(c, username, url, token, job);
            Overwrite(once, username, url, token, job) == once
  {
  }

  /** Supplying all three credentials makes the configuration pass `validate_config`. */
  lemma OverwriteValidates(c: Config, username: Option<string>, url: Option<string>,
                           token: Option<string>, job: Option<string>)
    requires Present(username) && Present(url) && Present(token)
    ensures Validate(Overwrite(c, username, url, token, job))
  {
  }

  /** The configuration written by a prompting run in which every reply is empty. */
  lemma AcceptingDefaultsKeepsConfig(c: Config)
    ensures Overwrite(c, Some(Ask("", c.username)), Some(Ask("", c.url)), Some(Ask("", c.token)),
                      Some(Ask("", JobDefault(c.template)))) == c
  {
  }

  datatype ConfigOutcome = ConfigOutcome(prompted: bool, events: seq<Event>)

  /** The `config` command on the loaded configuration. `job` is `Some("")` when `--job` is not
      given. The prompts are asked only when none of `username`, `url`, `token` is non-empty. */
  method Configure(stored: Option<Config>, username: Option<string>, url: Option<string>,
                   token: Option<string>, job: Option<string>, replies: Replies)
    returns (out: ConfigOutcome)
    ensures out.prompted <==> !Present(username) && !Present(url) && !Present(token)
    ensures !out.prompted ==> out.events == [Save(Overwrite(LoadConfig(stored), username, url, token, job))]
    ensures out.prompted ==>
      out.events == [Save(Overwrite(LoadConfig(stored),
                                    Some(Ask(replies.username, LoadConfig(stored).username)),
                                    Some(Ask(replies.url, LoadConfig(stored).url)),
                                    Some(Ask(replies.token, LoadConfig(stored).token)),
                                    Some(Ask(replies.job, JobDefault(LoadConfig(stored).template)))))]
    ensures out.prompted && replies == Replies("", "", "", "") ==> out.events == [Save(LoadConfig(stored))]
    ensures |out.events| == 1 && out.events[0].Save?
    ensures out.events[0].config.template.builds == LoadConfig(stored).template.builds
    // Started without a configuration file, the document written has no `builds` key.
    ensures stored.None? ==> out.events[0].config.template.builds.None?
  {
    var loaded := LoadConfig(stored);
    var config := loaded;
    var u, l, t, j := username, url, token, job;
    var prompted := !(Present(username) || Present(url) || Present(token));
    if prompted {
      l := Some(Ask(replies.url, config.url));
      u := Some(Ask(replies.username, config.username));
      t := Some(Ask(replies.token, config.token));
      j := Some(Ask(replies.job, JobDefault(config.template)));
    }
    if Present(u) {
      config := config.(username := u.value);
    }
    if Present(l) {
      config := config.(url := l.value);
    }
    if Present(t) {
      config := config.(token := t.value);
    }
    if Present(j) {
      config := config.(template := config.template.(job := j));
    }
    out := ConfigOutcome(prompted, [Save(config)]);
  }
}
