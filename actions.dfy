/** Reading the heterogeneous `actions` list of a build: who triggered it and with which
    parameters. The same loops appear in status.py and builds.py; here they are defined once. */
module Actions {
  import opened Wrappers
  import opened Remote

  /** `action and "causes" in action` and then `causes and "userName" in causes[0]`. */
  predicate NamesUser(a: Action)
  {
    a.CauseAction? && |a.causes| > 0 && a.causes[0].userName.Some?
  }

  /** The user of the first action that names one, looking only at each action's first cause. */
  function FirstUser(actions: seq<Action>): Option<string>
  {
    if actions == [] then None
    else if NamesUser(actions[0]) then Some(actions[0].causes[0].userName.value)
    else FirstUser(actions[1..])
  }

  const UnknownUser := "Unknown user"

  /** The "Triggered by" value. */
  function TriggeringUser(actions: seq<Action>): (user: string)
    ensures FirstUser(actions).None? ==> user == UnknownUser
    ensures FirstUser(actions).Some? ==> user == FirstUser(actions).value
  {
    if FirstUser(actions).Some? then FirstUser(actions).value else UnknownUser
  }

  /** The first match wins: the user found is that of the earliest action naming one, and no
      user is found exactly when no action names one. */
  lemma {:induction false} FirstUserIsEarliest(actions: seq<Action>)
    ensures FirstUser(actions).None? <==> forall i :: 0 <= i < |actions| ==> !NamesUser(actions[i])
    ensures FirstUser(actions).Some? ==>
      exists i :: 0 <= i < |actions| && NamesUser(actions[i])
                  && FirstUser(actions).value == actions[i].causes[0].userName.value
                  && forall j :: 0 <= j < i ==> !NamesUser(actions[j])
  {
    if actions != [] {
      FirstUserIsEarliest(actions[1..]);
      if !NamesUser(actions[0]) {
        if FirstUser(actions[1..]).Some? {
          var i :| 0 <= i < |actions[1..]| && NamesUser(actions[1..][i])
                   && FirstUser(actions[1..]).value == actions[1..][i].causes[0].userName.value
                   && forall j :: 0 <= j < i ==> !NamesUser(actions[1..][j]);
          assert NamesUser(actions[i + 1]);
          forall j | 0 <= j < i + 1 ensures !NamesUser(actions[j]) {
            if j > 0 {
              assert actions[j] == actions[1..][j - 1];
            }
          }
        }
        if forall i :: 0 <= i < |actions[1..]| ==> !NamesUser(actions[1..][i]) {
          forall i | 0 <= i < |actions| ensures !NamesUser(actions[i]) {
            if i > 0 {
              assert actions[i] == actions[1..][i - 1];
            }
          }
        }
      }
    }
  }

  /** The scan of status.py:38-44 and builds.py:42-48: walk the actions and stop at the first
      one whose first cause names a user. */
  method FindUser(actions: seq<Action>) returns (user: string)
    ensures user == TriggeringUser(actions)
  {
    user := UnknownUser;
    var i := 0;
    while i < |actions|
      invariant 0 <= i <= |actions|
      invariant FirstUser(actions) == FirstUser(actions[i..])
      invariant user == UnknownUser
    {
      var action := actions[i];
      if action.CauseAction? {
        var causes := action.causes;
        if |causes| > 0 && causes[0].userName.Some? {
          user := causes[0].userName.value;
          break;
        }
      }
      assert actions[i..][1..] == actions[i + 1..];
      i := i + 1;
    }
  }

  /** The name/value pairs of an action that is a parameters action. */
  function ParamsOf(a: Action): seq<Param>
  {
    if a.ParametersAction? then a.parameters else []
  }

  /** All name/value pairs of all parameters actions, in list order. */
  function AllParams(actions: seq<Action>): seq<Param>
  {
    if actions == [] then []
    else AllParams(actions[..|actions| - 1]) + ParamsOf(actions[|actions| - 1])
  }

  /** A name is among the collected pairs exactly when some parameters action carries it. */
  lemma {:induction false} AllParamsNames(actions: seq<Action>, k: string)
    ensures (exists i :: 0 <= i < |AllParams(actions)| && AllParams(actions)[i].name == k) <==>
            (exists a, j :: 0 <= a < |actions| && actions[a].ParametersAction?
                            && 0 <= j < |actions[a].parameters| && actions[a].parameters[j].name == k)
  {
    if actions != [] {
      var init := actions[..|actions| - 1];
      var last := actions[|actions| - 1];
      AllParamsNames(init, k);
      var all := AllParams(actions);
      assert all == AllParams(init) + ParamsOf(last);
      if exists i :: 0 <= i < |all| && all[i].name == k {
        var i :| 0 <= i < |all| && all[i].name == k;
        if i < |AllParams(init)| {
          assert AllParams(init)[i].name == k;
          var a, j :| 0 <= a < |init| && init[a].ParametersAction?
                      && 0 <= j < |init[a].parameters| && init[a].parameters[j].name == k;
          assert actions[a] == init[a];
        } else {
          var j := i - |AllParams(init)|;
          assert last.parameters[j].name == k;
        }
      }
      if exists a, j :: 0 <= a < |actions| && actions[a].ParametersAction?
                        && 0 <= j < |actions[a].parameters| && actions[a].parameters[j].name == k {
        var a, j :| 0 <= a < |actions| && actions[a].ParametersAction?
                    && 0 <= j < |actions[a].parameters| && actions[a].parameters[j].name == k;
        if a < |init| {
          assert init[a] == actions[a];
          var i :| 0 <= i < |AllParams(init)| && AllParams(init)[i].name == k;
          assert all[i] == AllParams(init)[i];
        } else {
          assert all[|AllParams(init)| + j] == last.parameters[j];
        }
      }
    }
  }

  /** Without any parameters action there are no parameters. */
  lemma {:induction false} NoParametersAction(actions: seq<Action>)
    requires forall i :: 0 <= i < |actions| ==> !actions[i].ParametersAction?
    ensures AllParams(actions) == [] && ParamMap(AllParams(actions)) == map[]
  {
    if actions != [] {
      var init := actions[..|actions| - 1];
      assert forall i :: 0 <= i < |init| ==> init[i] == actions[i];
      NoParametersAction(init);
      assert AllParams(actions) == AllParams(init) + [];
    }
  }

  /** A collected name is one some parameters action carries. */
  lemma CollectedNames(actions: seq<Action>, k: string)
    ensures k in ParamMap(AllParams(actions)) <==>
            exists a, j :: 0 <= a < |actions| && actions[a].ParametersAction?
                           && 0 <= j < |actions[a].parameters| && actions[a].parameters[j].name == k
  {
    ParamMapKeys(AllParams(actions), k);
    AllParamsNames(actions, k);
  }

  /** status.py:47-51: for every non-empty parameters action, copy each pair into the
      dictionary, so later duplicates overwrite earlier ones. */
  method CollectParameters(actions: seq<Action>) returns (parameters: map<string, string>)
    ensures parameters == ParamMap(AllParams(actions))
  {
    parameters := map[];
    var i := 0;
    while i < |actions|
      invariant 0 <= i <= |actions|
      invariant parameters == ParamMap(AllParams(actions[..i]))
    {
      assert actions[..i + 1][..i] == actions[..i];
      assert actions[..i + 1][i] == actions[i];
      var action := actions[i];
      if action.ParametersAction? {
        var ps := action.parameters;
        var j := 0;
        assert AllParams(actions[..i]) + ps[..j] == AllParams(actions[..i]);
        while j < |ps|
          invariant 0 <= j <= |ps|
          invariant parameters == ParamMap(AllParams(actions[..i]) + ps[..j])
        {
          assert (AllParams(actions[..i]) + ps[..j + 1])[..|AllParams(actions[..i])| + j]
                 == AllParams(actions[..i]) + ps[..j];
          parameters := parameters[ps[j].name := ps[j].value];
          j := j + 1;
        }
        assert ps[..j] == ps;
        assert AllParams(actions[..i + 1]) == AllParams(actions[..i]) + ps;
      } else {
        assert AllParams(actions[..i + 1]) == AllParams(actions[..i]) + [];
        assert AllParams(actions[..i]) + [] == AllParams(actions[..i]);
      }
      i := i + 1;
    }
    assert actions[..i] == actions;
  }
}
