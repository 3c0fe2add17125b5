/** The credential form's `saveAuth`
    (ui/src/pages/SettingsPage/components/AuthenticationForm.tsx): a fixed
    chain of eight steps against docker, the Kubernetes cluster, helm and
    the extension backend. Each step is an abstract outcome handed in by the
    caller; the form's `state` and `error` and the commands issued are the
    fields of a class. A successful chain dispatches to the authentication
    store: as written, an action whose payload is the bare credential
    string; corrected, one whose payload's `auth` is that string. */
module AuthenticationForm {
  import opened Wrappers
  import opened Strings
  import AuthContext

  datatype Step =
    | DockerLogout | DockerLogin
    | KubernetesLogout | KubernetesLogin
    | HelmLogout | HelmLogin
    | BackendLogout | BackendLogin

  /** How a step settled: resolved, or rejected with the command's stderr. */
  datatype StepOutcome = Ok | Failed(stderr: string)

  datatype FormState = Loading | Saved | Errored

  /** The order the chain runs its steps in. */
  const ChainOrder: seq<Step> :=
    [DockerLogout, DockerLogin, KubernetesLogout, KubernetesLogin,
     HelmLogout, HelmLogin, BackendLogout, BackendLogin]

  const Unauthorized := "401 Unauthorized"
  const InvalidPairMessage := "Invalid authentication pair"
  const DockerLoginMessage := "Error running docker login, make sure the daemon is started"
  const KubernetesLoginMessage := "Error creating kubernetes secret, make sure the cluster is up and reachable"
  const HelmLoginMessage := "Error running helm registry login, make sure you can reach dp.apps.rancher.io"
  const BackendLoginMessage := "Cannot persist the authentication in the extension backend. Make sure it is up and running"
  const TimeoutMessage := "Timeout connecting to extension backend. Make sure it is up and running."

  /** The position of a step in the chain. */
  function Position(s: Step): (k: nat)
    ensures k < |ChainOrder| && ChainOrder[k] == s
  {
    match s
    case DockerLogout => 0
    case DockerLogin => 1
    case KubernetesLogout => 2
    case KubernetesLogin => 3
    case HelmLogout => 4
    case HelmLogin => 5
    case BackendLogout => 6
    case BackendLogin => 7
  }

  /** The four steps whose failure stops the chain. */
  predicate IsLogin(s: Step)
  {
    s == DockerLogin || s == KubernetesLogin || s == HelmLogin || s == BackendLogin
  }

  /** The error a failing login leaves in the form. Only docker login looks
      at the command's stderr. */
  function FailureMessage(s: Step, stderr: string): (m: string)
    requires IsLogin(s)
    ensures s == DockerLogin ==>
      (m == InvalidPairMessage <==> Includes(stderr, Unauthorized))
      && (m == DockerLoginMessage <==> !Includes(stderr, Unauthorized))
    ensures s != DockerLogin ==> m != InvalidPairMessage && m != DockerLoginMessage
    ensures s == KubernetesLogin ==> m == KubernetesLoginMessage
    ensures s == HelmLogin ==> m == HelmLoginMessage
    ensures s == BackendLogin ==> m == BackendLoginMessage
  {
    match s
    case DockerLogin => if Includes(stderr, Unauthorized) then InvalidPairMessage else DockerLoginMessage
    case KubernetesLogin => KubernetesLoginMessage
    case HelmLogin => HelmLoginMessage
    case BackendLogin => BackendLoginMessage
  }

  /** `username && token`: both present and non-empty. */
  predicate Filled(username: Option<string>, token: Option<string>)
  {
    username.Some? && username.value != "" && token.Some? && token.value != ""
  }

  /** The credentials as one `username:token` string. */
  function NewAuth(username: string, token: string): (auth: string)
    ensures auth != ""
    ensures ':' !in username && ':' !in token ==> Split(auth, ':') == [username, token]
  {
    SplitPair(username, token);
    username + ":" + token
  }

  /** Splitting `a:b` on `:` gives back `a` and `b` when neither holds a
      colon. */
  lemma SplitPair(a: string, b: string)
    ensures ':' !in a && ':' !in b ==> Split(a + ":" + b, ':') == [a, b]
  {
    assert a + ":" + b == a + [':'] + b;
    SplitAppend(a, b, ':');
    if ':' !in a && ':' !in b {
      SplitWithoutSeparator(a, ':');
      SplitWithoutSeparator(b, ':');
    }
  }

  /** The steps after helm login, when it succeeds. */
  function StepsAfterHelm(outcome: Step -> StepOutcome): seq<Step>
  {
    if outcome(HelmLogin).Failed? then [] else [BackendLogout, BackendLogin]
  }

  /** The steps after Kubernetes login, when it succeeds. */
  function StepsAfterKubernetes(outcome: Step -> StepOutcome): seq<Step>
  {
    if outcome(KubernetesLogin).Failed? then [] else [HelmLogout, HelmLogin] + StepsAfterHelm(outcome)
  }

  /** The steps the chain runs: logouts always go on; the chain stops
      after the first failing login. */
  function StepsRun(outcome: Step -> StepOutcome): (steps: seq<Step>)
    ensures 2 <= |steps| <= |ChainOrder| && |steps| % 2 == 0
    ensures steps == ChainOrder[..|steps|]
  {
    [DockerLogout, DockerLogin]
    + if outcome(DockerLogin).Failed? then [] else [KubernetesLogout, KubernetesLogin] + StepsAfterKubernetes(outcome)
  }

  /** The first login, in chain order, that fails. */
  function FirstFailedLogin(outcome: Step -> StepOutcome): (f: Option<Step>)
    ensures f.Some? ==> IsLogin(f.value) && outcome(f.value).Failed?
    ensures f.Some? ==> forall s :: IsLogin(s) && Position(s) < Position(f.value) ==> outcome(s).Ok?
    ensures f.None? <==> forall s :: IsLogin(s) ==> outcome(s).Ok?
  {
    if outcome(DockerLogin).Failed? then Some(DockerLogin)
    else if outcome(KubernetesLogin).Failed? then Some(KubernetesLogin)
    else if outcome(HelmLogin).Failed? then Some(HelmLogin)
    else if outcome(BackendLogin).Failed? then Some(BackendLogin)
    else None
  }

  /** What the form shows once the chain has settled. */
  datatype View = View(state: Option<FormState>, error: Option<string>)

  /** The error the form is left with after a failing login. The backend
      step arms a ten-second timer that only its success clears, so after
      a backend failure the timer's message replaces the failure's one,
      unless the backend answers after the timer has already fired
      (`backendLate`), in which case the failure's message comes last. */
  function SettledMessage(s: Step, stderr: string, backendLate: bool): (m: string)
    requires IsLogin(s)
    ensures s != BackendLogin ==> m == FailureMessage(s, stderr)
    ensures s == BackendLogin ==> m == (if backendLate then BackendLoginMessage else TimeoutMessage)
  {
    if s == BackendLogin && !backendLate then TimeoutMessage else FailureMessage(s, stderr)
  }

  /** The form once the chain has run: `saved` with no error when every
      login succeeds, otherwise `error` with the message the first failing
      login leaves. */
  function ChainView(outcome: Step -> StepOutcome, backendLate: bool): (v: View)
    ensures v.state == Some(Saved) || v.state == Some(Errored)
    ensures v.state == Some(Saved) <==> forall s :: IsLogin(s) ==> outcome(s).Ok?
    ensures v.state == Some(Saved) <==> v.error.None?
  {
    match FirstFailedLogin(outcome)
    case None => View(Some(Saved), None)
    case Some(s) => View(Some(Errored), Some(SettledMessage(s, outcome(s).stderr, backendLate)))
  }

  /** The form after `saveAuth`: untouched without credentials, otherwise
      the view the chain leaves. */
  function SaveAuthSpec(username: Option<string>, token: Option<string>, outcome: Step -> StepOutcome, backendLate: bool, before: View): (v: View)
    ensures !Filled(username, token) ==> v == before
    ensures Filled(username, token) ==> v.state.Some? && v.state.value != Loading
  {
    if !Filled(username, token) then before else ChainView(outcome, backendLate)
  }

  /** The action dispatched on success, as written: the payload is the bare
      `username:token` string, not a record holding it. */
  function SetActionAsWritten(newAuth: string): (a: AuthContext.AuthAction)
    ensures a.actionType == AuthContext.Set && a.payload == Some(AuthContext.Text(newAuth))
  {
    AuthContext.AuthAction(AuthContext.Set, Some(AuthContext.Text(newAuth)))
  }

  /** As written, the dispatch changes nothing a later read depends on: the
      state keeps its previous `auth` and errors, and no token is stored. */
  lemma SetActionAsWrittenKeepsOldAuth(state: Option<AuthContext.AuthState>, stored: Option<string>, username: string, token: string)
    ensures var r := AuthContext.Reduce(state, SetActionAsWritten(NewAuth(username, token)));
      r.Some? && r.value.auth == AuthContext.AuthOf(state) && r.value.errors == AuthContext.ErrorsOf(state)
    ensures AuthContext.StoredAfter(stored, SetActionAsWritten(NewAuth(username, token))) == stored
    ensures state.Some? && state.value.auth == AuthContext.Null ==>
      AuthContext.Reduce(state, SetActionAsWritten(NewAuth(username, token))).value.auth != AuthContext.Token(NewAuth(username, token))
  {
  }

  /** The action dispatched on success: `set` with the new credentials as
      the payload's `auth`. */
  function SetAction(newAuth: string): (a: AuthContext.AuthAction)
    ensures a.actionType == AuthContext.Set
    ensures AuthContext.PayloadAuth(a.payload) == AuthContext.Token(newAuth)
    ensures AuthContext.PayloadErrors(a.payload).None?
  {
    AuthContext.AuthAction(AuthContext.Set, Some(AuthContext.Fields(AuthContext.AuthState(AuthContext.Token(newAuth), None))))
  }

  /** The corrected dispatch installs the credentials in the state and in
      local storage, keeping the previous errors. */
  lemma SetActionStoresCredentials(state: Option<AuthContext.AuthState>, stored: Option<string>, username: string, token: string)
    ensures var r := AuthContext.Reduce(state, SetAction(NewAuth(username, token)));
      r.Some? && r.value.auth == AuthContext.Token(NewAuth(username, token)) && r.value.errors == AuthContext.ErrorsOf(state)
    ensures AuthContext.StoredAfter(stored, SetAction(NewAuth(username, token))) == Some(NewAuth(username, token))
  {
  }

  /** What calling `split` on something without that method throws. */
  const NotAFunction := "TypeError: auth?.split is not a function"

  /** The form's first username and token as written: `auth?.split(':')`
      on the context value. `?.` only skips `null` and `undefined`; the
      state record has no `split` method, so calling it throws. */
  function InitialFieldsAsWritten(v: AuthContext.ContextValue): (r: Result<(Option<string>, Option<string>), string>)
    ensures r.Failure? <==> v.Record?
    ensures r.Failure? ==> r.error == NotAFunction
    ensures r.Success? ==> r.value == (None, None)
  {
    match v
    case Record(_) => Failure(NotAFunction)
    case _ => Success((None, None))
  }

  /** As written, the form throws while rendering under the provider: its
      first state is a record, and so is every state `set`, `update`,
      `delete` and `dismiss_errors` leave. */
  lemma InitialFieldsAsWrittenThrows(stored: Option<string>, state: Option<AuthContext.AuthState>, action: AuthContext.AuthAction)
    ensures InitialFieldsAsWritten(AuthContext.ProviderValue(Some(AuthContext.InitialState(stored)))).Failure?
    ensures !action.actionType.Unknown? ==>
      InitialFieldsAsWritten(AuthContext.ProviderValue(AuthContext.Reduce(state, action))).Failure?
  {
  }

  /** The form's first username and token read from the state's `auth`,
      `auth?.auth?.split(':')[0]` and `[1]`: nothing without a credential
      string, otherwise the text before the first colon and the part after
      it, if there is one. */
  function InitialFields(v: AuthContext.ContextValue): (r: (Option<string>, Option<string>))
    ensures r.0.Some? <==> v.Record? && v.record.auth.Token?
    ensures r.0.Some? ==> r.0.value == FirstSegment(v.record.auth.text, ':')
    ensures r.1.Some? ==> r.0.Some? && ':' in v.record.auth.text && ':' !in r.1.value
  {
    if v.Record? && v.record.auth.Token? then
      var parts := Split(v.record.auth.text, ':');
      if |parts| > 1 then
        (Some(parts[0]), Some(parts[1]))
      else (Some(parts[0]), None)
    else (None, None)
  }

  /** The credentials the corrected form saves come back when it renders
      again, in this session and after a restart. */
  lemma InitialFieldsRoundTrip(state: Option<AuthContext.AuthState>, username: string, token: string)
    requires ':' !in username && ':' !in token
    ensures InitialFields(AuthContext.ProviderValue(AuthContext.Reduce(state, SetAction(NewAuth(username, token))))) == (Some(username), Some(token))
    ensures InitialFields(AuthContext.ProviderValue(Some(AuthContext.InitialState(Some(NewAuth(username, token)))))) == (Some(username), Some(token))
  {
  }

  /** The chain runs a prefix of the fixed order, a logout and a login at a
      time; every login before the last step run succeeded, and the last
      step is the failing login or the backend login. */
  lemma StepsRunInOrder(outcome: Step -> StepOutcome)
    ensures var steps := StepsRun(outcome);
      2 <= |steps| <= |ChainOrder| && |steps| % 2 == 0 && steps == ChainOrder[..|steps|]
      && IsLogin(steps[|steps| - 1])
      && (forall i :: 0 <= i < |steps| - 1 && IsLogin(steps[i]) ==> outcome(steps[i]).Ok?)
      && (outcome(steps[|steps| - 1]).Failed? || steps[|steps| - 1] == BackendLogin)
  {
  }

  /** A failing login is the last step run, and its message is the form's
      error; every later step is skipped. */
  lemma FailureStopsChain(username: Option<string>, token: Option<string>, outcome: Step -> StepOutcome, backendLate: bool, before: View, s: Step)
    requires Filled(username, token)
    requires IsLogin(s) && outcome(s).Failed?
    requires forall t :: IsLogin(t) && Position(t) < Position(s) ==> outcome(t).Ok?
    ensures StepsRun(outcome) == ChainOrder[..Position(s) + 1]
    ensures SaveAuthSpec(username, token, outcome, backendLate, before) == View(Some(Errored), Some(SettledMessage(s, outcome(s).stderr, backendLate)))
  {
    if s != DockerLogin {
      assert IsLogin(DockerLogin) && Position(DockerLogin) < Position(s);
    }
    if s == HelmLogin || s == BackendLogin {
      assert IsLogin(KubernetesLogin) && Position(KubernetesLogin) < Position(s);
    }
    if s == BackendLogin {
      assert IsLogin(HelmLogin) && Position(HelmLogin) < Position(s);
    }
  }

  /** The form reaches `saved` exactly when credentials were filled in and
      all four logins succeed; then the error is cleared. */
  lemma SavedIffAllLoginsSucceed(username: Option<string>, token: Option<string>, outcome: Step -> StepOutcome, backendLate: bool, before: View)
    requires before.state != Some(Saved)
    ensures SaveAuthSpec(username, token, outcome, backendLate, before).state == Some(Saved) <==>
      Filled(username, token) && forall s :: IsLogin(s) ==> outcome(s).Ok?
    ensures SaveAuthSpec(username, token, outcome, backendLate, before).state == Some(Saved) ==>
      SaveAuthSpec(username, token, outcome, backendLate, before).error.None?
  {
  }

  /** Logouts only get logged: two runs whose logins settle alike run the
      same steps and end in the same form. */
  lemma LogoutsDoNotMatter(username: Option<string>, token: Option<string>, o1: Step -> StepOutcome, o2: Step -> StepOutcome, backendLate: bool, before: View)
    requires forall s :: IsLogin(s) ==> o1(s) == o2(s)
    ensures StepsRun(o1) == StepsRun(o2)
    ensures SaveAuthSpec(username, token, o1, backendLate, before) == SaveAuthSpec(username, token, o2, backendLate, before)
  {
    assert o1(DockerLogin) == o2(DockerLogin) && o1(KubernetesLogin) == o2(KubernetesLogin);
    assert o1(HelmLogin) == o2(HelmLogin) && o1(BackendLogin) == o2(BackendLogin);
  }

  /** The form's state. */
  class Form {
    var state: Option<FormState>
    var error: Option<string>
    /** The steps issued so far, in order. */
    var issued: seq<Step>

    /** A freshly rendered form: no state and no error yet. */
    constructor ()
      ensures state.None? && error.None? && issued == []
    {
      state := None;
      error := None;
      issued := [];
    }

    /** Issues a logout, ignores how it settles, then issues the login
      that follows it and waits for that. */
    method RunPair(logout: Step, login: Step, outcome: Step -> StepOutcome) returns (o: StepOutcome)
      modifies this
      ensures o == outcome(login)
      ensures issued == old(issued) + [logout, login] && state == old(state) && error == old(error)
    {
      issued := issued + [logout];
      issued := issued + [login];
      o := outcome(login);
    }

    /** `saveAuth` as written: nothing without credentials; otherwise
        `loading`, then the chain, whose success dispatches the bare
        `username:token` string, so the store keeps its token and its
        `auth`. */
    method SaveAuth(username: Option<string>, token: Option<string>, outcome: Step -> StepOutcome, backendLate: bool, store: AuthContext.AuthStore)
      modifies this, store
      ensures View(state, error) == SaveAuthSpec(username, token, outcome, backendLate, old(View(state, error)))
      ensures issued == old(issued) + (if Filled(username, token) then StepsRun(outcome) else [])
      ensures store.storedToken == old(store.storedToken)
      ensures store.state ==
        if Filled(username, token) && FirstFailedLogin(outcome).None?
        then AuthContext.Reduce(old(store.state), SetActionAsWritten(NewAuth(username.value, token.value)))
        else old(store.state)
      ensures AuthContext.AuthOf(store.state) == AuthContext.AuthOf(old(store.state))
    {
      if !Filled(username, token) {
        return;
      }
      var newAuth := NewAuth(username.value, token.value);
      state := Some(Loading);
      DockerStage(SetActionAsWritten(newAuth), outcome, backendLate, store);
    }

    /** `saveAuth` with the dispatch corrected to `payload: { auth:
        newAuth }`: a successful chain stores the new credentials, a
        failing one leaves the store alone. */
    method SaveAuthCorrected(username: Option<string>, token: Option<string>, outcome: Step -> StepOutcome, backendLate: bool, store: AuthContext.AuthStore)
      modifies this, store
      ensures View(state, error) == SaveAuthSpec(username, token, outcome, backendLate, old(View(state, error)))
      ensures issued == old(issued) + (if Filled(username, token) then StepsRun(outcome) else [])
      ensures if Filled(username, token) && FirstFailedLogin(outcome).None?
        then store.state == AuthContext.Reduce(old(store.state), SetAction(NewAuth(username.value, token.value)))
          && store.storedToken == Some(NewAuth(username.value, token.value))
        else store.state == old(store.state) && store.storedToken == old(store.storedToken)
    {
      if !Filled(username, token) {
        return;
      }
      var newAuth := NewAuth(username.value, token.value);
      state := Some(Loading);
      DockerStage(SetAction(newAuth), outcome, backendLate, store);
    }

    /** Docker logout and login; a failed login is reported by its stderr,
        a successful one goes on to Kubernetes. */
    method DockerStage(action: AuthContext.AuthAction, outcome: Step -> StepOutcome, backendLate: bool, store: AuthContext.AuthStore)
      modifies this, store
      ensures View(state, error) == ChainView(outcome, backendLate)
      ensures issued == old(issued) + StepsRun(outcome)
      ensures if FirstFailedLogin(outcome).None?
        then store.state == AuthContext.Reduce(old(store.state), action)
          && store.storedToken == AuthContext.StoredAfter(old(store.storedToken), action)
        else store.state == old(store.state) && store.storedToken == old(store.storedToken)
    {
      var o := RunPair(DockerLogout, DockerLogin, outcome);
      if o.Failed? {
        error := Some(FailureMessage(DockerLogin, o.stderr));
        state := Some(Errored);
        return;
      }
      KubernetesStage(action, outcome, backendLate, store);
    }

    /** Kubernetes logout and login, once docker login succeeded. */
    method KubernetesStage(action: AuthContext.AuthAction, outcome: Step -> StepOutcome, backendLate: bool, store: AuthContext.AuthStore)
      requires outcome(DockerLogin).Ok?
      modifies this, store
      ensures View(state, error) == ChainView(outcome, backendLate)
      ensures issued == old(issued) + [KubernetesLogout, KubernetesLogin] + StepsAfterKubernetes(outcome)
      ensures if FirstFailedLogin(outcome).None?
        then store.state == AuthContext.Reduce(old(store.state), action)
          && store.storedToken == AuthContext.StoredAfter(old(store.storedToken), action)
        else store.state == old(store.state) && store.storedToken == old(store.storedToken)
    {
      var o := RunPair(KubernetesLogout, KubernetesLogin, outcome);
      if o.Failed? {
        state := Some(Errored);
        error := Some(KubernetesLoginMessage);
        return;
      }
      HelmStage(action, outcome, backendLate, store);
    }

    /** Helm logout and login, once the Kubernetes secret exists. */
    method HelmStage(action: AuthContext.AuthAction, outcome: Step -> StepOutcome, backendLate: bool, store: AuthContext.AuthStore)
      requires outcome(DockerLogin).Ok? && outcome(KubernetesLogin).Ok?
      modifies this, store
      ensures View(state, error) == ChainView(outcome, backendLate)
      ensures issued == old(issued) + [HelmLogout, HelmLogin] + StepsAfterHelm(outcome)
      ensures if FirstFailedLogin(outcome).None?
        then store.state == AuthContext.Reduce(old(store.state), action)
          && store.storedToken == AuthContext.StoredAfter(old(store.storedToken), action)
        else store.state == old(store.state) && store.storedToken == old(store.storedToken)
    {
      var o := RunPair(HelmLogout, HelmLogin, outcome);
      if o.Failed? {
        state := Some(Errored);
        error := Some(HelmLoginMessage);
        return;
      }
      BackendStage(action, outcome, backendLate, store);
    }

    /** The ten-second timer of the backend step fires: its rejection is
        caught and reported. */
    method TimerFires()
      modifies this
      ensures error == Some(TimeoutMessage) && state == Some(Errored) && issued == old(issued)
    {
      error := Some(TimeoutMessage);
      state := Some(Errored);
    }

    /** The backend's logout and login, once helm login succeeded. Success
        dispatches `action`, saves the form and clears the timer; failure
        reports itself but leaves the timer armed, so the timer's message
        and the failure's one are shown in the order they happen. */
    method BackendStage(action: AuthContext.AuthAction, outcome: Step -> StepOutcome, backendLate: bool, store: AuthContext.AuthStore)
      requires outcome(DockerLogin).Ok? && outcome(KubernetesLogin).Ok? && outcome(HelmLogin).Ok?
      modifies this, store
      ensures View(state, error) == ChainView(outcome, backendLate)
      ensures issued == old(issued) + [BackendLogout, BackendLogin]
      ensures if FirstFailedLogin(outcome).None?
        then store.state == AuthContext.Reduce(old(store.state), action)
          && store.storedToken == AuthContext.StoredAfter(old(store.storedToken), action)
        else store.state == old(store.state) && store.storedToken == old(store.storedToken)
    {
      var o := RunPair(BackendLogout, BackendLogin, outcome);
      if backendLate {
        TimerFires();
      }
      if o.Failed? {
        state := Some(Errored);
        error := Some(BackendLoginMessage);
        if !backendLate {
          TimerFires();
        }
        return;
      }
      store.Dispatch(action);
      state := Some(Saved);
      error := None;
    }
  }
}
