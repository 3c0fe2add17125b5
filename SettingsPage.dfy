/** The Kubernetes context form of the settings page
    (ui/src/pages/SettingsPage/index.tsx): the list of contexts, the value
    the selector shows, and the form's state around loading the contexts
    and switching to another one. Calls to `kubectl` are outcomes passed
    in. */
module SettingsPage {
  import opened Wrappers
  import opened Seqs

  /** A context as the form keeps it; `selected` may be absent. */
  datatype KubeContext = KubeContext(name: string, selected: Option<bool>)

  predicate IsSelected(ctx: KubeContext)
  {
    ctx.selected == Some(true)
  }

  /** `contexts.find(ctx => ctx.selected)?.name || ''`. */
  function ShownValue(contexts: seq<KubeContext>): (value: string)
    ensures value != "" ==> exists i :: 0 <= i < |contexts| && IsSelected(contexts[i]) && contexts[i].name == value
  {
    var k := FindIndex(contexts, IsSelected);
    if k >= 0 then contexts[k].name else ""
  }

  /** The shown value is the name of the first selected context, and `''`
      when no context is selected. */
  lemma ShownValueFirstSelected(contexts: seq<KubeContext>, k: nat)
    requires k < |contexts| && IsSelected(contexts[k])
    requires forall j :: 0 <= j < k ==> !IsSelected(contexts[j])
    ensures ShownValue(contexts) == contexts[k].name
  {
  }

  lemma ShownValueNoneSelected(contexts: seq<KubeContext>)
    requires forall j :: 0 <= j < |contexts| ==> !IsSelected(contexts[j])
    ensures ShownValue(contexts) == ""
  {
  }

  /** The contexts after a successful switch: every context keeps its name
      and place and is selected exactly when it is the new one. */
  function Switched(contexts: seq<KubeContext>, newContext: string): (r: seq<KubeContext>)
    ensures |r| == |contexts|
    ensures forall i :: 0 <= i < |r| ==>
      r[i].name == contexts[i].name && r[i].selected.Some? && (IsSelected(r[i]) <==> contexts[i].name == newContext)
  {
    seq(|contexts|, i requires 0 <= i < |contexts| =>
      KubeContext(contexts[i].name, Some(contexts[i].name == newContext)))
  }

  /** After a successful switch the selector shows the new context when one
      of that name is listed, and nothing otherwise. */
  lemma SwitchedShowsNewContext(contexts: seq<KubeContext>, newContext: string)
    ensures (exists i :: 0 <= i < |contexts| && contexts[i].name == newContext) ==> ShownValue(Switched(contexts, newContext)) == newContext
    ensures (forall i :: 0 <= i < |contexts| ==> contexts[i].name != newContext) ==> ShownValue(Switched(contexts, newContext)) == ""
  {
    var r := Switched(contexts, newContext);
    var k := FindIndex(r, IsSelected);
    FindIndexFound(r, IsSelected);
  }

  /** Switching twice to the same context is the same as switching once. */
  lemma SwitchedIdempotent(contexts: seq<KubeContext>, newContext: string)
    ensures Switched(Switched(contexts, newContext), newContext) == Switched(contexts, newContext)
  {
  }

  /** `'loading' | 'ready' | 'error'`, or not yet set. */
  datatype FormState = Unset | Loading | Ready | Errored

  datatype ContextForm = ContextForm(state: FormState, contexts: seq<KubeContext>, error: Option<string>)

  /** The form before its first effect runs. */
  const InitialForm := ContextForm(Unset, [], None)

  /** The selector is disabled while loading. */
  predicate Disabled(form: ContextForm)
  {
    form.state == Loading
  }

  /** The error alert is rendered in state `error` only. */
  predicate ShowsAlert(form: ContextForm)
  {
    form.state == Errored
  }

  /** The mount effect, once `getContexts` settles: the contexts read, or
      the error, and state `ready` either way. */
  function AfterLoad(form: ContextForm, loaded: Result<seq<KubeContext>, string>): (r: ContextForm)
    ensures r.state == Ready
    ensures loaded.Success? ==> r.contexts == loaded.value && r.error == form.error
    ensures loaded.Failure? ==> r.contexts == form.contexts && r.error == Some(loaded.error)
  {
    match loaded
    case Success(contexts) => ContextForm(Ready, contexts, form.error)
    case Failure(e) => ContextForm(Ready, form.contexts, Some(e))
  }

  /** `switchContext` as written, once `useContext` settles: on success
      the switched contexts, on failure the error, and `ready` in both
      cases. */
  function AfterSwitchAsWritten(form: ContextForm, newContext: string, outcome: Outcome<string>): (r: ContextForm)
    ensures r.state == Ready
    ensures outcome.Pass? ==> r.contexts == Switched(form.contexts, newContext) && r.error == form.error
    ensures outcome.Fail? ==> r.contexts == form.contexts && r.error == Some(outcome.error)
  {
    match outcome
    case Pass => ContextForm(Ready, Switched(form.contexts, newContext), form.error)
    case Fail(e) => ContextForm(Ready, form.contexts, Some(e))
  }

  /** No load and no switch as written ever reaches state `error`, so the
      error they record is never shown. */
  lemma SwitchErrorNeverShownAsWritten(form: ContextForm, newContext: string, e: string)
    ensures var r := AfterSwitchAsWritten(form, newContext, Fail(e));
      r.error == Some(e) && !ShowsAlert(r)
    ensures forall loaded: Result<seq<KubeContext>, string> :: !ShowsAlert(AfterLoad(form, loaded))
  {
  }

  /** `switchContext` with the failure reported: as written, except that a
      failed switch ends in state `error`, which shows the alert. */
  function AfterSwitch(form: ContextForm, newContext: string, outcome: Outcome<string>): (r: ContextForm)
    ensures outcome.Pass? ==> r == ContextForm(Ready, Switched(form.contexts, newContext), form.error)
    ensures outcome.Fail? ==> r == ContextForm(Errored, form.contexts, Some(outcome.error))
  {
    match outcome
    case Pass => ContextForm(Ready, Switched(form.contexts, newContext), form.error)
    case Fail(e) => ContextForm(Errored, form.contexts, Some(e))
  }

  /** With the failure reported, the alert shows exactly after a failed
      switch, and with the switch's error; a successful switch leaves the
      same form as written. */
  lemma SwitchErrorShown(form: ContextForm, newContext: string, outcome: Outcome<string>)
    ensures ShowsAlert(AfterSwitch(form, newContext, outcome)) <==> outcome.Fail?
    ensures outcome.Fail? ==> AfterSwitch(form, newContext, outcome).error == Some(outcome.error)
    ensures outcome.Pass? ==> AfterSwitch(form, newContext, outcome) == AfterSwitchAsWritten(form, newContext, outcome)
    ensures !Disabled(AfterSwitch(form, newContext, outcome))
  {
  }

  /** A switch, successful or not, keeps the names, their order and their
      number. */
  lemma SwitchKeepsNames(form: ContextForm, newContext: string, outcome: Outcome<string>)
    ensures var r := AfterSwitch(form, newContext, outcome);
      |r.contexts| == |form.contexts|
      && forall i :: 0 <= i < |r.contexts| ==> r.contexts[i].name == form.contexts[i].name
  {
  }

  /** While a switch or load is under way the form shows `loading`. */
  function StartLoading(form: ContextForm): (r: ContextForm)
    ensures Disabled(r) && r.contexts == form.contexts && r.error == form.error
  {
    form.(state := Loading)
  }
}
