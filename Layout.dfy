/** The page frame (ui/src/Layout.tsx): whether the authentication screen
    replaces the pages, whether the notifications button carries a badge
    and of which colour, and whether a Back button is offered. */
module Layout {
  import opened Wrappers
  import opened Seqs
  import opened NotificationsContext
  import AuthContext

  /** The frame's `auth === null` test, as written: `useAuth()` gives the
      context value, and the test holds only for `null`. */
  predicate ShowsAuthScreenAsWritten(v: AuthContext.ContextValue)
  {
    v == AuthContext.NullValue
  }

  /** Even with no credentials at all (the state after `delete`, or a
      first start with nothing stored) the frame as written shows the
      pages rather than the authentication screen: the provider's value is
      a record or `undefined`, never `null`, and so is the context's
      default. */
  lemma AuthScreenNeverShownAsWritten(stored: Option<string>, payload: Option<AuthContext.Payload>, state: Option<AuthContext.AuthState>)
    ensures !ShowsAuthScreenAsWritten(AuthContext.ProviderValue(state))
    ensures !ShowsAuthScreenAsWritten(AuthContext.UndefinedValue)
    ensures var afterDelete := AuthContext.Reduce(Some(AuthContext.InitialState(stored)), AuthContext.AuthAction(AuthContext.Delete, payload));
      AuthContext.AuthOf(afterDelete) == AuthContext.Null
      && !ShowsAuthScreenAsWritten(AuthContext.ProviderValue(afterDelete))
    ensures !AuthContext.Truthy(AuthContext.InitialState(None).auth)
      && !ShowsAuthScreenAsWritten(AuthContext.ProviderValue(Some(AuthContext.InitialState(None))))
  {
  }

  /** The authentication screen is shown while no credentials are held:
      no state, or a state whose `auth` is not a truthy string. */
  predicate ShowsAuthScreen(state: Option<AuthContext.AuthState>)
  {
    !AuthContext.Truthy(AuthContext.AuthOf(state))
  }

  /** The corrected test shows the authentication screen exactly when no
      token is held, and hides it once one is. */
  lemma AuthScreenShownWithoutToken(stored: Option<string>, payload: Option<AuthContext.Payload>, token: string)
    ensures ShowsAuthScreen(AuthContext.Reduce(Some(AuthContext.InitialState(stored)), AuthContext.AuthAction(AuthContext.Delete, payload)))
    ensures ShowsAuthScreen(Some(AuthContext.InitialState(stored))) <==> stored.None? || stored.value == ""
    ensures token != "" ==>
      !ShowsAuthScreen(AuthContext.Reduce(Some(AuthContext.InitialState(stored)),
        AuthContext.AuthAction(AuthContext.Set, Some(AuthContext.Fields(AuthContext.AuthState(AuthContext.Token(token), None))))))
  {
  }

  /** `notifications.find(n => !n.dismissed)` finds something: a
      notification is an object, so any found one is truthy. */
  predicate ShowBadge(notifications: seq<Notification>)
  {
    FindIndex(notifications, (n: Notification) => !n.dismissed) >= 0
  }

  /** The badge is shown exactly when some notification is not dismissed. */
  lemma ShowBadgeIff(notifications: seq<Notification>)
    ensures ShowBadge(notifications) <==> exists i :: 0 <= i < |notifications| && !notifications[i].dismissed
  {
    FindIndexFound(notifications, (n: Notification) => !n.dismissed);
  }

  /** The badge colour: `error` when an undismissed notification is an
      error, `primary` otherwise. */
  function BadgeColor(notifications: seq<Notification>): (color: string)
    ensures color == "error" || color == "primary"
    ensures color == "error" <==>
      exists i :: 0 <= i < |notifications| && !notifications[i].dismissed && notifications[i].kind == Error
  {
    var undismissed := Filter(notifications, (n: Notification) => !n.dismissed);
    var k := FindIndex(undismissed, (n: Notification) => n.kind == Error);
    FindIndexFound(undismissed, (n: Notification) => n.kind == Error);
    if k >= 0 then
      assert undismissed[k] in notifications;
      "error"
    else
      "primary"
  }

  /** The Back button sits on every page but the four top-level ones. */
  predicate ShowBack(pathname: string)
  {
    pathname != "/" && pathname != "/applications" && pathname != "/workloads" && pathname != "/settings"
  }

  /** The Back button is missing exactly on the pages the side menu links
      to and on `/applications`; any deeper page, such as a workload's
      details, has one. */
  lemma ShowBackIff(pathname: string)
    ensures !ShowBack(pathname) <==> pathname in {"/", "/applications", "/workloads", "/settings"}
    ensures |pathname| > |"/applications"| ==> ShowBack(pathname)
  {
  }
}
