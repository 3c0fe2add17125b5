/** The authentication state of the UI (ui/src/AuthContext.tsx): a reducer
    over an optional state record, whose `set`/`update` and `delete`
    actions also write and remove the token kept in the browser's local
    storage. The reducer is a function; the provider holding the state and
    the stored token is a class. */
module AuthContext {
  import opened Wrappers
  import opened Seqs

  /** The local-storage key of the token. */
  const TokenKey := "token"

  /** The `auth` field: absent, `null`, or a string. */
  datatype AuthValue = Undefined | Null | Token(text: string)

  /** JavaScript truthiness of the `auth` field: a non-empty string. */
  predicate Truthy(a: AuthValue)
  {
    a.Token? && a.text != ""
  }

  datatype AuthError = AuthError(dismissed: bool, message: string)

  /** `AuthContextPayload`: the state record and the payload of actions. */
  datatype AuthState = AuthState(auth: AuthValue, errors: Option<seq<AuthError>>)

  datatype ActionType = Set | Update | Delete | DismissErrors | Unknown(name: string)

  /** An action's payload: a record, or a bare string, which some callers
      pass; a string has neither an `auth` nor an `errors` field. */
  datatype Payload = Fields(fields: AuthState) | Text(text: string)

  datatype AuthAction = AuthAction(actionType: ActionType, payload: Option<Payload>)

  /** `action.payload?.auth`. */
  function PayloadAuth(p: Option<Payload>): AuthValue
  {
    if p.Some? && p.value.Fields? then p.value.fields.auth else Undefined
  }

  /** `action.payload?.errors`. */
  function PayloadErrors(p: Option<Payload>): Option<seq<AuthError>>
  {
    if p.Some? && p.value.Fields? then p.value.fields.errors else None
  }

  /** `state?.auth`. */
  function AuthOf(state: Option<AuthState>): AuthValue
  {
    if state.Some? then state.value.auth else Undefined
  }

  /** `state?.errors`. */
  function ErrorsOf(state: Option<AuthState>): Option<seq<AuthError>>
  {
    if state.Some? then state.value.errors else None
  }

  /** Some error of the payload carries this message. */
  predicate Listed(payloadErrors: Option<seq<AuthError>>, message: string)
  {
    payloadErrors.Some? && FindIndex(payloadErrors.value, (d: AuthError) => d.message == message) >= 0
  }

  /** `find` on the payload's errors succeeds exactly when one of them has
      the message. */
  lemma ListedIff(payloadErrors: Option<seq<AuthError>>, message: string)
    ensures Listed(payloadErrors, message) <==>
      payloadErrors.Some? && exists j :: 0 <= j < |payloadErrors.value| && payloadErrors.value[j].message == message
  {
    if payloadErrors.Some? {
      FindIndexFound(payloadErrors.value, (d: AuthError) => d.message == message);
    }
  }

  /** The `dismiss_errors` mapping of one error. */
  function DismissOne(payloadErrors: Option<seq<AuthError>>, e: AuthError): AuthError
  {
    if Listed(payloadErrors, e.message) then AuthError(true, e.message) else e
  }

  /** `authReducer`: the next state. */
  function Reduce(state: Option<AuthState>, action: AuthAction): (r: Option<AuthState>)
    ensures (action.actionType == Set || action.actionType == Update) ==>
      r.Some?
      && r.value.auth == (if Truthy(PayloadAuth(action.payload)) then PayloadAuth(action.payload) else AuthOf(state))
      && r.value.errors == (if PayloadErrors(action.payload).Some? then PayloadErrors(action.payload) else ErrorsOf(state))
    ensures action.actionType == DismissErrors ==>
      r.Some? && r.value.auth == AuthOf(state)
      && (ErrorsOf(state).None? <==> r.value.errors.None?)
      && (r.value.errors.Some? ==>
            |r.value.errors.value| == |ErrorsOf(state).value|
            && forall i :: 0 <= i < |r.value.errors.value| ==>
                 var e := ErrorsOf(state).value[i];
                  r.value.errors.value[i] ==
                   if Listed(PayloadErrors(action.payload), e.message) then AuthError(true, e.message) else e)
    ensures action.actionType == Delete ==> r == Some(AuthState(Null, None))
    ensures action.actionType.Unknown? ==> r.None?
  {
    match action.actionType
    case Set | Update =>
      var payloadAuth := PayloadAuth(action.payload);
      var payloadErrors := PayloadErrors(action.payload);
      Some(AuthState(
        if Truthy(payloadAuth) then payloadAuth else AuthOf(state),
        if payloadErrors.Some? then payloadErrors else ErrorsOf(state)))
    case DismissErrors =>
      var errors := ErrorsOf(state);
      var payloadErrors := PayloadErrors(action.payload);
      var mapped :=
        if errors.None? then None
        else Some(seq(|errors.value|, i requires 0 <= i < |errors.value| => DismissOne(payloadErrors, errors.value[i])));
      Some(AuthState(AuthOf(state), mapped))
    case Delete => Some(AuthState(Null, None))
    case Unknown(_) => None
  }

  /** The token in local storage after the action: `set` and `update`
      write a truthy payload auth, `delete` removes it, everything else
      leaves it. */
  function StoredAfter(stored: Option<string>, action: AuthAction): (r: Option<string>)
    ensures r != stored ==>
      action.actionType in {Set, Update, Delete}
    ensures r.Some? && r != stored ==> Truthy(PayloadAuth(action.payload)) && PayloadAuth(action.payload) == Token(r.value)
    ensures action.actionType in {Set, Update} && Truthy(PayloadAuth(action.payload)) ==>
      r == Some(PayloadAuth(action.payload).text)
    ensures action.actionType == Delete ==> r.None?
  {
    match action.actionType
    case Set | Update =>
      var payloadAuth := PayloadAuth(action.payload);
      if Truthy(payloadAuth) then Some(payloadAuth.text) else stored
    case Delete => None
    case _ => stored
  }

  /** The provider's first state: `localStorage.getItem(TOKEN_KEY) ||
      undefined`, so a missing or empty token gives an absent `auth`. */
  function InitialState(stored: Option<string>): (s: AuthState)
    ensures s.errors.None?
    ensures Truthy(s.auth) <==> stored.Some? && stored.value != ""
    ensures Truthy(s.auth) ==> s.auth.text == stored.value
    ensures !Truthy(s.auth) ==> s.auth == Undefined
  {
    AuthState(if stored.Some? && stored.value != "" then Token(stored.value) else Undefined, None)
  }

  /** What `useAuth()` returns: the context value, which JavaScript can
      also make `null`; the provider passes the reducer's state, and the
      context's default is `undefined`. */
  datatype ContextValue = NullValue | UndefinedValue | Record(record: AuthState)

  /** `<AuthContext.Provider value={ auth }>`: the reducer's state as the
      context value; an undefined state stays `undefined`, and nothing the
      reducer returns is `null`. */
  function ProviderValue(state: Option<AuthState>): (v: ContextValue)
    ensures v != NullValue
    ensures v == UndefinedValue <==> state.None?
    ensures v.Record? ==> v.record == state.value
  {
    if state.Some? then Record(state.value) else UndefinedValue
  }

  /** A truthy `auth` in the state is the token in storage. */
  predicate Consistent(state: Option<AuthState>, stored: Option<string>)
  {
    state.Some? && Truthy(state.value.auth) ==> stored == Some(state.value.auth.text)
  }

  /** The reducer and its storage effect keep the state and the stored
      token in agreement. */
  lemma ReduceKeepsConsistent(state: Option<AuthState>, stored: Option<string>, action: AuthAction)
    requires Consistent(state, stored)
    ensures Consistent(Reduce(state, action), StoredAfter(stored, action))
  {
  }

  /** Dismissing the same errors twice changes nothing the second time. */
  lemma {:induction false} DismissErrorsTwice(state: Option<AuthState>, payload: Option<Payload>)
    ensures var action := AuthAction(DismissErrors, payload);
      Reduce(Reduce(state, action), action) == Reduce(state, action)
  {
    var action := AuthAction(DismissErrors, payload);
    var once := Reduce(state, action);
    var twice := Reduce(once, action);
    if ErrorsOf(state).Some? {
      var a := once.value.errors.value;
      var b := twice.value.errors.value;
      forall i | 0 <= i < |b|
        ensures b[i] == a[i]
      {
        assert b[i] == DismissOne(PayloadErrors(payload), a[i]);
        assert a[i] == DismissOne(PayloadErrors(payload), ErrorsOf(state).value[i]);
      }
      assert a == b;
    }
  }

  /** `delete` logs out: afterwards neither the state nor the storage holds
      a token, whatever came before. */
  lemma DeleteLogsOut(state: Option<AuthState>, stored: Option<string>, payload: Option<Payload>)
    ensures var action := AuthAction(Delete, payload);
      AuthOf(Reduce(state, action)) == Null && StoredAfter(stored, action).None?
  {
  }

  /** The provider: the reducer's state and the browser's stored token. */
  class AuthStore {
    var state: Option<AuthState>
    var storedToken: Option<string>

    predicate Valid()
      reads this
    {
      Consistent(state, storedToken)
    }

    /** `useReducer(authReducer, { auth: localStorage.getItem(TOKEN_KEY) || undefined })`. */
    constructor (stored: Option<string>)
      ensures state == Some(InitialState(stored)) && storedToken == stored
      ensures Valid()
    {
      state := Some(InitialState(stored));
      storedToken := stored;
    }

    /** `dispatch`: writes or removes the token as the reducer does, then
      replaces the state. */
    method Dispatch(action: AuthAction)
      modifies this
      ensures state == Reduce(old(state), action)
      ensures storedToken == StoredAfter(old(storedToken), action)
      ensures old(Valid()) ==> Valid()
    {
      if action.actionType == Set || action.actionType == Update {
        var payloadAuth := PayloadAuth(action.payload);
        if Truthy(payloadAuth) {
          storedToken := Some(payloadAuth.text);
        }
      } else if action.actionType == Delete {
        storedToken := None;
      }
      state := Reduce(state, action);
      if old(Valid()) {
        ReduceKeepsConsistent(old(state), old(storedToken), action);
      }
    }
  }
}
