/** The notifications held by the UI and the reducer that changes them
    (ui/src/components/NotificationsCenter/NotificationsContext.tsx). The
    reducer compares notifications by object identity; the model compares
    them as values. */
module NotificationsContext {
  import opened Wrappers
  import opened Seqs

  datatype Kind = Info | Success | Warning | Error

  /** A notification as the UI holds it. */
  datatype Notification = Notification(
    title: string,
    description: string,
    kind: Kind,
    dismissed: bool,
    timestamp: int,
    href: Option<string>,
    actionText: Option<string>)

  /** The action names: the three the type allows, and any other string,
      which the reducer's `default` branch handles. */
  datatype ActionType = Add | Dismiss | Delete | Unknown(name: string)

  datatype NotificationAction = NotificationAction(actionType: ActionType, payload: Notification)

  function Timestamp(n: Notification): int
  {
    n.timestamp
  }

  /** A notification with its `dismissed` flag cleared: what is left of it
      when one ignores whether it was read. */
  function Unflagged(n: Notification): Notification
  {
    n.(dismissed := false)
  }

  /** `notificationsReducer`. */
  function Reduce(notifications: seq<Notification>, action: NotificationAction): (r: seq<Notification>)
    ensures action.actionType == Add ==>
      |r| == |notifications| + 1 && r[..|notifications|] == notifications && r[|notifications|] == action.payload
    ensures action.actionType == Dismiss ==>
      |r| == |notifications|
      && forall i :: 0 <= i < |r| ==>
           (r[i].dismissed <==> notifications[i] == action.payload)
           && Unflagged(r[i]) == Unflagged(notifications[i])
    ensures action.actionType.Unknown? ==> r == notifications
  {
    match action.actionType
    case Add => notifications + [action.payload]
    case Dismiss =>
      seq(|notifications|, i requires 0 <= i < |notifications| =>
        notifications[i].(dismissed := notifications[i] == action.payload))
    case Delete => Filter(notifications, (n: Notification) => n != action.payload)
    case Unknown(_) => notifications
  }

  /** `delete` removes every copy of the payload and nothing else: each
      other notification stays as often as it was there, in its order. */
  lemma DeleteRemovesPayload(notifications: seq<Notification>, payload: Notification, x: Notification)
    ensures var r := Reduce(notifications, NotificationAction(Delete, payload));
      multiset(r)[x] == (if x == payload then 0 else multiset(notifications)[x])
      && Subsequence(r, notifications)
  {
    FilterCount(notifications, (n: Notification) => n != payload, x);
    FilterSubsequence(notifications, (n: Notification) => n != payload);
  }

  /** `a` is the start of `b`. */
  predicate IsPrefixOf(a: seq<Notification>, b: seq<Notification>)
  {
    |a| <= |b| && b[..|a|] == a
  }

  /** No action reorders the entries: `add` keeps the old ones as a
      prefix, `dismiss` keeps every entry at its place up to the flag,
      `delete` keeps a subsequence and an unknown action keeps the list. */
  lemma NoReorder(notifications: seq<Notification>, action: NotificationAction)
    ensures var r := Reduce(notifications, action);
      match action.actionType
      case Add => IsPrefixOf(notifications, r)
      case Dismiss => |r| == |notifications| && forall i :: 0 <= i < |r| ==> Unflagged(r[i]) == Unflagged(notifications[i])
      case Delete => Subsequence(r, notifications)
      case Unknown(_) => r == notifications
  {
    if action.actionType == Delete {
      FilterSubsequence(notifications, (n: Notification) => n != action.payload);
    }
  }
}
