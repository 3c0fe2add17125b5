/** The notifications drawer (ui/src/components/NotificationsCenter/index.tsx):
    which notifications it lists under the selected filter, and in which
    order. */
module NotificationsCenter {
  import opened Seqs
  import opened Sorting
  import opened NotificationsContext

  /** The toggle's value: `all`, `unread`, or nothing once the selected
      button is clicked again (the exclusive toggle group then reports
      `null`). */
  datatype ViewFilter = All | Unread | NoFilter

  /** The drawer opens on `all`. */
  const InitialFilter: ViewFilter := All

  /** The toggle's `onChange` stores whatever value it reports. */
  function SetFilter(newFilter: ViewFilter): (f: ViewFilter)
    ensures f == newFilter
  {
    newFilter
  }

  /** The filter callback: under `unread` a notification passes when it is
      not dismissed; otherwise the callback returns the notification
      itself, an object, and so keeps it. */
  predicate Passes(filter: ViewFilter, n: Notification)
  {
    if filter == Unread then !n.dismissed else true
  }

  /** The listed notifications: those passing the filter, newest first. */
  function Shown(notifications: seq<Notification>, filter: ViewFilter): (r: seq<Notification>)
    ensures SortedDesc(r, Timestamp)
    ensures forall i :: 0 <= i < |r| ==> Passes(filter, r[i])
  {
    var kept := Filter(notifications, (n: Notification) => Passes(filter, n));
    var r := SortDesc(kept, Timestamp);
    assert forall i :: 0 <= i < |r| ==> r[i] in multiset(kept);
    r
  }

  /** Under `unread` exactly the notifications not dismissed are listed,
      each as often as it occurs. */
  lemma UnreadShowsUndismissed(notifications: seq<Notification>, x: Notification)
    ensures multiset(Shown(notifications, Unread))[x] == if x.dismissed then 0 else multiset(notifications)[x]
  {
    FilterCount(notifications, (n: Notification) => Passes(Unread, n), x);
  }

  /** Under `all`, the initial filter, and with no filter every
      notification is listed: the list is a rearrangement of them all. */
  lemma OtherFiltersShowAll(notifications: seq<Notification>, filter: ViewFilter)
    requires filter != Unread
    ensures multiset(Shown(notifications, filter)) == multiset(notifications)
    ensures |Shown(notifications, filter)| == |notifications|
  {
    FilterAll(notifications, (n: Notification) => Passes(filter, n));
  }

  /** Notifications with the same timestamp keep their relative order:
      if they already come newest first, the list is the filtered list
      itself. */
  lemma ShownOfSorted(notifications: seq<Notification>, filter: ViewFilter)
    requires SortedDesc(notifications, Timestamp)
    ensures Shown(notifications, filter) == Filter(notifications, (n: Notification) => Passes(filter, n))
  {
    var p := (n: Notification) => Passes(filter, n);
    FilterSortedDesc(notifications, p, Timestamp);
    SortDescOfSorted(Filter(notifications, p), Timestamp);
  }
}
