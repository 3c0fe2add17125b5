/** The backend's notification store (backend/clients/notifications.js):
    a list of notifications kept in one JSON file, read, changed and
    written back whole by each operation. The file's content is the
    `notifications` field of a class; a file that does not exist reads as
    the empty list, which is the state a new store starts in. */
module NotificationStore {
  import opened Wrappers
  import opened Seqs
  import opened Sorting

  /** A stored notification: its id, its timestamp, and its other fields
      (title, description, type, ...) by name. */
  datatype StoredNotification = StoredNotification(id: string, timestamp: int, fields: map<string, string>)

  /** The object given to `updateNotification`: the fields it sets. */
  datatype Patch = Patch(id: Option<string>, timestamp: Option<int>, fields: map<string, string>)

  function Timestamp(n: StoredNotification): int
  {
    n.timestamp
  }

  function Id(n: StoredNotification): string
  {
    n.id
  }

  /** Some stored notification has this id. */
  predicate HasId(s: seq<StoredNotification>, id: string)
  {
    exists i :: 0 <= i < |s| && s[i].id == id
  }

  /** No two stored notifications share an id. */
  predicate UniqueIds(s: seq<StoredNotification>)
  {
    DistinctBy(s, Id)
  }

  function DuplicateIdMessage(id: string): string
  {
    "Notification with the same id already exists [notificationId=" + id + "]"
  }

  function MissingIdMessage(id: string): string
  {
    "Notification does not exist [notificationId=" + id + "]"
  }

  /** `Object.assign(n, update)`: every field the patch sets takes the
      patch's value; every other field keeps its own. */
  function Merge(n: StoredNotification, p: Patch): (m: StoredNotification)
    ensures m.id == (if p.id.Some? then p.id.value else n.id)
    ensures m.timestamp == (if p.timestamp.Some? then p.timestamp.value else n.timestamp)
    ensures m.fields.Keys == n.fields.Keys + p.fields.Keys
    ensures forall k :: k in p.fields ==> m.fields[k] == p.fields[k]
    ensures forall k :: k in n.fields && k !in p.fields ==> m.fields[k] == n.fields[k]
  {
    StoredNotification(
      if p.id.Some? then p.id.value else n.id,
      if p.timestamp.Some? then p.timestamp.value else n.timestamp,
      n.fields + p.fields)
  }

  /** What `saveNotification` writes: the old list and the new entry,
      sorted newest first. */
  function Saved(s: seq<StoredNotification>, n: StoredNotification): (r: seq<StoredNotification>)
    ensures |r| == |s| + 1
    ensures multiset(r) == multiset(s) + multiset{n}
    ensures SortedDesc(r, Timestamp)
  {
    SortDesc(s + [n], Timestamp)
  }

  /** What `deleteNotification` writes: every entry with another id, in
      the order they were. */
  function WithoutId(s: seq<StoredNotification>, id: string): (r: seq<StoredNotification>)
    ensures forall i :: 0 <= i < |r| ==> r[i].id != id && r[i] in s
    ensures forall i :: 0 <= i < |s| && s[i].id != id ==> s[i] in r
  {
    Filter(s, (n: StoredNotification) => n.id != id)
  }

  /** What `updateNotification` writes: the entries with the id merged with
      the patch, every other entry as it was, in the same order. */
  function Updated(s: seq<StoredNotification>, id: string, p: Patch): (r: seq<StoredNotification>)
    ensures |r| == |s|
    ensures forall i :: 0 <= i < |s| ==> r[i] == if s[i].id == id then Merge(s[i], p) else s[i]
  {
    if s == [] then []
    else [if s[0].id == id then Merge(s[0], p) else s[0]] + Updated(s[1..], id, p)
  }

  /** The store: the content of the notifications file. */
  class NotificationStore {
    var notifications: seq<StoredNotification>

    /** Every entry has its own id. */
    predicate Valid()
      reads this
    {
      UniqueIds(notifications)
    }

    /** A store whose file does not exist yet. */
    constructor ()
      ensures notifications == []
      ensures Valid()
    {
      notifications := [];
    }

    /** `readNotifications`. */
    method ReadNotifications() returns (list: seq<StoredNotification>)
      ensures list == notifications
    {
      list := notifications;
    }

    /** `saveNotification`: refuses an id already present, otherwise adds
      the notification and writes the list back sorted newest first. */
    method SaveNotification(n: StoredNotification) returns (r: Outcome<string>)
      modifies this
      ensures r.Fail? <==> HasId(old(notifications), n.id)
      ensures r.Fail? ==> r.error == DuplicateIdMessage(n.id) && notifications == old(notifications)
      ensures r.Pass? ==> notifications == Saved(old(notifications), n)
      ensures old(Valid()) ==> Valid()
    {
      var current := ReadNotifications();
      if FindIndex(current, (m: StoredNotification) => m.id == n.id) >= 0 {
        return Fail(DuplicateIdMessage(n.id));
      }
      current := current + [n];
      current := SortDesc(current, Timestamp);
      notifications := current;
      if old(Valid()) {
        SaveKeepsIdsUnique(old(notifications), n);
      }
      return Pass;
    }

    /** `deleteNotification`: refuses an id not present, otherwise writes
      back every entry with another id. */
    method DeleteNotification(id: string) returns (r: Outcome<string>)
      modifies this
      ensures r.Fail? <==> !HasId(old(notifications), id)
      ensures r.Fail? ==> r.error == MissingIdMessage(id) && notifications == old(notifications)
      ensures r.Pass? ==> notifications == WithoutId(old(notifications), id)
      ensures old(Valid()) ==> Valid()
    {
      var current := ReadNotifications();
      if FindIndex(current, (m: StoredNotification) => m.id == id) < 0 {
        return Fail(MissingIdMessage(id));
      }
      notifications := WithoutId(current, id);
      if old(Valid()) {
        DeleteKeepsIdsUnique(current, id);
      }
      return Pass;
    }

    /** `updateNotification`: refuses an id not present, otherwise merges
      the patch into the entries with that id. */
    method UpdateNotification(id: string, p: Patch) returns (r: Outcome<string>)
      modifies this
      ensures r.Fail? <==> !HasId(old(notifications), id)
      ensures r.Fail? ==> r.error == MissingIdMessage(id) && notifications == old(notifications)
      ensures r.Pass? ==> notifications == Updated(old(notifications), id, p)
      ensures old(Valid()) && (p.id.None? || p.id == Some(id)) ==> Valid()
    {
      var current := ReadNotifications();
      if FindIndex(current, (m: StoredNotification) => m.id == id) < 0 {
        return Fail(MissingIdMessage(id));
      }
      notifications := Updated(current, id, p);
      if old(Valid()) && (p.id.None? || p.id == Some(id)) {
        UpdateKeepsIdsUnique(current, id, p);
      }
      return Pass;
    }
  }

  /** Saving a notification with a new id keeps the ids unique. */
  lemma SaveKeepsIdsUnique(s: seq<StoredNotification>, n: StoredNotification)
    requires UniqueIds(s) && !HasId(s, n.id)
    ensures UniqueIds(Saved(s, n))
  {
    var t := s + [n];
    assert UniqueIds(t) by {
      forall i, j | 0 <= i < j < |t|
        ensures Id(t[i]) != Id(t[j])
      {
        if j == |s| {
          assert t[i] == s[i];
        } else {
          assert t[i] == s[i] && t[j] == s[j];
        }
      }
    }
    PermutationDistinctBy(t, Saved(s, n), Id);
  }

  /** Saving into a list that is already newest first puts the new entry
      behind every entry at least as new and in front of the first older
      one; the other entries keep their order. */
  lemma SaveIntoSorted(s: seq<StoredNotification>, n: StoredNotification)
    requires SortedDesc(s, Timestamp)
    ensures var k := InsertIndex(s, n, Timestamp);
      Saved(s, n) == s[..k] + [n] + s[k..]
      && (forall i :: 0 <= i < k ==> s[i].timestamp >= n.timestamp)
      && (k < |s| ==> s[k].timestamp < n.timestamp)
  {
    SortDescAppend(s, n, Timestamp);
    InsertDescShape(s, n, Timestamp);
  }

  /** Deleting keeps the rest in their order: it works on each part of the
      list separately, and a sorted list stays sorted. */
  lemma DeleteKeepsOrder(a: seq<StoredNotification>, b: seq<StoredNotification>, id: string)
    ensures WithoutId(a + b, id) == WithoutId(a, id) + WithoutId(b, id)
    ensures SortedDesc(a, Timestamp) ==> SortedDesc(WithoutId(a, id), Timestamp)
  {
    FilterAppend(a, b, (n: StoredNotification) => n.id != id);
    if SortedDesc(a, Timestamp) {
      FilterSortedDesc(a, (n: StoredNotification) => n.id != id, Timestamp);
    }
  }

  /** Deleting removes exactly the entries with the id: every other entry
      stays as often as it was there. */
  lemma DeleteCounts(s: seq<StoredNotification>, id: string, x: StoredNotification)
    ensures multiset(WithoutId(s, id))[x] == if x.id != id then multiset(s)[x] else 0
  {
    FilterCount(s, (n: StoredNotification) => n.id != id, x);
  }

  /** Deleting keeps the ids unique. */
  lemma DeleteKeepsIdsUnique(s: seq<StoredNotification>, id: string)
    requires UniqueIds(s)
    ensures UniqueIds(WithoutId(s, id))
  {
    var r := WithoutId(s, id);
    forall x
      ensures multiset(r)[x] <= multiset(s)[x]
    {
      DeleteCounts(s, id, x);
    }
    assert multiset(r) <= multiset(s);
    DistinctByCounts(s, Id);
    NoRepeats(r);
    forall i, j | 0 <= i < j < |r|
      ensures Id(r[i]) != Id(r[j])
    {
      var p :| 0 <= p < |s| && s[p] == r[i];
      var q :| 0 <= q < |s| && s[q] == r[j];
      if p < q {
        assert Id(s[p]) != Id(s[q]);
      } else {
        assert Id(s[q]) != Id(s[p]);
      }
    }
  }

  /** An update that does not move an entry to another id keeps the ids
      unique. */
  lemma UpdateKeepsIdsUnique(s: seq<StoredNotification>, id: string, p: Patch)
    requires UniqueIds(s) && (p.id.None? || p.id == Some(id))
    ensures UniqueIds(Updated(s, id, p))
  {
    var r := Updated(s, id, p);
    assert forall i :: 0 <= i < |s| ==> r[i].id == s[i].id;
    forall i, j | 0 <= i < j < |r|
      ensures Id(r[i]) != Id(r[j])
    {
      assert Id(s[i]) != Id(s[j]);
    }
  }

  /** An update that leaves timestamps alone keeps the list sorted. */
  lemma UpdateKeepsSorted(s: seq<StoredNotification>, id: string, p: Patch)
    requires SortedDesc(s, Timestamp) && p.timestamp.None?
    ensures SortedDesc(Updated(s, id, p), Timestamp)
  {
    var r := Updated(s, id, p);
    assert forall i :: 0 <= i < |s| ==> Timestamp(r[i]) == Timestamp(s[i]);
  }

  /** With unique ids an update changes exactly one entry. */
  lemma UpdateChangesOne(s: seq<StoredNotification>, id: string, p: Patch)
    requires UniqueIds(s) && HasId(s, id)
    ensures exists k :: 0 <= k < |s| && s[k].id == id && Updated(s, id, p) == s[k := Merge(s[k], p)]
  {
    var k :| 0 <= k < |s| && s[k].id == id;
    forall j | 0 <= j < |s| && j != k
      ensures s[j].id != id
    {
      if j < k {
        assert Id(s[j]) != Id(s[k]);
      } else {
        assert Id(s[k]) != Id(s[j]);
      }
    }
    assert Updated(s, id, p) == s[k := Merge(s[k], p)];
  }
}
