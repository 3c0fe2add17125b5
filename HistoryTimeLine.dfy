/** The revision timeline of a workload
    (ui/src/pages/WorkloadDetailsPage/HistoryTimeLine.tsx): the summary
    label, and per revision its status icon, its description and the
    connector drawn towards the next revision. `JSON.parse` is a
    parameter. */
module HistoryTimeLine {
  import opened Wrappers
  import opened Strings
  import opened Seqs
  import opened HelmClient

  /** What `JSON.parse(description)` gives: a parse error, or a value
      with the `message` field read from it (`None` when the field is
      absent or the value has no fields). */
  datatype Parsed = Unparsable | Parsed(message: Option<string>)

  /** `parseDescription`: the JSON `message` when it is a non-empty
      string, the description itself otherwise. */
  function ParseDescription(description: string, parse: string -> Parsed): (shown: string)
    ensures shown == description || (parse(description).Parsed? && parse(description).message == Some(shown) && shown != "")
    ensures parse(description).Unparsable? ==> shown == description
    ensures parse(description).Parsed? && parse(description).message.Some? && parse(description).message.value != "" ==>
      shown == parse(description).message.value
  {
    match parse(description)
    case Unparsable => description
    case Parsed(message) => if message.Some? && message.value != "" then message.value else description
  }

  /** The descriptions this client writes are JSON records: whatever parses
      such a record back to its message shows the message. */
  lemma ParseDescriptionOfClientRecord(d: Description, stringify: Description -> string, parse: string -> Parsed)
    requires parse(stringify(d)) == Parsed(Some(d.message))
    ensures d.message != "" ==> ParseDescription(stringify(d), parse) == d.message
    ensures d.message == "" ==> ParseDescription(stringify(d), parse) == stringify(d)
  {
  }

  predicate IsFailed(h: HistoryItem)
  {
    h.status == "failed"
  }

  /** The number of failed revisions. */
  function FailedCount(history: seq<HistoryItem>): (n: nat)
    ensures n <= |history|
  {
    |Filter(history, IsFailed)|
  }

  /** Some revision failed exactly when the count of failed ones is not
      zero. */
  lemma FailedCountPositive(history: seq<HistoryItem>)
    ensures FailedCount(history) > 0 <==> exists i :: 0 <= i < |history| && IsFailed(history[i])
  {
    if exists i :: 0 <= i < |history| && IsFailed(history[i]) {
      var i :| 0 <= i < |history| && IsFailed(history[i]);
      assert history[i] in Filter(history, IsFailed);
    }
    if FailedCount(history) > 0 {
      var r := Filter(history, IsFailed);
      assert r[0] in history && IsFailed(r[0]);
    }
  }

  /** The summary under the heading: `<n> error` or `<n> errors` when some
      revisions failed, otherwise `<count> revisions`. */
  function HistoryLabel(history: seq<HistoryItem>): string
  {
    if FindIndex(history, IsFailed) >= 0 then
      var n := FailedCount(history);
      NatToString(n) + " error" + (if n > 1 then "s" else "")
    else
      NatToString(|history|) + " revisions"
  }

  /** With failed revisions the label counts them, with a plural `s`
      exactly when there are several. */
  lemma HistoryLabelErrors(history: seq<HistoryItem>)
    requires FailedCount(history) > 0
    ensures FailedCount(history) == 1 ==> HistoryLabel(history) == NatToString(1) + " error"
    ensures FailedCount(history) > 1 ==> HistoryLabel(history) == NatToString(FailedCount(history)) + " errors"
  {
    FailedCountPositive(history);
    FindIndexFound(history, IsFailed);
    var n := FailedCount(history);
    var digits := NatToString(n);
    assert HistoryLabel(history) == digits + " error" + (if n > 1 then "s" else "");
    if n > 1 {
      assert digits + " error" + "s" == digits + " errors";
    } else {
      assert digits + " error" + "" == digits + " error";
    }
  }

  /** Without failed revisions the label counts all revisions. */
  lemma HistoryLabelRevisions(history: seq<HistoryItem>)
    requires FailedCount(history) == 0
    ensures HistoryLabel(history) == NatToString(|history|) + " revisions"
  {
    FailedCountPositive(history);
    FindIndexFound(history, IsFailed);
  }

  /** One row of the timeline. */
  datatype Entry = Entry(status: WorkloadStatus, description: string, connector: bool)

  /** The timeline's rows, one per revision in order; every row except the
      last has a connector. */
  function Entries(history: seq<HistoryItem>, parse: string -> Parsed): (rows: seq<Entry>)
    ensures |rows| == |history|
    ensures forall i :: 0 <= i < |history| ==>
      rows[i].status == MapStatus(history[i].status)
      && rows[i].description == ParseDescription(history[i].description, parse)
      && (rows[i].connector <==> i < |history| - 1)
  {
    seq(|history|, i requires 0 <= i < |history| =>
      Entry(MapStatus(history[i].status), ParseDescription(history[i].description, parse), i < |history| - 1))
  }

  /** The number of connectors among rows. */
  function Connectors(rows: seq<Entry>): nat
  {
    if rows == [] then 0 else (if rows[0].connector then 1 else 0) + Connectors(rows[1..])
  }

  /** Exactly one connector fewer than revisions is drawn, none after the
      last one. */
  lemma ConnectorCount(history: seq<HistoryItem>, parse: string -> Parsed)
    ensures Connectors(Entries(history, parse)) == if |history| == 0 then 0 else |history| - 1
    ensures |history| > 0 ==> !Entries(history, parse)[|history| - 1].connector
  {
    var rows := Entries(history, parse);
    ConnectorsAllButLast(rows);
  }

  /** Rows connected everywhere but at the end have one connector fewer
      than rows. */
  lemma {:induction false} ConnectorsAllButLast(rows: seq<Entry>)
    requires forall i :: 0 <= i < |rows| ==> (rows[i].connector <==> i < |rows| - 1)
    ensures Connectors(rows) == if |rows| == 0 then 0 else |rows| - 1
  {
    if |rows| > 1 {
      ConnectorsAllButLast(rows[1..]);
    }
  }
}
