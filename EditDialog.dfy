/** The dialog that edits a release's values
    (ui/src/components/Helm/EditDialog.tsx): the rows of `--set` values
    and the operations on them, the draft row, rows imported from a file,
    the help command, the Update button and the outcome of the upgrade.
    Its in-file `flatten` and file picker are those of modules Flatten and
    FilePicker. */
module EditDialog {
  import opened Wrappers
  import opened Strings
  import opened Seqs
  import opened Flatten
  import opened HelmClient

  /** `workload.chart.split('-').slice(0, -1).join('-')`, the dialog's own
      copy of the expression `HelmClient.ChartName` models; it is defined
      as that function. */
  function AppName(chart: string): (n: string)
    ensures '-' in chart ==> ChartOf(n, ChartVersion(chart)) == chart
    ensures '-' !in chart ==> n == ""
  {
    if '-' in chart then ChartSplit(chart); ChartName(chart) else ChartName(chart)
  }

  /** The application name of a chart built from a name and a version
      without `-` is that name. */
  lemma AppNameOfChart(base: string, version: string)
    requires '-' !in version
    ensures AppName(ChartOf(base, version)) == base
  {
    ChartRoundTrip(base, version);
  }

  /** The command the dialog offers for reading a chart's default values. */
  function HelpCommand(workload: HelmListItem): string
  {
    "helm show values " + ChartsRepository + AppName(workload.chart) + " --version " + workload.version
  }

  /** The help command names the chart reference and version that an edit
      sends to `helm upgrade`: the upgrade without an artifact, which is the
      one `editHelmChart` runs. */
  lemma HelpCommandMatchesUpgrade(workload: HelmListItem, values: seq<KeyValue>, description: string)
    ensures var args := UpgradeArgs(workload, values, None, description);
      HelpCommand(workload) == "helm show values " + args[2] + " --version " + workload.version
  {
    var args := UpgradeArgs(workload, values, None, description);
    EditReference(workload, values, description);
    assert "helm show values " + ChartsRepository + AppName(workload.chart) == "helm show values " + args[2];
  }

  /** The chart reference of an edit's upgrade is the repository followed
      by the application name. */
  lemma EditReference(workload: HelmListItem, values: seq<KeyValue>, description: string)
    ensures UpgradeArgs(workload, values, None, description)[2] == ChartsRepository + AppName(workload.chart)
  {
    UpgradeArgsReference(workload, values, None, description);
    assert AppName(workload.chart) == ChartName(workload.chart);
  }

  /** Row `i` with a new key: every other row, and row `i`'s value, stay. */
  function EditKey(values: seq<KeyValue>, i: int, key: string): (r: seq<KeyValue>)
    ensures |r| == |values|
    ensures forall j :: 0 <= j < |values| ==> r[j].value == values[j].value
    ensures forall j :: 0 <= j < |values| && j != i ==> r[j] == values[j]
    ensures 0 <= i < |values| ==> r[i].key == key
  {
    seq(|values|, j requires 0 <= j < |values| => if i == j then KeyValue(key, values[j].value) else values[j])
  }

  /** Row `i` with a new value: every other row, and row `i`'s key, stay. */
  function EditValue(values: seq<KeyValue>, i: int, value: string): (r: seq<KeyValue>)
    ensures |r| == |values|
    ensures forall j :: 0 <= j < |values| ==> r[j].key == values[j].key
    ensures forall j :: 0 <= j < |values| && j != i ==> r[j] == values[j]
    ensures 0 <= i < |values| ==> r[i].value == value
  {
    seq(|values|, j requires 0 <= j < |values| => if i == j then KeyValue(values[j].key, value) else values[j])
  }

  /** Editing row `i`'s key and value, in either order, replaces that row
      and nothing else. */
  lemma EditsReplaceRow(values: seq<KeyValue>, i: nat, key: string, value: string)
    requires i < |values|
    ensures EditValue(EditKey(values, i, key), i, value) == values[i := KeyValue(key, value)]
    ensures EditKey(EditValue(values, i, value), i, key) == values[i := KeyValue(key, value)]
  {
  }

  /** `values.filter((v, j) => j !== i)`, where `offset` is the index of
      `values[0]` in the whole list. */
  function WithoutIndex(values: seq<KeyValue>, i: int, offset: nat): (r: seq<KeyValue>)
    ensures offset <= i < offset + |values| ==> r == values[..i - offset] + values[i - offset + 1..]
    ensures !(offset <= i < offset + |values|) ==> r == values
    decreases |values|
  {
    if values == [] then []
    else
      var rest := WithoutIndex(values[1..], i, offset + 1);
      if i == offset then
        rest
      else
        assert [values[0]] + values[1..] == values;
        [values[0]] + rest
  }

  /** The remove button of row `i`. */
  function RemoveRow(values: seq<KeyValue>, i: int): (r: seq<KeyValue>)
    ensures 0 <= i < |values| ==> r == values[..i] + values[i + 1..]
    ensures !(0 <= i < |values|) ==> r == values
  {
    WithoutIndex(values, i, 0)
  }

  /** Removing row `i` drops exactly that row: one row fewer, the others
      in their order, and putting the row back restores the list. */
  lemma RemoveRowDropsOne(values: seq<KeyValue>, i: nat, row: KeyValue)
    requires i <= |values|
    ensures RemoveRow(values[..i] + [row] + values[i..], i) == values
    ensures i < |values| ==> |RemoveRow(values, i)| == |values| - 1
    ensures forall j :: 0 <= j < i ==> RemoveRow(values + [row], i)[j] == values[j]
  {
    var w := values[..i] + [row] + values[i..];
    assert w[..i] == values[..i];
    assert w[i + 1..] == values[i..];
    assert values[..i] + values[i..] == values;
  }

  /** The row being typed: `currentValue`, whose fields may be absent. */
  datatype Draft = Draft(key: Option<string>, value: Option<string>)

  /** `{}`, which is also how the undefined first `currentValue` behaves. */
  const EmptyDraft := Draft(None, None)

  /** `currentValue?.key || ''` and `currentValue?.value || ''`. */
  function ShownKey(d: Draft): string
  {
    if d.key.Some? then d.key.value else ""
  }

  function ShownValue(d: Draft): string
  {
    if d.value.Some? then d.value.value else ""
  }

  /** `setCurrentValue({ ...currentValue, key })`: the key replaced, the
      value kept. */
  function SetDraftKey(d: Draft, key: string): (r: Draft)
    ensures ShownKey(r) == key && ShownValue(r) == ShownValue(d)
  {
    d.(key := Some(key))
  }

  function SetDraftValue(d: Draft, value: string): (r: Draft)
    ensures ShownValue(r) == value && ShownKey(r) == ShownKey(d)
  {
    d.(value := Some(value))
  }

  /** The add button: the rows after it, and the draft it leaves. */
  datatype Added = Added(values: seq<KeyValue>, draft: Draft)

  function AddDraft(values: seq<KeyValue>, d: Draft): Added
  {
    if d.key.Some? && d.key.value != "" && d.value.Some? && d.value.value != "" then
      Added(values + [KeyValue(d.key.value, d.value.value)], EmptyDraft)
    else
      Added(values, EmptyDraft)
  }

  /** Adding appends the typed row exactly when both its key and value are
      non-empty, and always empties the draft. */
  lemma AddDraftCases(values: seq<KeyValue>, d: Draft)
    ensures AddDraft(values, d).draft == EmptyDraft
    ensures ShownKey(d) != "" && ShownValue(d) != "" ==>
      AddDraft(values, d).values == values + [KeyValue(ShownKey(d), ShownValue(d))]
    ensures ShownKey(d) == "" || ShownValue(d) == "" ==> AddDraft(values, d).values == values
  {
  }

  /** Typing a key and a value and pressing add appends that row. */
  lemma TypedRowIsAdded(values: seq<KeyValue>, d: Draft, key: string, value: string)
    requires key != "" && value != ""
    ensures AddDraft(values, SetDraftValue(SetDraftKey(d, key), value)).values == values + [KeyValue(key, value)]
  {
  }

  /** `setValues([...values, ...newValues])` for rows chosen in a file. */
  function ImportRows(values: seq<KeyValue>, newValues: seq<KeyValue>): (r: seq<KeyValue>)
    ensures |r| == |values| + |newValues|
    ensures r[..|values|] == values && r[|values|..] == newValues
  {
    values + newValues
  }

  /** Importing a file keeps the rows already there, in front of one row
      per flattened key of the file. */
  lemma ImportFlattenedFile(values: seq<KeyValue>, yaml: Yaml)
    ensures var r := ImportRows(values, ToRows(Flatten.Flatten(yaml)));
      |r| == |values| + |Flatten.Flatten(yaml)|
      && r[..|values|] == values
      && forall i :: 0 <= i < |Flatten.Flatten(yaml)| ==>
           r[|values| + i] == KeyValue(Flatten.Flatten(yaml)[i].0, LeafText(Flatten.Flatten(yaml)[i].1))
  {
    var rows := ToRows(Flatten.Flatten(yaml));
    var r := ImportRows(values, rows);
    forall i | 0 <= i < |Flatten.Flatten(yaml)|
      ensures r[|values| + i] == rows[i]
    {
      assert r[|values|..][i] == rows[i];
    }
  }

  /** `'ready' | 'updating' | 'error'`. */
  datatype DialogState = Ready | Updating | UpdateFailed

  /** The Update button: disabled while updating, and with no rows. */
  predicate UpdateDisabled(state: DialogState, values: seq<KeyValue>)
  {
    state == Updating || |values| == 0
  }

  /** Outside an update, adding a complete row enables the Update button;
      and removing the last row disables it. */
  lemma UpdateEnabledByRows(state: DialogState, values: seq<KeyValue>, d: Draft)
    requires state != Updating
    ensures ShownKey(d) != "" && ShownValue(d) != "" ==> !UpdateDisabled(state, AddDraft(values, d).values)
    ensures |values| == 1 ==> UpdateDisabled(state, RemoveRow(values, 0))
    ensures UpdateDisabled(Updating, values)
  {
    AddDraftCases(values, d);
  }

  /** The dialog's state and its error. */
  datatype Dialog = Dialog(state: DialogState, error: Option<string>)

  /** `upgrade()` once `editHelmChart` settles: back to `ready` when it
      resolves, `error` with the reason when it rejects, `updating` while
      it has not settled. */
  function AfterUpgrade(dialog: Dialog, result: Settled<HelmListItem>): (r: Dialog)
    ensures r.state == Updating <==> result.Unsettled?
    ensures result.Resolved? ==> r.state == Ready
    ensures result.Rejected? ==> r.error == Some(result.reason)
    ensures !result.Rejected? ==> r.error == dialog.error
  {
    match result
    case Resolved(_) => Dialog(Ready, dialog.error)
    case Rejected(reason) => Dialog(UpdateFailed, Some(reason))
    case Unsettled => Dialog(Updating, dialog.error)
  }

  /** The error view replaces the form while the error is a non-empty
      string; it shows the error's non-empty lines. */
  predicate ShowsError(dialog: Dialog)
  {
    dialog.error.Some? && dialog.error.value != ""
  }

  function ErrorLines(dialog: Dialog): (lines: seq<string>)
    requires ShowsError(dialog)
    ensures lines == Filter(Split(dialog.error.value, '\n'), NonEmptyLine)
    ensures forall i :: 0 <= i < |lines| ==> lines[i] != "" && '\n' !in lines[i]
    ensures Concat(lines) == Remove(dialog.error.value, '\n')
  {
    NonEmptyLines(dialog.error.value)
  }

  /** `Go back` and `Cancel update` clear the error. `Cancel update` also
      calls `close()`, which `CancelUpdateAsWritten` models. */
  function ClearError(dialog: Dialog): (r: Dialog)
    ensures !ShowsError(r) && r.state == dialog.state
  {
    dialog.(error := None)
  }

  /** What a button of the error view leaves: the dialog, and whether it
      called the owner's `onClose`, the only way the owner learns that the
      dialog is to close. */
  datatype ButtonEffect = ButtonEffect(dialog: Dialog, ownerClosed: bool)

  /** `Go back`: the error is cleared and the dialog stays open. */
  function GoBack(dialog: Dialog): (e: ButtonEffect)
    ensures !ShowsError(e.dialog) && e.dialog.state == dialog.state && !e.ownerClosed
  {
    ButtonEffect(ClearError(dialog), false)
  }

  /** `Cancel update` as written: the error is cleared, then `close()` is
      called. The component has no `close` of its own (its prop is
      `onClose`), so this is the browser's `window.close`, and the owner is
      never told. */
  function CancelUpdateAsWritten(dialog: Dialog): (e: ButtonEffect)
    ensures !ShowsError(e.dialog) && e.dialog.state == dialog.state && !e.ownerClosed
  {
    ButtonEffect(ClearError(dialog), false)
  }

  /** As written, `Cancel update` leaves the owner exactly where `Go back`
      does: the dialog stays open and shows the form again. */
  lemma CancelUpdateAsWrittenIsGoBack(dialog: Dialog)
    ensures CancelUpdateAsWritten(dialog) == GoBack(dialog)
  {
  }

  /** `Cancel update` corrected: the error is cleared and `onClose` is
      called. */
  function CancelUpdate(dialog: Dialog): (e: ButtonEffect)
    ensures !ShowsError(e.dialog) && e.dialog.state == dialog.state && e.ownerClosed
  {
    ButtonEffect(ClearError(dialog), true)
  }

  /** Corrected, the two buttons leave the same dialog, and only
      `Cancel update` closes it. */
  lemma CancelUpdateClosesDialog(dialog: Dialog)
    ensures CancelUpdate(dialog).dialog == GoBack(dialog).dialog
    ensures CancelUpdate(dialog).ownerClosed && !GoBack(dialog).ownerClosed
  {
  }

  /** A rejected upgrade with a message shows the error view, whose lines
      hold the message's text; going back returns to the form, which can
      be submitted again as long as it has rows. */
  lemma RejectedUpgradeShowsError(dialog: Dialog, reason: string, values: seq<KeyValue>)
    requires reason != ""
    ensures ShowsError(AfterUpgrade(dialog, Rejected(reason)))
    ensures Concat(ErrorLines(AfterUpgrade(dialog, Rejected(reason)))) == Remove(reason, '\n')
    ensures var back := ClearError(AfterUpgrade(dialog, Rejected(reason)));
      !ShowsError(back) && (UpdateDisabled(back.state, values) <==> |values| == 0)
  {
  }
}
