/** The values-file picker (ui/src/components/Helm/FilePicker.tsx): the
    text beside the upload button and what choosing a file does. Reading
    the file and `yaml.parse` are outcomes passed in; `flatten` is the one
    of module Flatten. */
module FilePicker {
  import opened Wrappers
  import opened Strings
  import opened Flatten

  const NoFileSelected := "No file selected"
  /** The prefix browsers put before the name of a chosen file. */
  const FakePath := "C:\\fakepath\\"
  const NotYamlMessage := "Selected file is not a YAML"
  const InvalidFileMessage := "Invalid values file"

  /** The first of the chosen files: its name and MIME type. */
  datatype SelectedFile = SelectedFile(name: string, mimeType: string)

  /** How reading the file ends: loaded, with the parsed document (`None`
      when `yaml.parse` throws, which abandons the handler), or a read
      error. */
  datatype ReadOutcome = Loaded(parsed: Option<Yaml>) | ReadFailed

  /** Only these two MIME types are read. */
  predicate IsYamlType(mimeType: string)
  {
    mimeType == "application/x-yaml" || mimeType == "text/yaml"
  }

  /** `value.replace('C:\\fakepath\\', '')`. */
  function StripFakePath(value: string): (r: string)
    ensures IsPrefix(FakePath, value) ==> r == value[|FakePath|..]
    ensures !Includes(value, FakePath) ==> r == value
  {
    ReplaceFirstCases(value, FakePath);
    ReplaceFirst(value, FakePath, "")
  }

  /** The helper text the mount effect leaves: the input's value without
      the fake path when it has one, `No file selected` otherwise. */
  function InitialHelperText(inputValue: Option<string>): string
  {
    if inputValue.Some? && inputValue.value != "" then StripFakePath(inputValue.value) else NoFileSelected
  }

  /** A value the browser reports for a chosen file shows as the bare file
      name; no value shows `No file selected`. */
  lemma InitialHelperTextShowsName(name: string)
    ensures InitialHelperText(Some(FakePath + name)) == name
    ensures InitialHelperText(None) == NoFileSelected && InitialHelperText(Some("")) == NoFileSelected
  {
    var value := FakePath + name;
    assert IsPrefix(FakePath, value);
    assert value[|FakePath|..] == name;
  }

  /** What the picker shows and what it has passed to `onSelect`, one row
      list per call. */
  datatype PickerView = PickerView(helperText: string, error: Option<string>, selections: seq<seq<KeyValue>>)

  /** `onFileChange` with the reader's outcome: the state it leaves. */
  function AfterFileChange(view: PickerView, files: seq<SelectedFile>, read: ReadOutcome): PickerView
  {
    if |files| == 0 then view
    else
      var file := files[0];
      var named := view.(helperText := file.name);
      if IsYamlType(file.mimeType) then
        match read
        case ReadFailed => named.(error := Some(InvalidFileMessage))
        case Loaded(None) => named
        case Loaded(Some(yaml)) => named.(error := None, selections := view.selections + [ToRows(Flatten.Flatten(yaml))])
      else
        named.(error := Some(NotYamlMessage))
  }

  /** `error ? error : helperText`. */
  function Label(view: PickerView): (text: string)
    ensures view.error.None? || view.error == Some("") ==> text == view.helperText
    ensures view.error.Some? && view.error.value != "" ==> text == view.error.value
  {
    if view.error.Some? && view.error.value != "" then view.error.value else view.helperText
  }

  /** An event without files changes nothing. */
  lemma NoFileNoChange(view: PickerView, read: ReadOutcome)
    ensures AfterFileChange(view, [], read) == view
  {
  }

  /** A file of any other type is not read: the label says so and
      `onSelect` is not called. */
  lemma NonYamlRejected(view: PickerView, files: seq<SelectedFile>, read: ReadOutcome)
    requires |files| > 0 && !IsYamlType(files[0].mimeType)
    ensures var r := AfterFileChange(view, files, read);
      r.error == Some(NotYamlMessage) && r.selections == view.selections
      && r.helperText == files[0].name && Label(r) == NotYamlMessage
  {
  }

  /** A read error is reported and `onSelect` is not called. */
  lemma ReadFailureReported(view: PickerView, files: seq<SelectedFile>)
    requires |files| > 0 && IsYamlType(files[0].mimeType)
    ensures var r := AfterFileChange(view, files, ReadFailed);
      r.error == Some(InvalidFileMessage) && r.selections == view.selections && Label(r) == InvalidFileMessage
  {
  }

  /** `row` names a leaf of the document by its path and holds its text. */
  ghost predicate RowOfLeaf(yaml: Yaml, row: KeyValue)
  {
    exists st, v :: LeafAt(yaml, "", st, row.key, v) && row.value == LeafText(v)
  }

  /** The rows of a flattened document: one per key, keys distinct, each
      key the path of a leaf and each value that leaf's text. */
  lemma FlattenedRows(yaml: Yaml)
    ensures var rows := ToRows(Flatten.Flatten(yaml));
      |rows| == |Flatten.Flatten(yaml)|
      && (forall i, j :: 0 <= i < j < |rows| ==> rows[i].key != rows[j].key)
      && (forall i :: 0 <= i < |rows| ==> RowOfLeaf(yaml, rows[i]))
  {
    var d := Flatten.Flatten(yaml);
    FlattenLeaves(yaml);
    RowsOfLeaves(d, yaml);
  }

  /** The rows of a dictionary of distinct leaf paths of a document. */
  lemma RowsOfLeaves(d: Dict, yaml: Yaml)
    requires UniqueKeys(d)
    requires forall e :: e in d ==> exists st :: LeafAt(yaml, "", st, e.0, e.1)
    ensures var rows := ToRows(d);
      (forall i, j :: 0 <= i < j < |rows| ==> rows[i].key != rows[j].key)
      && (forall i :: 0 <= i < |rows| ==> RowOfLeaf(yaml, rows[i]))
  {
    var rows := ToRows(d);
    forall i | 0 <= i < |rows|
      ensures RowOfLeaf(yaml, rows[i])
    {
      assert d[i] in d;
      var st :| LeafAt(yaml, "", st, d[i].0, d[i].1);
      assert LeafAt(yaml, "", st, rows[i].key, d[i].1) && rows[i].value == LeafText(d[i].1);
    }
  }

  /** A loaded YAML file passes one row list to `onSelect`, the rows of
      the flattened document, and clears the error so that the label shows
      the file's name. */
  lemma LoadedSelectsRows(view: PickerView, files: seq<SelectedFile>, yaml: Yaml)
    requires |files| > 0 && IsYamlType(files[0].mimeType)
    ensures var r := AfterFileChange(view, files, Loaded(Some(yaml)));
      r.error.None? && Label(r) == files[0].name
      && r.selections == view.selections + [ToRows(Flatten.Flatten(yaml))]
  {
  }

  /** The picker component. */
  class Picker {
    var helperText: string
    var error: Option<string>
    /** The row lists passed to `onSelect`, oldest first. */
    var selections: seq<seq<KeyValue>>

    function View(): PickerView
      reads this
    {
      PickerView(helperText, error, selections)
    }

    /** The initial helper text and the mount effect, given the file
        input's current value. */
    constructor (inputValue: Option<string>)
      ensures View() == PickerView(InitialHelperText(inputValue), None, [])
    {
      helperText := NoFileSelected;
      error := None;
      selections := [];
      if inputValue.Some? && inputValue.value != "" {
        helperText := StripFakePath(inputValue.value);
      }
    }

    /** `onFileChange`, with the reader's `onload` or `onerror` run to its
        end. */
    method OnFileChange(files: seq<SelectedFile>, read: ReadOutcome)
      modifies this
      ensures View() == AfterFileChange(old(View()), files, read)
    {
      if |files| > 0 {
        var file := files[0];
        helperText := file.name;
        if IsYamlType(file.mimeType) {
          match read {
            case ReadFailed =>
              error := Some(InvalidFileMessage);
            case Loaded(parsed) =>
              if parsed.Some? {
                var flattened := FlattenValues(parsed.value);
                var rows := ToRows(flattened);
                selections := selections + [rows];
                error := None;
              }
          }
        } else {
          error := Some(NotYamlMessage);
        }
      }
    }
  }
}
