/** The helm client of the UI (ui/src/clients/helm.ts): release status
    mapping, the `<name>-<version>` chart strings, the argument lists of
    `helm install`/`upgrade`/`uninstall`/`registry login`, the collection of
    streamed output with its exit-code rule, and the release searches.
    Every `helm` invocation is an abstract outcome handed in by the caller;
    `JSON.parse`, `JSON.stringify` and the branch pattern are parameters. */
module HelmClient {
  import opened Wrappers
  import opened Strings
  import opened Flatten
  import opened Seqs

  const Registry := "dp.apps.rancher.io"
  const ChartsRegistry := "dp.apps.rancher.io/charts"
  const ChartsRepository := "oci://dp.apps.rancher.io/charts/"
  /** The label put on, and selected by, every release the extension installs. */
  const Matcher := "source=application-collection-extension"
  /** The Kubernetes pull secret the charts are installed with. */
  const PullSecret := "application-collection"
  const PullSecretKey := "global.imagePullSecrets[0].name"
  const SecretMissing := "Secret application-collection does not exist. Please refresh the authentication settings."
  const HelmRequired := "helm required on host machine"
  const InstallMessage := "Generated by Application Collection extension"

  /** The values `installHelmChart` and `upgradeHelmChart` use when the
      caller passes none. */
  const DefaultValues := [KeyValue(PullSecretKey, PullSecret)]

  /** The statuses helm reports for a release. */
  const HelmReleaseStatuses: set<string> :=
    {"deployed", "unknown", "uninstalled", "superseded", "failed", "uninstalling",
     "pending-install", "pending-upgrade", "pending-rollback"}

  datatype WorkloadStatus = NotRunning | Running | Loading | Error

  /** `mapStatus`: every string maps to exactly one workload status, and
      anything helm does not report maps to `NotRunning`. */
  function MapStatus(status: string): (w: WorkloadStatus)
    ensures w == Running <==> status in {"superseded", "deployed"}
    ensures w == Error <==> status in {"unknown", "failed"}
    ensures w == Loading <==> status in {"uninstalling", "pending-install", "pending-upgrade", "pending-rollback"}
    ensures w == NotRunning <==> status == "uninstalled" || status !in HelmReleaseStatuses
  {
    match status
    case "superseded" => Running
    case "deployed" => Running
    case "unknown" => Error
    case "failed" => Error
    case "uninstalling" => Loading
    case "pending-install" => Loading
    case "pending-upgrade" => Loading
    case "pending-rollback" => Loading
    case _ => NotRunning
  }

  // ---------------------------------------------------------------------
  // Chart strings

  /** The version reported for a release: the text after the last `-` of
      its chart, the whole chart when it has none. */
  function ChartVersion(chart: string): (v: string)
    ensures '-' !in v
    ensures |v| <= |chart| && chart[|chart| - |v|..] == v
    ensures '-' !in chart ==> v == chart
    ensures '-' in chart ==> chart[|chart| - |v| - 1] == '-'
  {
    AfterLast(chart, '-')
  }

  /** The chart name of a release: its chart with the last `-` segment
      dropped. */
  function ChartName(chart: string): (n: string)
    ensures '-' in chart ==> n == chart[..LastIndexOf(chart, '-')]
    ensures '-' !in chart ==> n == ""
  {
    DropLastSegment(chart, '-')
  }

  /** The chart name of an artifact, `artifact.name.split(':')[0]`. */
  function ArtifactBase(name: string): (b: string)
    ensures ':' !in b
    ensures IsPrefix(b, name)
    ensures |b| < |name| ==> name[|b|] == ':'
    ensures ':' !in name ==> b == name
  {
    FirstSegment(name, ':')
  }

  /** The chart string of an installed artifact. */
  function ChartOf(base: string, version: string): string
  {
    base + "-" + version
  }

  /** A chart built from a name and a version without `-` gives both back. */
  lemma ChartRoundTrip(base: string, version: string)
    requires '-' !in version
    ensures ChartVersion(ChartOf(base, version)) == version
    ensures ChartName(ChartOf(base, version)) == base
  {
    LastSegmentRoundTrip(base, version, '-');
  }

  /** Name and version of a chart with a `-` rebuild it. */
  lemma ChartSplit(chart: string)
    requires '-' in chart
    ensures ChartOf(ChartName(chart), ChartVersion(chart)) == chart
  {
    LastSegmentSplit(chart, '-');
  }

  // ---------------------------------------------------------------------
  // Releases

  /** One entry of `helm list -o json`. */
  datatype ListEntry = ListEntry(name: string, namespace: string, chart: string, appVersion: string, status: string)

  /** `HelmListItem` as the client hands it on. */
  datatype HelmListItem = HelmListItem(
    name: string, namespace: string, chart: string, appVersion: string,
    status: WorkloadStatus, version: string, notes: Option<string>)

  /** One entry of `helm history -o json`. */
  datatype HistoryItem = HistoryItem(appVersion: string, description: string, updated: string, status: string)

  /** `HelmReleaseDetails`. */
  datatype ReleaseDetails = ReleaseDetails(item: HelmListItem, history: seq<HistoryItem>)

  /** How a returned promise ends: resolved, rejected with a message, or
      never settled (the source only logs some failures). */
  datatype Settled<T> = Resolved(value: T) | Rejected(reason: string) | Unsettled

  /** `{ ...release, status: mapStatus(release.status), version: … }`. */
  function ToListItem(e: ListEntry): HelmListItem
  {
    HelmListItem(e.name, e.namespace, e.chart, e.appVersion, MapStatus(e.status), ChartVersion(e.chart), None)
  }

  function ToListItems(list: seq<ListEntry>): (items: seq<HelmListItem>)
    ensures |items| == |list|
    ensures forall i :: 0 <= i < |list| ==> items[i] == ToListItem(list[i])
  {
    seq(|list|, i requires 0 <= i < |list| => ToListItem(list[i]))
  }

  /** `findAllHelmCharts`: `helmInstalled` is the outcome of `helm version`,
      `list` the parsed `helm list` output (`None` when listing or parsing
      fails, which the source only logs). */
  function FindAllHelmCharts(helmInstalled: bool, list: Option<seq<ListEntry>>): (r: Settled<seq<HelmListItem>>)
    ensures r == Rejected(HelmRequired) <==> !helmInstalled
    ensures r.Unsettled? <==> helmInstalled && list.None?
    ensures r.Resolved? ==> (list.Some? && |r.value| == |list.value|
      && forall i :: 0 <= i < |list.value| ==>
           r.value[i].name == list.value[i].name && r.value[i].status == MapStatus(list.value[i].status)
           && r.value[i].version == ChartVersion(list.value[i].chart))
    ensures helmInstalled && list.Some? ==> r == Resolved(ToListItems(list.value))
  {
    if !helmInstalled then Rejected(HelmRequired)
    else if list.None? then Unsettled
    else Resolved(ToListItems(list.value))
  }

  /** `list.filter(release => release.chart.startsWith(componentName))`. */
  function Candidates(list: seq<ListEntry>, componentName: string): (c: seq<ListEntry>)
    ensures forall e :: e in c <==> e in list && IsPrefix(componentName, e.chart)
  {
    Filter(list, (e: ListEntry) => IsPrefix(componentName, e.chart))
  }

  /** A candidate whose newest revision's app version matches the pattern. */
  predicate Hit(e: ListEntry, history: ListEntry -> Option<seq<HistoryItem>>, matches: string -> bool)
  {
    history(e).Some? && |history(e).value| > 0 && matches(history(e).value[|history(e).value| - 1].appVersion)
  }

  /** A candidate the loop passes over: its history was read and its newest
      revision does not match. */
  predicate Miss(e: ListEntry, history: ListEntry -> Option<seq<HistoryItem>>, matches: string -> bool)
  {
    history(e).Some? && |history(e).value| > 0 && !matches(history(e).value[|history(e).value| - 1].appVersion)
  }

  /** The loop of `findHelmChart` from candidate `i` on. A history that
      cannot be read, or is empty (so `lastRevision` is undefined), throws
      inside the listing callback, which only logs it. */
  function SearchFrom(c: seq<ListEntry>, i: nat, history: ListEntry -> Option<seq<HistoryItem>>, matches: string -> bool)
    : Settled<Option<HelmListItem>>
    decreases |c| - i
  {
    if i >= |c| then Resolved(None)
    else
      match history(c[i])
      case None => Unsettled
      case Some(h) =>
        if h == [] then Unsettled
        else if matches(h[|h| - 1].appVersion) then Resolved(Some(ToListItem(c[i])))
        else SearchFrom(c, i + 1, history, matches)
  }

  function FindHelmChartSpec(helmInstalled: bool, list: Option<seq<ListEntry>>, componentName: string,
                             history: ListEntry -> Option<seq<HistoryItem>>, matches: string -> bool)
    : (r: Settled<Option<HelmListItem>>)
    ensures r.Rejected? <==> !helmInstalled
    ensures r.Rejected? ==> r.reason == HelmRequired
    ensures helmInstalled && list.None? ==> r.Unsettled?
    ensures helmInstalled && list.Some? && Candidates(list.value, componentName) == [] ==> r == Resolved(None)
  {
    if !helmInstalled then Rejected(HelmRequired)
    else if list.None? then Unsettled
    else
      SearchFromNeverRejects(Candidates(list.value, componentName), 0, history, matches);
      SearchFrom(Candidates(list.value, componentName), 0, history, matches)
  }

  /** The search itself never rejects: it resolves or settles nothing. */
  lemma {:induction false} SearchFromNeverRejects(c: seq<ListEntry>, i: nat, history: ListEntry -> Option<seq<HistoryItem>>, matches: string -> bool)
    ensures !SearchFrom(c, i, history, matches).Rejected?
    decreases |c| - i
  {
    if i < |c| && history(c[i]).Some? && history(c[i]).value != [] {
      SearchFromNeverRejects(c, i + 1, history, matches);
    }
  }

  /** `findHelmChart`: lists the releases, then searches the candidates. */
  method FindHelmChart(helmInstalled: bool, list: Option<seq<ListEntry>>, componentName: string,
                       history: ListEntry -> Option<seq<HistoryItem>>, matches: string -> bool)
    returns (r: Settled<Option<HelmListItem>>)
    ensures r == FindHelmChartSpec(helmInstalled, list, componentName, history, matches)
  {
    if !helmInstalled {
      return Rejected(HelmRequired);
    }
    if list.None? {
      return Unsettled;
    }
    r := SearchCandidates(Candidates(list.value, componentName), history, matches);
  }

  /** The loop of `findHelmChart` over the candidates, with its mutable
      `result` and the `break` at the first match. */
  method SearchCandidates(candidates: seq<ListEntry>, history: ListEntry -> Option<seq<HistoryItem>>, matches: string -> bool)
    returns (r: Settled<Option<HelmListItem>>)
    ensures r == SearchFrom(candidates, 0, history, matches)
  {
    var result: Option<HelmListItem> := None;
    var i := 0;
    while i < |candidates|
      invariant 0 <= i <= |candidates|
      invariant result == None
      invariant SearchFrom(candidates, i, history, matches) == SearchFrom(candidates, 0, history, matches)
    {
      var release := candidates[i];
      SearchFromStep(candidates, i, history, matches);
      var historyResult := history(release);
      if historyResult.None? {
        return Unsettled;
      }
      var h := historyResult.value;
      if |h| == 0 {
        return Unsettled;
      }
      var lastRevision := h[|h| - 1];
      if matches(lastRevision.appVersion) {
        result := Some(ToListItem(release));
        break;
      }
      i := i + 1;
    }
    return Resolved(result);
  }

  /** One round of the loop. */
  lemma SearchFromStep(c: seq<ListEntry>, i: nat, history: ListEntry -> Option<seq<HistoryItem>>, matches: string -> bool)
    requires i < |c|
    ensures history(c[i]).None? ==> SearchFrom(c, i, history, matches) == Unsettled
    ensures history(c[i]).Some? && history(c[i]).value == [] ==> SearchFrom(c, i, history, matches) == Unsettled
    ensures Hit(c[i], history, matches) ==> SearchFrom(c, i, history, matches) == Resolved(Some(ToListItem(c[i])))
    ensures Miss(c[i], history, matches) ==> SearchFrom(c, i, history, matches) == SearchFrom(c, i + 1, history, matches)
  {
  }

  /** The search resolves to the first candidate that matches, once every
      candidate before it was passed over. */
  lemma SearchFromFirstHit(c: seq<ListEntry>, i: nat, k: nat, history: ListEntry -> Option<seq<HistoryItem>>, matches: string -> bool)
    requires i <= k < |c| && Hit(c[k], history, matches)
    requires forall j :: i <= j < k ==> Miss(c[j], history, matches)
    ensures SearchFrom(c, i, history, matches) == Resolved(Some(ToListItem(c[k])))
  {
    SearchFromSkips(c, i, k, history, matches);
    SearchFromStep(c, k, history, matches);
  }

  /** Candidates passed over do not change the outcome. */
  lemma {:induction false} SearchFromSkips(c: seq<ListEntry>, i: nat, k: nat, history: ListEntry -> Option<seq<HistoryItem>>, matches: string -> bool)
    requires i <= k <= |c|
    requires forall j :: i <= j < k ==> Miss(c[j], history, matches)
    ensures SearchFrom(c, i, history, matches) == SearchFrom(c, k, history, matches)
    decreases k - i
  {
    if i < k {
      assert Miss(c[i], history, matches);
      SearchFromSkips(c, i + 1, k, history, matches);
    }
  }

  /** The search resolves to `undefined` exactly when every candidate was
      passed over. */
  lemma {:induction false} SearchFromNone(c: seq<ListEntry>, i: nat, history: ListEntry -> Option<seq<HistoryItem>>, matches: string -> bool)
    requires i <= |c|
    ensures SearchFrom(c, i, history, matches) == Resolved(None) <==> forall j :: i <= j < |c| ==> Miss(c[j], history, matches)
    decreases |c| - i
  {
    if i < |c| {
      SearchFromNone(c, i + 1, history, matches);
    }
  }

  /** Candidate `k` is `x`'s release and the first hit from candidate `i`
      on: it matches, and every candidate from `i` up to it was read and
      passed over. */
  predicate FirstHitFrom(c: seq<ListEntry>, i: nat, history: ListEntry -> Option<seq<HistoryItem>>, matches: string -> bool,
                         k: int, x: HelmListItem)
  {
    i <= k < |c| && Hit(c[k], history, matches) && x == ToListItem(c[k])
    && forall j :: i <= j < k ==> Miss(c[j], history, matches)
  }

  /** A release the search resolves to is the first candidate that
      matches: every candidate before it was read and passed over. */
  lemma {:induction false} SearchFromFound(c: seq<ListEntry>, i: nat, history: ListEntry -> Option<seq<HistoryItem>>, matches: string -> bool)
    requires i <= |c|
    ensures SearchFrom(c, i, history, matches).Resolved? && SearchFrom(c, i, history, matches).value.Some? ==>
      exists k :: FirstHitFrom(c, i, history, matches, k, SearchFrom(c, i, history, matches).value.value)
    decreases |c| - i
  {
    var r := SearchFrom(c, i, history, matches);
    if i < |c| && r.Resolved? && r.value.Some? {
      SearchFromStep(c, i, history, matches);
      if Hit(c[i], history, matches) {
        assert FirstHitFrom(c, i, history, matches, i, r.value.value);
      } else {
        assert Miss(c[i], history, matches);
        SearchFromFound(c, i + 1, history, matches);
        var k :| FirstHitFrom(c, i + 1, history, matches, k, r.value.value);
        assert FirstHitFrom(c, i, history, matches, k, r.value.value);
      }
    }
  }

  /** `findHelmChart` resolves to a release only when it is the first
      listed release whose chart starts with the component name and whose
      newest revision matches, every earlier such release having been read
      and passed over; it resolves to `undefined` exactly when every such
      release was read and none matched. */
  lemma FindHelmChartFirst(list: seq<ListEntry>, componentName: string,
                           history: ListEntry -> Option<seq<HistoryItem>>, matches: string -> bool)
    ensures forall x :: FindHelmChartSpec(true, Some(list), componentName, history, matches) == Resolved(Some(x)) ==>
      exists k :: FirstListedHit(list, componentName, history, matches, k, x)
    ensures FindHelmChartSpec(true, Some(list), componentName, history, matches) == Resolved(None) <==>
      forall e :: e in list && IsPrefix(componentName, e.chart) ==> Miss(e, history, matches)
  {
    var c := Candidates(list, componentName);
    SearchFromNone(c, 0, history, matches);
    assert forall e :: e in c <==> exists j :: 0 <= j < |c| && c[j] == e;
    CandidatesFirstHit(list, componentName, history, matches);
  }

  /** Position `k` of the listing holds `x`'s release: its chart starts
      with the component name, its newest revision matches, and every
      earlier release whose chart starts with the name was read and passed
      over. */
  predicate FirstListedHit(list: seq<ListEntry>, componentName: string,
                           history: ListEntry -> Option<seq<HistoryItem>>, matches: string -> bool, k: int, x: HelmListItem)
  {
    0 <= k < |list| && IsPrefix(componentName, list[k].chart) && Hit(list[k], history, matches)
    && x == ToListItem(list[k])
    && forall j :: 0 <= j < k && IsPrefix(componentName, list[j].chart) ==> Miss(list[j], history, matches)
  }

  /** A first hit of the tail is a first hit of the whole listing when the
      head is no candidate or a candidate passed over. */
  lemma FirstListedHitCons(list: seq<ListEntry>, componentName: string,
                           history: ListEntry -> Option<seq<HistoryItem>>, matches: string -> bool, k: int, x: HelmListItem)
    requires list != [] && FirstListedHit(list[1..], componentName, history, matches, k, x)
    requires IsPrefix(componentName, list[0].chart) ==> Miss(list[0], history, matches)
    ensures FirstListedHit(list, componentName, history, matches, k + 1, x)
  {
    assert list[k + 1] == list[1..][k];
    forall j | 0 <= j < k + 1 && IsPrefix(componentName, list[j].chart)
      ensures Miss(list[j], history, matches)
    {
      if j > 0 {
        assert list[j] == list[1..][j - 1];
      }
    }
  }

  /** The candidates of a list beginning with `e`: `e` itself when its
      chart starts with the component name, then the rest's. */
  lemma CandidatesCons(list: seq<ListEntry>, componentName: string)
    requires list != []
    ensures Candidates(list, componentName) ==
      (if IsPrefix(componentName, list[0].chart) then [list[0]] else []) + Candidates(list[1..], componentName)
  {
  }

  /** Searching `[e] + rest` from position `i + 1` is searching `rest`
      from `i`. */
  lemma {:induction false} SearchFromShift(e: ListEntry, rest: seq<ListEntry>, i: nat,
                                           history: ListEntry -> Option<seq<HistoryItem>>, matches: string -> bool)
    requires i <= |rest|
    ensures SearchFrom([e] + rest, i + 1, history, matches) == SearchFrom(rest, i, history, matches)
    decreases |rest| - i
  {
    if i < |rest| {
      assert ([e] + rest)[i + 1] == rest[i];
      SearchFromShift(e, rest, i + 1, history, matches);
    }
  }

  /** Searching the candidates of a non-empty list: a matching first
      entry is the result; otherwise a resolved search is the search of
      the rest's candidates, the first entry being no candidate or one
      passed over. */
  lemma SearchCandidatesCons(list: seq<ListEntry>, componentName: string,
                             history: ListEntry -> Option<seq<HistoryItem>>, matches: string -> bool)
    requires list != []
    ensures IsPrefix(componentName, list[0].chart) && Hit(list[0], history, matches) ==>
      SearchFrom(Candidates(list, componentName), 0, history, matches) == Resolved(Some(ToListItem(list[0])))
    ensures var r := SearchFrom(Candidates(list, componentName), 0, history, matches);
      !(IsPrefix(componentName, list[0].chart) && Hit(list[0], history, matches)) && r.Resolved? ==>
        (IsPrefix(componentName, list[0].chart) ==> Miss(list[0], history, matches))
        && r == SearchFrom(Candidates(list[1..], componentName), 0, history, matches)
  {
    var rest := Candidates(list[1..], componentName);
    CandidatesCons(list, componentName);
    if IsPrefix(componentName, list[0].chart) {
      var c := [list[0]] + rest;
      assert c[0] == list[0];
      SearchFromStep(c, 0, history, matches);
      SearchFromShift(list[0], rest, 0, history, matches);
    }
  }

  /** The first hit among the candidates, located in the listing itself. */
  lemma {:induction false} CandidatesFirstHit(list: seq<ListEntry>, componentName: string,
                                              history: ListEntry -> Option<seq<HistoryItem>>, matches: string -> bool)
    ensures var r := SearchFrom(Candidates(list, componentName), 0, history, matches);
      r.Resolved? && r.value.Some? ==> exists k :: FirstListedHit(list, componentName, history, matches, k, r.value.value)
  {
    var r := SearchFrom(Candidates(list, componentName), 0, history, matches);
    if list != [] && r.Resolved? && r.value.Some? {
      SearchCandidatesCons(list, componentName, history, matches);
      if IsPrefix(componentName, list[0].chart) && Hit(list[0], history, matches) {
        assert FirstListedHit(list, componentName, history, matches, 0, r.value.value);
      } else {
        CandidatesFirstHit(list[1..], componentName, history, matches);
        var k :| FirstListedHit(list[1..], componentName, history, matches, k, r.value.value);
        FirstListedHitCons(list, componentName, history, matches, k, r.value.value);
      }
    }
  }

  /** The first entry named `name`, as `list.find(…)` picks it. */
  function FirstNamed(list: seq<ListEntry>, name: string): (k: int)
    ensures -1 <= k < |list|
    ensures k >= 0 ==> list[k].name == name
    ensures forall j :: 0 <= j < |list| && (k == -1 || j < k) ==> list[j].name != name
  {
    FindIndex(list, (e: ListEntry) => e.name == name)
  }

  /** `findRelease`: `list` is the parsed `helm list` output or the error
      it failed with; `fetched` the outcome of fetching the release's notes
      and history together (a present/absent result for each, or the
      error). */
  function FindRelease(list: Result<seq<ListEntry>, string>, name: string,
                       fetched: Result<(Option<string>, Option<seq<HistoryItem>>), string>)
    : (r: Settled<ReleaseDetails>)
    ensures list.Failure? ==> r == Rejected("Unexpected error listing helm release: " + list.error)
    ensures list.Success? && (forall j :: 0 <= j < |list.value| ==> list.value[j].name != name) ==>
      r == Rejected("Workload does not exist")
    ensures r.Resolved? <==> (list.Success? && FirstNamed(list.value, name) >= 0
      && fetched.Success? && fetched.value.0.Some? && fetched.value.1.Some?)
    ensures r.Resolved? ==>
      var e := list.value[FirstNamed(list.value, name)];
      r.value.item == ToListItem(e).(notes := fetched.value.0) && r.value.history == fetched.value.1.value
      && r.value.item.name == name
    ensures list.Success? && FirstNamed(list.value, name) >= 0 && fetched.Failure? ==>
      r == Rejected("Couldn't read workload history or notes: " + fetched.error)
    ensures !r.Unsettled?
  {
    match list
    case Failure(e) => Rejected("Unexpected error listing helm release: " + e)
    case Success(l) =>
      var k := FirstNamed(l, name);
      if k < 0 then Rejected("Workload does not exist")
      else
        match fetched
        case Failure(e) => Rejected("Couldn't read workload history or notes: " + e)
        case Success((notes, history)) =>
          if history.Some? && notes.Some? then
            Resolved(ReleaseDetails(ToListItem(l[k]).(notes := notes), history.value))
          else Rejected("Couldn't read workload history or notes.")
  }

  // ---------------------------------------------------------------------
  // Argument lists

  /** `values.flatMap(v => ['--set', v.key + '=' + v.value])`: two
      arguments per value, in order; `Flatten.FlagPairs` with the flag
      `--set`. */
  function SetArgs(values: seq<KeyValue>): (args: seq<string>)
    ensures |args| == 2 * |values|
    ensures forall i :: 0 <= i < |values| ==> args[2 * i] == "--set" && args[2 * i + 1] == values[i].key + "=" + values[i].value
  {
    FlagPairs("--set", values)
  }

  /** The `--set` arguments of two lists of values are those of each, one
      after the other. */
  lemma SetArgsAppend(a: seq<KeyValue>, b: seq<KeyValue>)
    ensures SetArgs(a + b) == SetArgs(a) + SetArgs(b)
  {
    FlagPairsAppend("--set", a, b);
  }

  /** `helm registry login dp.apps.rancher.io/charts -u <username> -p <token>`. */
  function HelmLoginArgs(username: string, token: string): (args: seq<string>)
    ensures |args| == 7 && args[..3] == ["registry", "login", ChartsRegistry]
    ensures args[3] == "-u" && args[4] == username && args[5] == "-p" && args[6] == token
  {
    ["registry", "login", ChartsRegistry, "-u", username, "-p", token]
  }

  function HelmLogoutArgs(): seq<string>
  {
    ["registry", "logout", ChartsRegistry]
  }

  /** An artifact of the application collection. */
  datatype Artifact = Artifact(name: string, version: string, revision: Option<string>, digest: string)

  /** The JSON description stored with each revision. */
  datatype Description = Description(
    message: string, version: string, revision: Option<string>, digest: Option<string>, branch: Option<string>)

  function InstallDescription(branchName: string, artifact: Artifact): Description
  {
    Description(InstallMessage, artifact.version, artifact.revision, Some(artifact.digest), Some(branchName))
  }

  /** The `helm install` arguments: the chart of the artifact at its
      version, the pull secret, then the given values, the description and
      the extension's label. */
  function InstallArgs(artifact: Artifact, values: seq<KeyValue>, description: string): (args: seq<string>)
    ensures |args| == 13 + 2 * |values|
    ensures args[..4] == ["install", ChartsRepository + ArtifactBase(artifact.name), "--version", artifact.version]
    ensures args[4..6] == ["--set", PullSecretKey + "=" + PullSecret]
    ensures args[6..6 + 2 * |values|] == SetArgs(values)
    ensures args[6 + 2 * |values|..] == ["--description", description, "--generate-name", "-l", Matcher, "-o", "json"]
  {
    var head := ["install", ChartsRepository + ArtifactBase(artifact.name), "--version", artifact.version,
                 "--set", PullSecretKey + "=" + PullSecret];
    var tail := ["--description", description, "--generate-name", "-l", Matcher, "-o", "json"];
    assert |head| == 6 && |tail| == 7;
    head + SetArgs(values) + tail
  }

  /** The description of an upgrade to `artifact`, or of an edit of the
      release's values when there is none. */
  function UpgradeDescription(release: HelmListItem, artifact: Option<Artifact>): Description
  {
    match artifact
    case Some(a) => Description("Upgrade from " + release.version + " to " + a.version, a.version, a.revision, Some(a.digest), None)
    case None => Description("Edit version " + release.version + " values", release.version, None, None, None)
  }

  /** The chart repository an upgrade uses. */
  function UpgradeRepo(release: HelmListItem, artifact: Option<Artifact>): string
  {
    match artifact
    case Some(a) => ChartsRepository + ArtifactBase(a.name)
    case None => ChartsRepository + ChartName(release.chart)
  }

  function AdditionalArgs(artifact: Option<Artifact>): seq<string>
  {
    match artifact
    case Some(a) => ["--version", a.version]
    case None => []
  }

  /** The `helm upgrade` arguments. */
  function UpgradeArgs(release: HelmListItem, values: seq<KeyValue>, artifact: Option<Artifact>, description: string)
    : (args: seq<string>)
    ensures |args| == 9 + 2 * |values| + |AdditionalArgs(artifact)|
    ensures args[..5] == ["upgrade", release.name, UpgradeRepo(release, artifact), "-n", release.namespace]
    ensures args[5..5 + 2 * |values|] == SetArgs(values)
    ensures args[5 + 2 * |values|..] == ["--description", description, "-o", "json"] + AdditionalArgs(artifact)
  {
    var head := ["upgrade", release.name, UpgradeRepo(release, artifact), "-n", release.namespace];
    var setArgs := SetArgs(values);
    var tail := ["--description", description, "-o", "json"] + AdditionalArgs(artifact);
    var args := head + setArgs + tail;
    assert args[..5] == head;
    assert args[5..5 + |setArgs|] == setArgs;
    assert args[5 + |setArgs|..] == tail;
    assert head + setArgs + ["--description", description, "-o", "json"] + AdditionalArgs(artifact) == args;
    args
  }

  /** The third argument of an upgrade is the chart reference. */
  lemma UpgradeArgsReference(release: HelmListItem, values: seq<KeyValue>, artifact: Option<Artifact>, description: string)
    ensures UpgradeArgs(release, values, artifact, description)[2] == UpgradeRepo(release, artifact)
  {
    var args := UpgradeArgs(release, values, artifact, description);
    assert args[2] == args[..5][2];
  }

  /** With an artifact an upgrade names its version, its chart and both
      versions in the message; without one it is an edit of the release's
      own chart at its own version. */
  lemma UpgradeChoice(release: HelmListItem, values: seq<KeyValue>, artifact: Option<Artifact>, description: string)
    ensures artifact.Some? ==>
      var args := UpgradeArgs(release, values, artifact, description);
      args[|args| - 2..] == ["--version", artifact.value.version]
      && UpgradeDescription(release, artifact).message == "Upgrade from " + release.version + " to " + artifact.value.version
      && UpgradeRepo(release, artifact) == ChartsRepository + ArtifactBase(artifact.value.name)
    ensures artifact.None? ==>
      |UpgradeArgs(release, values, artifact, description)| == 9 + 2 * |values|
      && UpgradeDescription(release, artifact).message == "Edit version " + release.version + " values"
      && UpgradeDescription(release, artifact).version == release.version
      && UpgradeRepo(release, artifact) == ChartsRepository + ChartName(release.chart)
  {
  }

  /** Called without values, install sets the pull secret twice, once
      by its own argument and once as the default value; upgrade and edit
      set it once, from the default. */
  lemma DefaultValuesArgs(artifact: Artifact, release: HelmListItem, upgradeTo: Option<Artifact>, description: string)
    ensures InstallArgs(artifact, DefaultValues, description)[4..8] ==
      ["--set", PullSecretKey + "=" + PullSecret, "--set", PullSecretKey + "=" + PullSecret]
    ensures UpgradeArgs(release, DefaultValues, upgradeTo, description)[5..7] == ["--set", PullSecretKey + "=" + PullSecret]
  {
    var setArgs := SetArgs(DefaultValues);
    assert setArgs == ["--set", PullSecretKey + "=" + PullSecret];
    var install := InstallArgs(artifact, DefaultValues, description);
    assert install[4..8] == install[4..6] + install[6..8];
  }

  // ---------------------------------------------------------------------
  // Streamed output

  /** One `onOutput` event: the chunk's stdout and stderr, either of which
      may be absent. */
  datatype Chunk = Chunk(stdout: Option<string>, stderr: Option<string>)

  /** How the stream ends: `onError`, or `onClose` with the exit code. */
  datatype StreamEnd = Errored(error: string) | Closed(code: int)

  /** `'' + x` for an optional string. */
  function JsText(s: Option<string>): string
  {
    match s
    case Some(t) => t
    case None => "undefined"
  }

  /** What a chunk adds to `stdout`: its stdout when that is non-empty. */
  function StdoutPart(c: Chunk): string
  {
    if c.stdout.Some? && c.stdout.value != "" then c.stdout.value else ""
  }

  /** What a chunk adds to `stderr`: its stderr when its stdout is empty. */
  function StderrPart(c: Chunk): string
  {
    if c.stdout.Some? && c.stdout.value != "" then "" else JsText(c.stderr)
  }

  /** The `stdout` accumulated over a whole stream. */
  function StdoutOf(chunks: seq<Chunk>): string
  {
    if chunks == [] then "" else StdoutOf(chunks[..|chunks| - 1]) + StdoutPart(chunks[|chunks| - 1])
  }

  /** The `stderr` accumulated over a whole stream. */
  function StderrOf(chunks: seq<Chunk>): string
  {
    if chunks == [] then "" else StderrOf(chunks[..|chunks| - 1]) + StderrPart(chunks[|chunks| - 1])
  }

  /** Accumulation is chunk by chunk: two parts of a stream contribute
      their texts one after the other, to each stream. */
  lemma StreamAppend(a: seq<Chunk>, b: seq<Chunk>)
    ensures StdoutOf(a + b) == StdoutOf(a) + StdoutOf(b)
    ensures StderrOf(a + b) == StderrOf(a) + StderrOf(b)
  {
    StdoutAppend(a, b);
    StderrAppend(a, b);
  }

  lemma {:induction false} StdoutAppend(a: seq<Chunk>, b: seq<Chunk>)
    ensures StdoutOf(a + b) == StdoutOf(a) + StdoutOf(b)
    decreases |b|
  {
    if b == [] {
      assert a + b == a;
    } else {
      var b' := b[..|b| - 1];
      assert (a + b)[..|a + b| - 1] == a + b';
      assert (a + b)[|a + b| - 1] == b[|b| - 1];
      StdoutAppend(a, b');
      var x := StdoutPart(b[|b| - 1]);
      assert StdoutOf(a + b) == (StdoutOf(a) + StdoutOf(b')) + x;
      assert StdoutOf(b) == StdoutOf(b') + x;
    }
  }

  lemma {:induction false} StderrAppend(a: seq<Chunk>, b: seq<Chunk>)
    ensures StderrOf(a + b) == StderrOf(a) + StderrOf(b)
    decreases |b|
  {
    if b == [] {
      assert a + b == a;
    } else {
      var b' := b[..|b| - 1];
      assert (a + b)[..|a + b| - 1] == a + b';
      assert (a + b)[|a + b| - 1] == b[|b| - 1];
      StderrAppend(a, b');
      var x := StderrPart(b[|b| - 1]);
      assert StderrOf(a + b) == (StderrOf(a) + StderrOf(b')) + x;
      assert StderrOf(b) == StderrOf(b') + x;
    }
  }

  /** A chunk whose stdout is not empty goes to `stdout` alone; any other
      goes to `stderr` alone. */
  lemma ChunkRouting(c: Chunk)
    ensures StdoutOf([c]) == (if c.stdout.Some? && c.stdout.value != "" then c.stdout.value else "")
    ensures StderrOf([c]) == (if c.stdout.Some? && c.stdout.value != "" then "" else JsText(c.stderr))
  {
    assert [c][..0] == [];
  }

  /** The `stdout` and `stderr` variables the `onOutput` callback appends to. */
  class StreamCollector {
    var stdout: string
    var stderr: string

    constructor ()
      ensures stdout == "" && stderr == ""
    {
      stdout := "";
      stderr := "";
    }

    /** `onOutput`. */
    method OnOutput(chunk: Chunk)
      modifies this
      ensures stdout == old(stdout) + StdoutPart(chunk)
      ensures stderr == old(stderr) + StderrPart(chunk)
    {
      if chunk.stdout.Some? && chunk.stdout.value != "" {
        stdout := stdout + chunk.stdout.value;
      } else {
        stderr := stderr + JsText(chunk.stderr);
      }
    }
  }

  /** Feeds a whole stream to a fresh collector. */
  method Collect(chunks: seq<Chunk>) returns (stdout: string, stderr: string)
    ensures stdout == StdoutOf(chunks) && stderr == StderrOf(chunks)
  {
    var collector := new StreamCollector();
    for i := 0 to |chunks|
      invariant collector.stdout == StdoutOf(chunks[..i])
      invariant collector.stderr == StderrOf(chunks[..i])
    {
      assert chunks[..i + 1][..i] == chunks[..i];
      collector.OnOutput(chunks[i]);
    }
    assert chunks[..|chunks|] == chunks;
    stdout, stderr := collector.stdout, collector.stderr;
  }

  /** The `helm install`/`upgrade` JSON output, as far as it is read. */
  datatype Installed = Installed(name: string, namespace: string, status: string, notes: string, appVersion: string)

  /** `onClose`: a positive exit code rejects with the collected stderr;
      otherwise the collected stdout is parsed (a parse failure throws
      inside the callback and settles nothing). */
  function OnClose(code: int, stdout: string, stderr: string, parse: string -> Option<Installed>): (r: Settled<Installed>)
    ensures code > 0 <==> r == Rejected(stderr)
    ensures code <= 0 ==> (r.Resolved? <==> parse(stdout).Some?) && (r.Resolved? ==> r.value == parse(stdout).value)
    ensures code <= 0 && parse(stdout).None? ==> r.Unsettled?
  {
    if code > 0 then Rejected(stderr)
    else match parse(stdout)
      case None => Unsettled
      case Some(i) => Resolved(i)
  }

  /** The stream closed with a positive exit code. */
  predicate FailedExit(end: StreamEnd)
  {
    end.Closed? && end.code > 0
  }

  /** The release an install reports. */
  function InstallResult(artifact: Artifact, version: string, installed: Installed): HelmListItem
  {
    HelmListItem(installed.name, installed.namespace, ChartOf(ArtifactBase(artifact.name), artifact.version),
                 version, MapStatus(installed.status), artifact.version, Some(installed.notes))
  }

  /** The release an upgrade reports. */
  function UpgradeResult(release: HelmListItem, artifact: Option<Artifact>, upgraded: Installed): HelmListItem
  {
    HelmListItem(upgraded.name, upgraded.namespace,
                 if artifact.Some? then ChartOf(ArtifactBase(artifact.value.name), artifact.value.version) else release.chart,
                 upgraded.appVersion, MapStatus(upgraded.status),
                 if artifact.Some? then artifact.value.version else release.version, None)
  }

  /** The helm command run (if any) and how the promise settles. */
  datatype Run = Run(command: Option<seq<string>>, result: Settled<HelmListItem>)

  /** `installHelmChart`, given whether the pull secret exists and how the
      `helm install` stream goes. */
  function InstallHelmChartSpec(secretStored: bool, branchName: string, artifact: Artifact, version: string,
                                values: seq<KeyValue>, stringify: Description -> string,
                                chunks: seq<Chunk>, end: StreamEnd, parse: string -> Option<Installed>): (r: Run)
    ensures !secretStored <==> r.command.None?
    ensures !secretStored ==> r.result == Rejected(SecretMissing)
    ensures secretStored ==> r.command == Some(InstallArgs(artifact, values, stringify(InstallDescription(branchName, artifact))))
    ensures secretStored && end.Errored? ==> r.result == Rejected(end.error)
    ensures secretStored && FailedExit(end) ==> r.result == Rejected(StderrOf(chunks))
    ensures secretStored && end.Closed? && end.code <= 0 ==>
      (parse(StdoutOf(chunks)).Some? ==> r.result == Resolved(InstallResult(artifact, version, parse(StdoutOf(chunks)).value)))
      && (parse(StdoutOf(chunks)).None? ==> r.result.Unsettled?)
    ensures r.result.Resolved? ==>
      r.result.value.chart == ChartOf(ArtifactBase(artifact.name), artifact.version)
      && r.result.value.version == artifact.version && r.result.value.appVersion == version
  {
    if !secretStored then Run(None, Rejected(SecretMissing))
    else
      var command := Some(InstallArgs(artifact, values, stringify(InstallDescription(branchName, artifact))));
      match end
      case Errored(e) => Run(command, Rejected(e))
      case Closed(code) =>
        match OnClose(code, StdoutOf(chunks), StderrOf(chunks), parse)
        case Resolved(i) => Run(command, Resolved(InstallResult(artifact, version, i)))
        case Rejected(m) => Run(command, Rejected(m))
        case Unsettled => Run(command, Unsettled)
  }

  /** `upgradeHelmChart`. */
  function UpgradeHelmChartSpec(secretStored: bool, release: HelmListItem, values: seq<KeyValue>, artifact: Option<Artifact>,
                                stringify: Description -> string,
                                chunks: seq<Chunk>, end: StreamEnd, parse: string -> Option<Installed>): (r: Run)
    ensures !secretStored <==> r.command.None?
    ensures !secretStored ==> r.result == Rejected(SecretMissing)
    ensures secretStored ==> r.command == Some(UpgradeArgs(release, values, artifact, stringify(UpgradeDescription(release, artifact))))
    ensures secretStored && end.Errored? ==> r.result == Rejected("Unexpected error upgrading release: " + end.error)
    ensures secretStored && FailedExit(end) ==> r.result == Rejected(StderrOf(chunks))
    ensures secretStored && end.Closed? && end.code <= 0 ==>
      (parse(StdoutOf(chunks)).Some? ==> r.result == Resolved(UpgradeResult(release, artifact, parse(StdoutOf(chunks)).value)))
      && (parse(StdoutOf(chunks)).None? ==> r.result.Unsettled?)
    ensures r.result.Resolved? ==>
      (artifact.Some? ==> r.result.value.chart == ChartOf(ArtifactBase(artifact.value.name), artifact.value.version)
                          && r.result.value.version == artifact.value.version)
      && (artifact.None? ==> r.result.value.chart == release.chart && r.result.value.version == release.version)
  {
    if !secretStored then Run(None, Rejected(SecretMissing))
    else
      var command := Some(UpgradeArgs(release, values, artifact, stringify(UpgradeDescription(release, artifact))));
      match end
      case Errored(e) => Run(command, Rejected("Unexpected error upgrading release: " + e))
      case Closed(code) =>
        match OnClose(code, StdoutOf(chunks), StderrOf(chunks), parse)
        case Resolved(i) => Run(command, Resolved(UpgradeResult(release, artifact, i)))
        case Rejected(m) => Run(command, Rejected(m))
        case Unsettled => Run(command, Unsettled)
  }

  /** `installHelmChart`, collecting the stream through the callbacks. */
  method InstallHelmChart(secretStored: bool, branchName: string, artifact: Artifact, version: string,
                          values: seq<KeyValue>, stringify: Description -> string,
                          chunks: seq<Chunk>, end: StreamEnd, parse: string -> Option<Installed>)
    returns (r: Run)
    ensures r == InstallHelmChartSpec(secretStored, branchName, artifact, version, values, stringify, chunks, end, parse)
  {
    if !secretStored {
      return Run(None, Rejected(SecretMissing));
    }
    var command := Some(InstallArgs(artifact, values, stringify(InstallDescription(branchName, artifact))));
    var stdout, stderr := Collect(chunks);
    match end {
      case Errored(e) =>
        r := Run(command, Rejected(e));
      case Closed(code) =>
        var closed := OnClose(code, stdout, stderr, parse);
        match closed {
          case Resolved(i) => r := Run(command, Resolved(InstallResult(artifact, version, i)));
          case Rejected(m) => r := Run(command, Rejected(m));
          case Unsettled => r := Run(command, Unsettled);
        }
    }
  }

  /** `upgradeHelmChart`, collecting the stream through the callbacks. */
  method UpgradeHelmChart(secretStored: bool, release: HelmListItem, values: seq<KeyValue>, artifact: Option<Artifact>,
                          stringify: Description -> string,
                          chunks: seq<Chunk>, end: StreamEnd, parse: string -> Option<Installed>)
    returns (r: Run)
    ensures r == UpgradeHelmChartSpec(secretStored, release, values, artifact, stringify, chunks, end, parse)
  {
    if !secretStored {
      return Run(None, Rejected(SecretMissing));
    }
    var command := Some(UpgradeArgs(release, values, artifact, stringify(UpgradeDescription(release, artifact))));
    var stdout, stderr := Collect(chunks);
    match end {
      case Errored(e) =>
        r := Run(command, Rejected("Unexpected error upgrading release: " + e));
      case Closed(code) =>
        var closed := OnClose(code, stdout, stderr, parse);
        match closed {
          case Resolved(i) => r := Run(command, Resolved(UpgradeResult(release, artifact, i)));
          case Rejected(m) => r := Run(command, Rejected(m));
          case Unsettled => r := Run(command, Unsettled);
        }
    }
  }

  /** `editHelmChart`: an upgrade of the release's own chart at its own
      version, with no `--version`. */
  function EditHelmChart(secretStored: bool, release: HelmListItem, values: seq<KeyValue>, stringify: Description -> string,
                         chunks: seq<Chunk>, end: StreamEnd, parse: string -> Option<Installed>): (r: Run)
    ensures secretStored ==> r.command == Some(
      ["upgrade", release.name, ChartsRepository + ChartName(release.chart), "-n", release.namespace]
      + SetArgs(values)
      + ["--description", stringify(Description("Edit version " + release.version + " values", release.version, None, None, None)),
         "-o", "json"])
    ensures r.result.Resolved? ==> r.result.value.chart == release.chart && r.result.value.version == release.version
  {
    var description := stringify(Description("Edit version " + release.version + " values", release.version, None, None, None));
    assert UpgradeArgs(release, values, None, description)
      == ["upgrade", release.name, ChartsRepository + ChartName(release.chart), "-n", release.namespace]
         + SetArgs(values) + ["--description", description, "-o", "json"];
    UpgradeHelmChartSpec(secretStored, release, values, None, stringify, chunks, end, parse)
  }

  /** Editing a release that an install created targets the repository the
      install used, whenever the artifact's version has no `-`. */
  lemma EditTargetsInstalledChart(artifact: Artifact, version: string, installed: Installed)
    requires '-' !in artifact.version
    ensures UpgradeRepo(InstallResult(artifact, version, installed), None) == ChartsRepository + ArtifactBase(artifact.name)
    ensures UpgradeRepo(InstallResult(artifact, version, installed), None) == UpgradeRepo(InstallResult(artifact, version, installed), Some(artifact))
    ensures ChartVersion(InstallResult(artifact, version, installed).chart) == InstallResult(artifact, version, installed).version
  {
    ChartRoundTrip(ArtifactBase(artifact.name), artifact.version);
  }

  /** `helm uninstall <name> -n <namespace> --wait`. */
  function UninstallArgs(name: string, namespace: string): (args: seq<string>)
    ensures |args| == 5 && args[0] == "uninstall" && args[1] == name && args[2] == "-n" && args[3] == namespace && args[4] == "--wait"
  {
    ["uninstall", name, "-n", namespace, "--wait"]
  }

  /** `uninstallHelmChart`: resolves when the command succeeds, otherwise
      rejects with a fixed message. */
  function UninstallHelmChart(succeeded: bool): (r: Settled<()>)
    ensures r.Resolved? <==> succeeded
    ensures !succeeded ==> r == Rejected("Unexpected exception uninstalling relese")
  {
    if succeeded then Resolved(()) else Rejected("Unexpected exception uninstalling relese")
  }
}
