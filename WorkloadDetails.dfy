/** The workload details page (ui/src/pages/WorkloadDetailsPage/index.tsx):
    the component name looked up for a release, the port mappings shown
    for its services, the search for an update among the component's
    branches, the failure alert, the notes and the update control. The
    regular-expression test of a branch pattern and `compareVersions` are
    parameters. */
module WorkloadDetails {
  import opened Wrappers
  import opened Strings
  import opened Seqs
  import opened Flatten
  import opened Kubectl
  import opened HelmClient

  // ---------------------------------------------------------------------
  // Component name

  /** `appSlugName`: the release name without its last `-` chunk (the
      chunks whose index is below the last one, joined by `-`). The page
      filters by index where the helm client slices, with the same result,
      so it shares `Strings.DropLastSegment` with `HelmClient.ChartName`. */
  function AppSlugName(name: string): (slug: string)
    ensures '-' in name ==> slug == name[..LastIndexOf(name, '-')]
    ensures '-' !in name ==> slug == ""
  {
    DropLastSegment(name, '-')
  }

  /** A release named `<component>-<suffix>` with a `-`-free suffix is
      looked up as `<component>`. */
  lemma AppSlugNameOfRelease(component: string, suffix: string)
    requires '-' !in suffix
    ensures AppSlugName(component + "-" + suffix) == component
  {
    assert component + "-" + suffix == component + ['-'] + suffix;
    LastSegmentRoundTrip(component, suffix, '-');
  }

  // ---------------------------------------------------------------------
  // Port mappings

  /** The selector the page looks services up by. */
  const InstanceLabel := "app.kubernetes.io/instance"

  /** The services of a release are looked up by its instance label alone:
      the namespace the page also passes is not part of the command. */
  lemma ServiceLookupArgs(releaseName: string)
    ensures GetServicesArgs([KeyValue(InstanceLabel, releaseName)]) ==
      ["get", "services", "-l", InstanceLabel + "=" + releaseName, "-o", "json"]
  {
    var args := GetServicesArgs([KeyValue(InstanceLabel, releaseName)]);
    assert args[..2] == ["get", "services"];
    assert args[4..] == ["-o", "json"];
  }

  datatype PortMapping = PortMapping(targetPort: int, nodePort: int, protocol: string)

  /** The services that are listed: with a spec, of type `NodePort`, and
      with ports (an empty list of ports is still truthy). */
  predicate IsNodePortService(s: Service)
  {
    s.spec.Some? && s.spec.value.serviceType == Some("NodePort") && s.spec.value.ports.Some?
  }

  function MappingOf(p: ServicePort): PortMapping
  {
    PortMapping(p.targetPort, p.nodePort, p.protocol)
  }

  /** One mapping per port, in order. */
  function MappingsOf(ports: seq<ServicePort>): (r: seq<PortMapping>)
    ensures |r| == |ports|
    ensures forall i :: 0 <= i < |ports| ==> r[i] == MappingOf(ports[i])
  {
    if ports == [] then [] else [MappingOf(ports[0])] + MappingsOf(ports[1..])
  }

  /** The mappings of one listed service. */
  function ServiceMappings(s: Service): seq<PortMapping>
  {
    if IsNodePortService(s) then MappingsOf(s.spec.value.ports.value) else []
  }

  /** `flatMap` of the mappings over services. */
  function ConcatMappings(services: seq<Service>): seq<PortMapping>
  {
    if services == [] then [] else ServiceMappings(services[0]) + ConcatMappings(services[1..])
  }

  /** The page's mappings: the listed services, then their ports. */
  function PortMappings(services: seq<Service>): seq<PortMapping>
  {
    ConcatMappings(Filter(services, IsNodePortService))
  }

  /** Filtering first changes nothing: the services it drops have no
      mappings. */
  lemma {:induction false} PortMappingsAsConcat(services: seq<Service>)
    ensures PortMappings(services) == ConcatMappings(services)
  {
    if services != [] {
      var first := services[0];
      var rest := services[1..];
      PortMappingsAsConcat(rest);
      ConcatOne(first, rest);
      if IsNodePortService(first) {
        assert Filter(services, IsNodePortService) == [first] + Filter(rest, IsNodePortService);
        ConcatOne(first, Filter(rest, IsNodePortService));
      } else {
        assert Filter(services, IsNodePortService) == Filter(rest, IsNodePortService);
      }
    }
  }

  lemma ConcatOne(s: Service, rest: seq<Service>)
    ensures ConcatMappings([s] + rest) == ServiceMappings(s) + ConcatMappings(rest)
  {
    assert ([s] + rest)[1..] == rest;
  }

  /** Service by service: the mappings of two lists of services are those
      of the first followed by those of the second. */
  lemma {:induction false} PortMappingsAppend(a: seq<Service>, b: seq<Service>)
    ensures PortMappings(a + b) == PortMappings(a) + PortMappings(b)
  {
    PortMappingsAsConcat(a + b);
    PortMappingsAsConcat(a);
    PortMappingsAsConcat(b);
    ConcatAppend(a, b);
  }

  lemma {:induction false} ConcatAppend(a: seq<Service>, b: seq<Service>)
    ensures ConcatMappings(a + b) == ConcatMappings(a) + ConcatMappings(b)
  {
    if a == [] {
      assert a + b == b;
    } else {
      assert (a + b)[0] == a[0];
      assert (a + b)[1..] == a[1..] + b;
      ConcatAppend(a[1..], b);
    }
  }

  /** A single service contributes one mapping per port, copying each
      port's fields, when it is a node-port service with ports, and
      nothing otherwise. */
  lemma PortMappingsOne(s: Service)
    ensures IsNodePortService(s) ==>
      |PortMappings([s])| == |s.spec.value.ports.value|
      && forall j :: 0 <= j < |s.spec.value.ports.value| ==>
           PortMappings([s])[j] == PortMapping(s.spec.value.ports.value[j].targetPort,
                                               s.spec.value.ports.value[j].nodePort,
                                               s.spec.value.ports.value[j].protocol)
    ensures !IsNodePortService(s) ==> PortMappings([s]) == []
  {
    PortMappingsAsConcat([s]);
    ConcatOne(s, []);
  }

  /** Every mapping shown comes from a port of a node-port service. */
  lemma {:induction false} PortMappingsSource(services: seq<Service>, m: PortMapping)
    requires m in PortMappings(services)
    ensures exists i, j ::
      (0 <= i < |services| && IsNodePortService(services[i])
       && 0 <= j < |services[i].spec.value.ports.value| && m == MappingOf(services[i].spec.value.ports.value[j]))
  {
    PortMappingsAsConcat(services);
    assert services != [];
    var s := services[0];
    if m in ServiceMappings(s) {
      var j :| 0 <= j < |ServiceMappings(s)| && ServiceMappings(s)[j] == m;
      assert IsNodePortService(services[0]) && m == MappingOf(services[0].spec.value.ports.value[j]);
    } else {
      PortMappingsAsConcat(services[1..]);
      PortMappingsSource(services[1..], m);
      var i, j :| 0 <= i < |services[1..]| && IsNodePortService(services[1..][i])
        && 0 <= j < |services[1..][i].spec.value.ports.value| && m == MappingOf(services[1..][i].spec.value.ports.value[j]);
      assert services[i + 1] == services[1..][i];
    }
  }

  /** The mappings after the lookup settles: the lookup's services, or the
      mappings already shown when it rejects (the rejection is not
      handled). */
  function MappingsAfterLookup(lookup: Result<seq<Service>, string>, shown: seq<PortMapping>): (r: seq<PortMapping>)
    ensures lookup.Failure? ==> r == shown
    ensures lookup.Success? ==> r == PortMappings(lookup.value)
  {
    if lookup.Success? then PortMappings(lookup.value) else shown
  }

  // ---------------------------------------------------------------------
  // Update search

  datatype PackagingFormat = HelmChart | OtherFormat(name: string)

  /** An artifact of a component version. */
  datatype VersionArtifact = VersionArtifact(name: string, packagingFormat: PackagingFormat)

  datatype ComponentVersion = ComponentVersion(versionNumber: string, artifacts: seq<VersionArtifact>)

  /** A branch of the component: its version pattern and its versions, if
      the response has them. */
  datatype Branch = Branch(branchPattern: string, versions: Option<seq<ComponentVersion>>)

  /** The page's `update`: still unknown (`undefined`, a placeholder is
      shown), none (`null`), or the artifact to upgrade to. */
  datatype UpdateState = Pending | NoUpdate | Available(artifact: VersionArtifact)

  predicate IsHelmChart(a: VersionArtifact)
  {
    a.packagingFormat == HelmChart
  }

  /** The first Helm chart among artifacts. */
  function FirstHelmChart(artifacts: seq<VersionArtifact>): (r: Option<VersionArtifact>)
    ensures r.Some? ==> IsHelmChart(r.value) && r.value in artifacts
    ensures r.Some? ==>
      exists i :: 0 <= i < |artifacts| && artifacts[i] == r.value && forall j :: 0 <= j < i ==> !IsHelmChart(artifacts[j])
    ensures r.None? <==> forall i :: 0 <= i < |artifacts| ==> !IsHelmChart(artifacts[i])
  {
    var k := FindIndex(artifacts, IsHelmChart);
    if k >= 0 then Some(artifacts[k]) else None
  }

  /** The branch the release's app version matches, by position. */
  function CurrentBranch(branches: seq<Branch>, appVersion: string, matches: (string, string) -> bool): int
  {
    FindIndex(branches, (b: Branch) => matches(appVersion, b.branchPattern))
  }

  /** A version newer than the release's that has a Helm chart. */
  predicate NewerWithChart(v: ComponentVersion, appVersion: string, compare: (string, string) -> int)
  {
    compare(v.versionNumber, appVersion) > 0 && FirstHelmChart(v.artifacts).Some?
  }

  /** A version newer than the release's. */
  predicate Newer(v: ComponentVersion, appVersion: string, compare: (string, string) -> int)
  {
    compare(v.versionNumber, appVersion) > 0
  }

  /** The fallback's branch test: another branch, with versions, one of
      them newer. */
  predicate OtherCandidate(branches: seq<Branch>, j: int, current: int, appVersion: string, compare: (string, string) -> int)
    requires 0 <= j < |branches|
  {
    j != current && branches[j].versions.Some? && |branches[j].versions.value| > 0
    && Any(branches[j].versions.value, (v: ComponentVersion) => Newer(v, appVersion, compare))
  }

  /** The first branch from position `from` on passing the fallback's
      test, or -1. */
  function OtherBranch(branches: seq<Branch>, current: int, appVersion: string, compare: (string, string) -> int, from: nat): (k: int)
    requires from <= |branches|
    ensures k == -1 || (from <= k < |branches| && OtherCandidate(branches, k, current, appVersion, compare))
    ensures forall j :: from <= j < |branches| && (k == -1 || j < k) ==> !OtherCandidate(branches, j, current, appVersion, compare)
    decreases |branches| - from
  {
    if from == |branches| then -1
    else if OtherCandidate(branches, from, current, appVersion, compare) then from
    else OtherBranch(branches, current, appVersion, compare, from + 1)
  }

  /** `versions.flatMap(version => version.artifacts)`. */
  function AllArtifacts(versions: seq<ComponentVersion>): (r: seq<VersionArtifact>)
    ensures forall a :: a in r <==> exists i :: 0 <= i < |versions| && a in versions[i].artifacts
  {
    if versions == [] then []
    else
      var rest := AllArtifacts(versions[1..]);
      assert forall i :: 1 <= i < |versions| ==> versions[i] == versions[1..][i - 1];
      versions[0].artifacts + rest
  }

  /** `flatMap` keeps the versions' order: the artifacts of two runs of
      versions are those of the first run, then those of the second. */
  lemma {:induction false} AllArtifactsAppend(a: seq<ComponentVersion>, b: seq<ComponentVersion>)
    ensures AllArtifacts(a + b) == AllArtifacts(a) + AllArtifacts(b)
  {
    if a == [] {
      assert a + b == b;
    } else {
      assert (a + b)[1..] == a[1..] + b;
      AllArtifactsAppend(a[1..], b);
    }
  }

  /** The first chart of two runs of artifacts is the first run's, if it
      has one, and the second run's otherwise. */
  lemma FirstHelmChartAppend(a: seq<VersionArtifact>, b: seq<VersionArtifact>)
    ensures FirstHelmChart(a + b) == if FirstHelmChart(a).Some? then FirstHelmChart(a) else FirstHelmChart(b)
  {
    var ab := a + b;
    var k := FindIndex(ab, IsHelmChart);
    var ka := FindIndex(a, IsHelmChart);
    var kb := FindIndex(b, IsHelmChart);
    assert forall j :: 0 <= j < |a| ==> ab[j] == a[j];
    assert forall j :: 0 <= j < |b| ==> ab[|a| + j] == b[j];
    if ka >= 0 {
      assert k == ka;
    } else if kb >= 0 {
      assert k == |a| + kb;
    } else {
      assert k == -1;
    }
  }

  /** Version `v` is the first of the versions with a Helm chart. */
  predicate FirstChartVersion(versions: seq<ComponentVersion>, v: int)
  {
    0 <= v < |versions| && FirstHelmChart(versions[v].artifacts).Some?
    && forall u :: 0 <= u < v ==> FirstHelmChart(versions[u].artifacts).None?
  }

  /** The first chart across the versions, in `flatMap` order, is the
      first chart of the first version that has one; there is none exactly
      when no version has a chart. */
  lemma {:induction false} FirstChartAcrossVersions(versions: seq<ComponentVersion>)
    ensures FirstHelmChart(AllArtifacts(versions)).None? <==>
      forall v :: 0 <= v < |versions| ==> FirstHelmChart(versions[v].artifacts).None?
    ensures forall v :: FirstChartVersion(versions, v) ==>
      FirstHelmChart(AllArtifacts(versions)) == FirstHelmChart(versions[v].artifacts)
  {
    if versions != [] {
      var rest := versions[1..];
      FirstChartAcrossVersions(rest);
      assert AllArtifacts(versions) == versions[0].artifacts + AllArtifacts(rest);
      FirstHelmChartAppend(versions[0].artifacts, AllArtifacts(rest));
      assert forall v :: 1 <= v < |versions| ==> versions[v] == rest[v - 1];
      forall v | FirstChartVersion(versions, v)
        ensures FirstHelmChart(AllArtifacts(versions)) == FirstHelmChart(versions[v].artifacts)
      {
        if v > 0 {
          assert FirstHelmChart(versions[0].artifacts).None?;
          assert forall u :: 0 <= u < v - 1 ==> rest[u] == versions[u + 1];
          assert FirstChartVersion(rest, v - 1);
        }
      }
    }
  }

  /** The update the page settles on; `None` when no branch matches the
      release's app version, where the page throws and the handler only
      logs, so `update` keeps its value. */
  function FindUpdate(branches: seq<Branch>, appVersion: string,
                      matches: (string, string) -> bool, compare: (string, string) -> int): (r: Option<UpdateState>)
    ensures r.None? <==> CurrentBranch(branches, appVersion, matches) < 0
    ensures r != Some(Pending)
    ensures r.Some? && r.value.Available? ==> IsHelmChart(r.value.artifact)
  {
    var current := CurrentBranch(branches, appVersion, matches);
    if current < 0 then None
    else
      var versions := branches[current].versions;
      var k := if versions.Some? then FindIndex(versions.value, (v: ComponentVersion) => NewerWithChart(v, appVersion, compare)) else -1;
      if k >= 0 then Some(Available(FirstHelmChart(versions.value[k].artifacts).value))
      else
        var j := OtherBranch(branches, current, appVersion, compare, 0);
        var chart := if j >= 0 then FirstHelmChart(AllArtifacts(branches[j].versions.value)) else None;
        if chart.Some? then Some(Available(chart.value)) else Some(NoUpdate)
  }

  /** Whatever the search offers is a Helm chart of some version of some
      branch, and no branch matching means the search gives up. */
  lemma FindUpdateOffersCharts(branches: seq<Branch>, appVersion: string,
                               matches: (string, string) -> bool, compare: (string, string) -> int)
    ensures var r := FindUpdate(branches, appVersion, matches, compare);
      (r.None? <==> forall i :: 0 <= i < |branches| ==> !matches(appVersion, branches[i].branchPattern))
      && (r != Some(Pending))
      && (r.Some? && r.value.Available? ==>
            IsHelmChart(r.value.artifact)
            && exists b, v :: 0 <= b < |branches| && branches[b].versions.Some?
                 && 0 <= v < |branches[b].versions.value| && r.value.artifact in branches[b].versions.value[v].artifacts)
  {
    var r := FindUpdate(branches, appVersion, matches, compare);
    var current := CurrentBranch(branches, appVersion, matches);
    FindIndexFound(branches, (b: Branch) => matches(appVersion, b.branchPattern));
    if current >= 0 {
      var versions := branches[current].versions;
      var k := if versions.Some? then FindIndex(versions.value, (v: ComponentVersion) => NewerWithChart(v, appVersion, compare)) else -1;
      if k < 0 {
        var j := OtherBranch(branches, current, appVersion, compare, 0);
        if j >= 0 && r.value.Available? {
          var a := r.value.artifact;
          assert a in AllArtifacts(branches[j].versions.value);
          var v :| 0 <= v < |branches[j].versions.value| && a in branches[j].versions.value[v].artifacts;
        }
      }
    }
  }

  /** The current branch wins: when it has a newer version with a chart,
      the update is the first chart of the first such version. */
  lemma CurrentBranchFirst(branches: seq<Branch>, appVersion: string,
                           matches: (string, string) -> bool, compare: (string, string) -> int, v: nat)
    requires var c := CurrentBranch(branches, appVersion, matches);
      c >= 0 && branches[c].versions.Some? && v < |branches[c].versions.value|
      && NewerWithChart(branches[c].versions.value[v], appVersion, compare)
      && forall u :: 0 <= u < v ==> !NewerWithChart(branches[c].versions.value[u], appVersion, compare)
    ensures var c := CurrentBranch(branches, appVersion, matches);
      FindUpdate(branches, appVersion, matches, compare) == Some(Available(FirstHelmChart(branches[c].versions.value[v].artifacts).value))
  {
  }

  /** The fallback: when no version of the current branch is newer and
      has a chart, the update is the first chart, in `flatMap` order, of
      the first other branch with a newer version, and there is no update
      when there is no such branch or it has no chart. */
  lemma FallbackChoice(branches: seq<Branch>, appVersion: string,
                       matches: (string, string) -> bool, compare: (string, string) -> int)
    requires var c := CurrentBranch(branches, appVersion, matches);
      c >= 0 && (branches[c].versions.Some? ==>
        forall u :: 0 <= u < |branches[c].versions.value| ==> !NewerWithChart(branches[c].versions.value[u], appVersion, compare))
    ensures var c := CurrentBranch(branches, appVersion, matches);
      var j := OtherBranch(branches, c, appVersion, compare, 0);
      var r := FindUpdate(branches, appVersion, matches, compare);
      (j == -1 ==> r == Some(NoUpdate))
      && (j >= 0 ==>
            var versions := branches[j].versions.value;
            ((forall v :: 0 <= v < |versions| ==> FirstHelmChart(versions[v].artifacts).None?) ==> r == Some(NoUpdate))
            && forall v :: FirstChartVersion(versions, v) ==>
                 r == Some(Available(FirstHelmChart(versions[v].artifacts).value)))
  {
    var c := CurrentBranch(branches, appVersion, matches);
    var j := OtherBranch(branches, c, appVersion, compare, 0);
    if branches[c].versions.Some? {
      var k := FindIndex(branches[c].versions.value, (v: ComponentVersion) => NewerWithChart(v, appVersion, compare));
      assert k == -1;
    }
    if j >= 0 {
      FirstChartAcrossVersions(branches[j].versions.value);
    }
  }

  /** The fallback's choice need not belong to the newer version: when the
      other branch's chart sits only on an older version, that older chart
      is offered. */
  lemma FallbackMayOfferOlderChart()
    ensures var older := ComponentVersion("1.0", [VersionArtifact("chart-1.0", HelmChart)]);
      var newer := ComponentVersion("2.0", []);
      var branches := [Branch("^0", Some([])), Branch("^1", Some([older, newer]))];
      var matches := (version: string, pattern: string) => pattern == "^0";
      var compare := (a: string, b: string) => if a == "2.0" then 1 else -1;
      FindUpdate(branches, "0.9", matches, compare) == Some(Available(VersionArtifact("chart-1.0", HelmChart)))
      && !Newer(older, "0.9", compare)
  {
    var older := ComponentVersion("1.0", [VersionArtifact("chart-1.0", HelmChart)]);
    var newer := ComponentVersion("2.0", []);
    var branches := [Branch("^0", Some([])), Branch("^1", Some([older, newer]))];
    var compare := (a: string, b: string) => if a == "2.0" then 1 else -1;
    assert Newer(newer, "0.9", compare);
    assert [older, newer][1] == newer;
    assert OtherCandidate(branches, 1, 0, "0.9", compare);
    assert [older, newer][1..] == [newer] && [newer][1..] == [];
    assert AllArtifacts([newer]) == newer.artifacts + AllArtifacts([]);
    assert AllArtifacts([older, newer]) == older.artifacts + AllArtifacts([newer]);
    assert AllArtifacts([older, newer]) == [VersionArtifact("chart-1.0", HelmChart)];
  }

  /** The update control: a placeholder while the search has not settled,
      the Update button when an update was found, nothing otherwise. */
  datatype UpdateControl = Placeholder | UpdateButton | NoControl

  function Control(update: UpdateState): (c: UpdateControl)
    ensures c == Placeholder <==> update == Pending
    ensures c == UpdateButton <==> update.Available?
  {
    match update
    case Pending => Placeholder
    case NoUpdate => NoControl
    case Available(_) => UpdateButton
  }

  // ---------------------------------------------------------------------
  // Alert and notes

  /** The failure alert: the description of the last revision when its
      status is `failed`, nothing otherwise. The page reads the last
      revision unconditionally, so it needs one. */
  function FailedAlert(history: seq<HistoryItem>): (alert: Option<string>)
    requires |history| > 0
    ensures alert.Some? <==> history[|history| - 1].status == "failed"
    ensures alert.Some? ==> alert.value == history[|history| - 1].description
  {
    var last := history[|history| - 1];
    if last.status == "failed" then Some(last.description) else None
  }

  /** A revision appended after a failed one decides the alert alone. */
  lemma FailedAlertLatest(history: seq<HistoryItem>, latest: HistoryItem)
    ensures FailedAlert(history + [latest]).Some? <==> latest.status == "failed"
  {
  }

  const NoNotes := "This workload does not have a NOTES.txt"

  /** The notes box: the non-empty lines of the notes, or the placeholder
      line when the release has no (or empty) notes. */
  function NotesLines(notes: Option<string>): (lines: seq<string>)
    ensures notes.None? || notes.value == "" ==> lines == [NoNotes]
    ensures notes.Some? && notes.value != "" ==>
      lines == Filter(Split(notes.value, '\n'), NonEmptyLine)
      && (forall i :: 0 <= i < |lines| ==> lines[i] != "" && '\n' !in lines[i])
      && Concat(lines) == Remove(notes.value, '\n')
  {
    if notes.Some? && notes.value != "" then NonEmptyLines(notes.value) else [NoNotes]
  }
}
