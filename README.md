# Application Collection extension: a Dafny model of its logic

The Application Collection Docker Desktop extension installs, upgrades and
removes Helm charts from the SUSE Application Collection
(`oci://dp.apps.rancher.io/charts/`). It also keeps credentials for `docker`,
`kubectl`, `helm` and its own backend in step, and it keeps a store of
notifications. Most of the code calls command-line tools or draws React
components. This project models the decision logic inside that code and
proves properties of it. One module models each source file:

- **Flatten** (`backend/clients/helm.js` `flatten`, also copied into the file
  picker and the edit dialog). A parsed YAML document becomes a dictionary
  from dotted and indexed paths to leaves.
  - The dictionary is insertion ordered. Assigning a key that is already
    present keeps that key's slot, as a JavaScript object does.
  - The function `Walk` is the specification.
  - The class `Flattener` is the source's imperative form: a `result` field,
    a recursive `Recurse`, an index loop over arrays, and a member loop with
    its `isEmpty` flag. It is proved equal to `Walk`.
  - Lemmas prove what the dictionary holds: unique keys, only leaf paths, and
    every leaf path.
- **HelmClient** (`ui/src/clients/helm.ts`). It covers:
  - the status mapping;
  - chart `<name>-<version>` handling and artifact base names;
  - the argument lists of `helm install`, `upgrade`, `uninstall` and
    `registry login`;
  - the choice between upgrade and edit;
  - the stdout/stderr collector (a class);
  - the exit-code rule;
  - `findAllHelmCharts`, `findHelmChart` (a method with the source's loop and
    early exit) and `findRelease`.
- **Kubectl** (`ui/src/clients/kubectl.ts`): the `kubectl` argument lists, the
  secret check and the service lookup.
- **NotificationStore** (`backend/clients/notifications.js`): the notification
  store. It is a class with a `seq` field standing for the JSON file. Its
  operations are save (reject a duplicate id, then sort newest first), delete
  and update.
- **NotificationsContext** and **NotificationsCenter**: the notifications
  reducer, and the list the notifications centre shows (filtered, then sorted
  newest first).
- **AuthContext** (`ui/src/AuthContext.tsx`). The auth reducer is a function.
  The provider is a class whose state includes the stored token.
- **AuthenticationForm**: `saveAuth`, a class whose methods run the eight
  steps in order:
  1. docker logout
  2. docker login
  3. kubernetes logout
  4. kubernetes login
  5. helm logout
  6. helm login
  7. backend logout
  8. backend login

  Each step's outcome is a parameter.
- **Layout**: whether the authentication screen shows, the notification
  badge and its colour, and the Back button.
- **WorkloadDetails**: the application slug, the port mappings, the update
  search, the update control, the failure alert and the notes lines.
- **HistoryTimeLine**: how descriptions are shown, the error and revision
  label, and the timeline's connectors.
- **SettingsPage**: the Kubernetes context selector and the form's state.
- **FilePicker**: the helper text and the outcome of choosing a values file.
  The picker is a class.
- **EditDialog**: the values rows (edit, remove, add, import), the help
  command, the Update button and the error view.
- **Wrappers**, **Seqs**, **Strings** and **Sorting** are helpers:
  - the JavaScript `find`, `filter`, `split`, `join`, `lastIndexOf`,
    `includes` and `replace` as used;
  - the decimal rendering of numbers;
  - the stable sort, newest first, that `Array.prototype.sort` performs with
    these comparators.

Some operations are not modelled directly, and each becomes a parameter of
the function or method that uses it:

- command execution, whose outcomes (stdout, stderr, exit code, rejection)
  are passed in;
- `JSON.parse`, `yaml.parse` and `JSON.stringify`;
- regular expression matching;
- `compareVersions`.

## Model

| member | source | states |
|---|---|---|
| Flatten.Put | backend/clients/helm.js:92 | `result[prop] = v`: the pair is present, its key joins the key set, unique keys stay unique, and an existing key keeps its place, so no other entry moves or changes |
| Flatten.KeyIndex | backend/clients/helm.js:92 | finds the slot holding a key, or reports it absent |
| Flatten.Flattener.Recurse | backend/clients/helm.js:90-110 | the imperative walk leaves `result` equal to the `Walk` specification applied to the old `result` |
| Flatten.Flattener.RecurseItems | backend/clients/helm.js:93-98 | the array loop adds the elements' entries in index order, each under `prop[i]` |
| Flatten.Flattener.RecurseMembers | backend/clients/helm.js:100-108 | the object branch: the members' entries, then `{}` under a non-empty path when there are no members |
| Flatten.Flattener.RecurseMemberLoop | backend/clients/helm.js:101-106 | the `for…in` loop: `isEmpty` stays true exactly when the object has no members, and `result` gains the members' entries in order |
| Flatten.Flattener.RecurseMember | backend/clients/helm.js:105 | one member is walked under `prop.k`, or under `k` at the root |
| Flatten.Flattener.constructor | backend/clients/helm.js:88 | the dictionary starts empty |
| Flatten.FlattenValues | backend/clients/helm.js:87-115 | running the imperative flattener from the root path `''` gives `Flatten(data)` |
| Flatten.Walk | backend/clients/helm.js:90-110 | what `recurse(cur, prop)` leaves in `result`: a scalar or null is put under its path, arrays and objects are walked element by element, and an empty object under a non-empty path records `{}`; its properties are `WalkSound`, `WalkComplete` and `WalkUnique` |
| Flatten.WalkSound | backend/clients/helm.js:90-110 | every entry the walk adds is a leaf of the walked node, keyed by that leaf's path |
| Flatten.WalkItemsSound | backend/clients/helm.js:95-98 | the same for the elements from index `i` on |
| Flatten.WalkMembersSound | backend/clients/helm.js:103-106 | the same for the members from index `i` on |
| Flatten.WalkComplete | backend/clients/helm.js:90-110 | no key is lost, and the path of every leaf of the walked node becomes a key |
| Flatten.WalkItemsComplete | backend/clients/helm.js:95-98 | the same for the elements from index `i` on |
| Flatten.WalkMembersComplete | backend/clients/helm.js:103-106 | the same for the members from index `i` on |
| Flatten.WalkUnique | backend/clients/helm.js:90-110 | keys stay unique through the walk |
| Flatten.WalkItemsUnique | backend/clients/helm.js:95-98 | keys stay unique through the array loop |
| Flatten.WalkMembersUnique | backend/clients/helm.js:103-106 | keys stay unique through the member loop |
| Flatten.LiftIndex | backend/clients/helm.js:96 | a leaf of element `j` at path `prop[j]` is a leaf of the array at `prop` |
| Flatten.LiftField | backend/clients/helm.js:105 | a leaf of member `j` at its member path is a leaf of the object at `prop` |
| Flatten.FlattenLeaves | backend/clients/helm.js:87-115 | the flattened dictionary has distinct keys; every value is a scalar, null or empty object, stored under its own path; every leaf path of the document is a key |
| Flatten.FlattenPrimitiveRoot | backend/clients/helm.js:91-92 | a scalar or null root is stored under the key `''` |
| Flatten.EmptyObject | backend/clients/helm.js:108 | an empty object under a non-empty path records `{}`; an empty root object gives an empty result |
| Flatten.EmptyArray | backend/clients/helm.js:95-98 | an empty array contributes no key, at the root or under a member |
| Flatten.FlagPairs | ui/src/clients/helm.ts:231 | `flatMap` of rows into a flag and `key=value` per row: `2·n` arguments, the flag at even places, each row's `key=value` after it, in row order |
| Flatten.FlagPairsAppend | ui/src/clients/kubectl.ts:51 | the arguments of two row lists are the concatenation of theirs |
| Flatten.ToRows | ui/src/components/Helm/FilePicker.tsx:30 | one `{key, value}` row per flattened key, in the dictionary's order |
| HelmClient.MapStatus | ui/src/clients/helm.ts:73-90 | `superseded`/`deployed` are running; `unknown`/`failed` are errors; `uninstalling` and the three `pending-*` statuses are loading; `uninstalled` and any other string are not running |
| HelmClient.ChartVersion | ui/src/clients/helm.ts:117 | the text after the last `-`: a dash-free suffix of the chart preceded by `-`, or the whole chart when it has no `-` |
| HelmClient.ChartName | ui/src/clients/helm.ts:307 | the chart without its last `-` segment, and `''` when it has no `-` |
| HelmClient.ArtifactBase | ui/src/clients/helm.ts:228 | the longest colon-free prefix of the artifact name, so the whole name when it has no `:` |
| HelmClient.ChartRoundTrip | ui/src/clients/helm.ts:259 | a chart built as `base-version`, with a dash-free version, yields back its version and its base |
| HelmClient.ChartSplit | ui/src/clients/helm.ts:117 | a chart with a `-` is its name, `-` and version put back together |
| HelmClient.ToListItems | ui/src/clients/helm.ts:113-119 | one list item per release, in order, with the version taken from the chart |
| HelmClient.FindAllHelmCharts | ui/src/clients/helm.ts:106-128 | rejects with `helm required on host machine` exactly when helm is absent; settles nothing exactly when the listing fails; otherwise resolves with the converted list, one item per release in order, each with its name, status and the version read from its chart |
| HelmClient.Candidates | ui/src/clients/helm.ts:139 | exactly the releases whose chart starts with the component name |
| HelmClient.FindHelmChart | ui/src/clients/helm.ts:130-164 | the method gives the result of the search specification |
| HelmClient.FindHelmChartSpec | ui/src/clients/helm.ts:130-164 | rejects, with `helm required on host machine`, exactly when helm is absent; settles nothing when the listing fails; resolves with undefined when no release's chart starts with the component name |
| HelmClient.SearchFromNeverRejects | ui/src/clients/helm.ts:139-156 | the search through the candidates never rejects: it resolves, or settles nothing |
| HelmClient.SearchCandidates | ui/src/clients/helm.ts:139-156 | the `for` loop with its early `break` gives what the recursive search gives |
| HelmClient.SearchFromStep | ui/src/clients/helm.ts:140-153 | one step: a failed or empty history leaves the promise unsettled; a matching last revision resolves with that release; a miss moves on |
| HelmClient.SearchFromFirstHit | ui/src/clients/helm.ts:139-156 | after misses only, the first hit is the result |
| HelmClient.SearchFromSkips | ui/src/clients/helm.ts:139-154 | a run of misses is skipped |
| HelmClient.SearchFromNone | ui/src/clients/helm.ts:139-156 | the search resolves with `undefined` exactly when every candidate is a miss |
| HelmClient.SearchFromFound | ui/src/clients/helm.ts:139-156 | a found release is a hit whose predecessors are all misses |
| HelmClient.FindHelmChartFirst | ui/src/clients/helm.ts:130-164 | a found release is, at some position of the listing, a release whose chart starts with the component name and whose last revision's app version matches, and every earlier release whose chart starts with that name was read and missed; `undefined` exactly when every such release misses |
| HelmClient.CandidatesFirstHit | ui/src/clients/helm.ts:139-156 | the first hit among the filtered candidates is, in the unfiltered listing, a candidate hit preceded only by candidate misses |
| HelmClient.FirstNamed | ui/src/clients/helm.ts:171 | the index of the first release with that name, or none |
| HelmClient.FindRelease | ui/src/clients/helm.ts:166-201 | a listing failure, a missing name and a failed history or notes read each reject with their message; otherwise it resolves with the first release of that name, its history and its notes |
| HelmClient.SetArgs | ui/src/clients/helm.ts:231 | `2·n` arguments, `--set` at even places and `key=value` after each, in input order |
| HelmClient.SetArgsAppend | ui/src/clients/helm.ts:314 | the `--set` list of two row lists is the concatenation of theirs |
| HelmClient.HelmLoginArgs | ui/src/clients/helm.ts:98-104 | `registry login dp.apps.rancher.io/charts -u <user> -p <token>` |
| HelmClient.InstallArgs | ui/src/clients/helm.ts:227-235 | the install command: chart reference and version, the pull-secret `--set` before the user's values, then description, generated name, matcher label and JSON output |
| HelmClient.DefaultValuesArgs | ui/src/clients/helm.ts:208-231 | called with the default values, install sets the pull secret twice, by its own argument and by the default; upgrade and edit set it once, from the default |
| HelmClient.UpgradeArgs | ui/src/clients/helm.ts:311-317 | the upgrade command: release, reference, namespace, the values' `--set` list, description, JSON output, then the extra arguments |
| HelmClient.UpgradeArgsReference | ui/src/clients/helm.ts:305-311 | the third upgrade argument is the chosen chart reference |
| HelmClient.UpgradeChoice | ui/src/clients/helm.ts:290-309 | with an artifact: the artifact's reference, `--version <v>` and `Upgrade from <old> to <new>`; without one: the installed chart's reference, no extra argument and `Edit version <v> values` |
| HelmClient.StreamAppend | ui/src/clients/helm.ts:237-243 | collecting two runs of output chunks is collecting each in turn |
| HelmClient.StdoutAppend | ui/src/clients/helm.ts:239-240 | the same for stdout |
| HelmClient.StderrAppend | ui/src/clients/helm.ts:241-242 | the same for stderr |
| HelmClient.ChunkRouting | ui/src/clients/helm.ts:237-243 | a chunk with non-empty stdout goes to stdout; otherwise its stderr goes to stderr |
| HelmClient.StreamCollector.constructor | ui/src/clients/helm.ts:224-225 | both buffers start empty |
| HelmClient.StreamCollector.OnOutput | ui/src/clients/helm.ts:237-243 | one `onOutput` call appends the chunk's stdout or its stderr |
| HelmClient.Collect | ui/src/clients/helm.ts:224-243 | feeding the chunks to the collector one by one gives the stdout and stderr of the whole stream |
| HelmClient.OnClose | ui/src/clients/helm.ts:248-264 | an exit code above zero rejects with the collected stderr; otherwise a parsable stdout resolves with what it parses to, and an unparsable one settles nothing |
| HelmClient.InstallHelmChartSpec | ui/src/clients/helm.ts:203-269 | without the secret: reject with its message and issue no command; otherwise run the install command; `onError` rejects with its error; a failed exit rejects with stderr; a clean exit resolves with the release built from the parsed output, the artifact's chart and version and the given app version, or settles nothing when the output does not parse |
| HelmClient.InstallHelmChart | ui/src/clients/helm.ts:203-269 | the method, with the collector, gives the specification's result |
| HelmClient.UpgradeHelmChartSpec | ui/src/clients/helm.ts:278-351 | as for install, except that `onError` rejects with `Unexpected error upgrading release: ` and the error; a clean exit resolves with the release built from the parsed output, with the artifact's chart and version, or the release's own without an artifact |
| HelmClient.UpgradeHelmChart | ui/src/clients/helm.ts:278-351 | the method, with the collector, gives the specification's result |
| HelmClient.EditHelmChart | ui/src/clients/helm.ts:270-276 | an upgrade without an artifact: the release keeps its chart and version |
| HelmClient.EditTargetsInstalledChart | ui/src/clients/helm.ts:259 | editing a release installed from an artifact targets that artifact's chart, and its version reads back from the chart string |
| HelmClient.UninstallArgs | ui/src/clients/helm.ts:355-358 | `uninstall <name> -n <namespace> --wait` |
| HelmClient.UninstallHelmChart | ui/src/clients/helm.ts:353-367 | resolves when the command succeeds and rejects with its fixed message otherwise |
| Kubectl.KubernetesLoginArgs | ui/src/clients/kubectl.ts:17-24 | the secret creation command with username and token right after `--docker-username` and `--docker-password` |
| Kubectl.FindKubernetesSecret | ui/src/clients/kubectl.ts:32-46 | true exactly when the returned name is `application-collection`; a failed command or parse gives false |
| Kubectl.SelectorArgs | ui/src/clients/kubectl.ts:51 | `-l key=value` per selector, in order |
| Kubectl.SelectorArgsAppend | ui/src/clients/kubectl.ts:51 | the selector arguments of two lists are the concatenation of theirs |
| Kubectl.GetServicesArgs | ui/src/clients/kubectl.ts:50-52 | `get services`, the selector arguments, `-o json`; length `4 + 2k` |
| Kubectl.GetServices | ui/src/clients/kubectl.ts:48-61 | resolves with the listed items, or rejects with `Unexpected error getting services` |
| NotificationStore.Merge | backend/clients/notifications.js:49 | `Object.assign`: the update's fields override, all others are kept |
| NotificationStore.Saved | backend/clients/notifications.js:33-35 | the old entries plus the new one, as a multiset, sorted newest first |
| NotificationStore.WithoutId | backend/clients/notifications.js:13 | exactly the entries with another id remain |
| NotificationStore.Updated | backend/clients/notifications.js:47-50 | same length and order; the entries with that id are merged, the rest are unchanged |
| NotificationStore.NotificationStore.constructor | backend/clients/notifications.js:18-25 | a store with no file reads as the empty list |
| NotificationStore.NotificationStore.ReadNotifications | backend/clients/notifications.js:18-25 | returns the stored list |
| NotificationStore.NotificationStore.SaveNotification | backend/clients/notifications.js:27-37 | fails, changing nothing, exactly when the id is present; otherwise stores the sorted list with the new entry; keeps ids unique |
| NotificationStore.NotificationStore.DeleteNotification | backend/clients/notifications.js:5-16 | fails, changing nothing, exactly when the id is absent; otherwise removes that id's entries |
| NotificationStore.NotificationStore.UpdateNotification | backend/clients/notifications.js:39-53 | fails, changing nothing, exactly when the id is absent; otherwise merges the update into that id's entry |
| NotificationStore.SaveKeepsIdsUnique | backend/clients/notifications.js:29-33 | a save of a new id keeps ids unique |
| NotificationStore.SaveIntoSorted | backend/clients/notifications.js:33-35 | into a sorted store, the new entry goes after every newer or equally new entry and before older ones; the rest keep their order |
| NotificationStore.DeleteKeepsOrder | backend/clients/notifications.js:13 | deleting works piecewise, and a sorted store stays sorted without re-sorting |
| NotificationStore.DeleteCounts | backend/clients/notifications.js:13 | every entry with another id stays as often as it was there; none with the id does |
| NotificationStore.DeleteKeepsIdsUnique | backend/clients/notifications.js:13 | deleting keeps ids unique |
| NotificationStore.UpdateKeepsIdsUnique | backend/clients/notifications.js:47-50 | an update that does not change the id keeps ids unique |
| NotificationStore.UpdateKeepsSorted | backend/clients/notifications.js:47-50 | an update that does not change the timestamp keeps the store sorted |
| NotificationStore.UpdateChangesOne | backend/clients/notifications.js:47-50 | with unique ids, exactly one entry changes |
| NotificationsContext.Reduce | ui/src/components/NotificationsCenter/NotificationsContext.tsx:18-36 | `add` appends the payload; `dismiss` flags exactly the entries equal to the payload and keeps every other field; an unknown action changes nothing |
| NotificationsContext.DeleteRemovesPayload | ui/src/components/NotificationsCenter/NotificationsContext.tsx:31-32 | `delete` removes every copy of the payload and keeps every other entry as often as before, in order |
| NotificationsContext.NoReorder | ui/src/components/NotificationsCenter/NotificationsContext.tsx:18-36 | no action reorders the entries |
| NotificationsCenter.SetFilter | ui/src/components/NotificationsCenter/index.tsx:37 | the toggle sets the chosen filter |
| NotificationsCenter.Passes | ui/src/components/NotificationsCenter/index.tsx:53 | under `unread` a notification passes when it is not dismissed; under any other filter every notification passes, since the callback returns the object itself |
| NotificationsCenter.Shown | ui/src/components/NotificationsCenter/index.tsx:52-54 | the shown list is sorted newest first and passes the filter |
| NotificationsCenter.UnreadShowsUndismissed | ui/src/components/NotificationsCenter/index.tsx:53-54 | with `unread`, the shown list is a permutation of the undismissed notifications |
| NotificationsCenter.OtherFiltersShowAll | ui/src/components/NotificationsCenter/index.tsx:10 | with `all` (the initial filter), the shown list is a permutation of all notifications |
| NotificationsCenter.ShownOfSorted | ui/src/components/NotificationsCenter/index.tsx:54 | the sort is stable: an already sorted list shows in its own order |
| AuthContext.Reduce | ui/src/AuthContext.tsx:21-55 | `set`/`update` replace `auth` only with a truthy payload auth and `errors` only with payload errors; `dismiss_errors` keeps `auth` and flags exactly the listed errors; `delete` gives `{auth: null}`; an unknown type gives undefined |
| AuthContext.ListedIff | ui/src/AuthContext.tsx:37 | an error counts as listed exactly when the payload carries an error with its message |
| AuthContext.StoredAfter | ui/src/AuthContext.tsx:25-27 | the stored token changes only by a `set`/`update` with a truthy auth, which stores it, or by `delete`, which removes it |
| AuthContext.InitialState | ui/src/AuthContext.tsx:58 | the stored token when there is a non-empty one, undefined otherwise, and no errors |
| AuthContext.ProviderValue | ui/src/AuthContext.tsx:57-66 | the context value is the reducer's state: a record, or `undefined` exactly when the state is undefined, never `null` |
| AuthContext.ReduceKeepsConsistent | ui/src/AuthContext.tsx:21-58 | a truthy `auth` in the state is the stored token, after any action |
| AuthContext.DismissErrorsTwice | ui/src/AuthContext.tsx:33-46 | dismissing the same errors twice is dismissing them once |
| AuthContext.DeleteLogsOut | ui/src/AuthContext.tsx:47-51 | after `delete`, neither the state nor the storage holds a token |
| AuthContext.AuthStore.constructor | ui/src/AuthContext.tsx:58 | the provider starts from the stored token |
| AuthContext.AuthStore.Dispatch | ui/src/AuthContext.tsx:21-55 | a dispatch applies the reducer and its storage effect, and keeps state and storage consistent |
| AuthenticationForm.NewAuth | ui/src/pages/SettingsPage/components/AuthenticationForm.tsx:23 | `user:token` is never empty and splits back into its parts when neither holds a `:` |
| AuthenticationForm.FailureMessage | ui/src/pages/SettingsPage/components/AuthenticationForm.tsx:57-89 | the fixed message of each failed login: the Kubernetes, helm and backend constants; for docker, `Invalid authentication pair` exactly when stderr holds `401 Unauthorized`, and the daemon message otherwise |
| AuthenticationForm.SettledMessage | ui/src/pages/SettingsPage/components/AuthenticationForm.tsx:41-66 | the error a failed login leaves: its own message, except that after a backend failure the uncleared timer's `Timeout connecting…` message comes last unless the backend answered after the timer fired |
| AuthenticationForm.Position | ui/src/pages/SettingsPage/components/AuthenticationForm.tsx:26-46 | each step has its place in the fixed order |
| AuthenticationForm.FirstFailedLogin | ui/src/pages/SettingsPage/components/AuthenticationForm.tsx:26-90 | the first login in chain order that fails, or none exactly when all four succeed |
| AuthenticationForm.SetActionAsWritten | ui/src/pages/SettingsPage/components/AuthenticationForm.tsx:48-51 | the dispatched action carries the bare string as its payload |
| AuthenticationForm.SetActionAsWrittenKeepsOldAuth | ui/src/pages/SettingsPage/components/AuthenticationForm.tsx:48-51 | that action leaves both the reducer's auth and the stored token as they were |
| AuthenticationForm.SetAction | ui/src/pages/SettingsPage/components/AuthenticationForm.tsx:48-51 | an action whose payload auth is the new credentials, without errors |
| AuthenticationForm.SetActionStoresCredentials | ui/src/AuthContext.tsx:25-30 | dispatching it puts the credentials in the state and in storage |
| AuthenticationForm.InitialFieldsAsWritten | ui/src/pages/SettingsPage/components/AuthenticationForm.tsx:13-16 | `auth?.split(':')` throws a TypeError exactly when the context value is a record, and gives no username or token otherwise |
| AuthenticationForm.InitialFieldsAsWrittenThrows | ui/src/pages/SettingsPage/components/AuthenticationForm.tsx:13-16 | under the provider the form throws while rendering: the first state and every state a known action leaves are records |
| AuthenticationForm.InitialFields | ui/src/pages/SettingsPage/components/AuthenticationForm.tsx:15-16 | the corrected prefill: nothing without a credential string, otherwise the text before its first `:` and, when there is one, a colon-free part after it |
| AuthenticationForm.InitialFieldsRoundTrip | ui/src/pages/SettingsPage/components/AuthenticationForm.tsx:15-16 | with the corrected dispatch and prefill, saved credentials come back as the form's username and token, in the same session and after a restart |
| AuthenticationForm.StepsRun | ui/src/pages/SettingsPage/components/AuthenticationForm.tsx:26-91 | the steps run are a prefix of the fixed order of at least two and at most eight steps, a logout and a login at a time |
| AuthenticationForm.StepsRunInOrder | ui/src/pages/SettingsPage/components/AuthenticationForm.tsx:26-46 | the steps run are a prefix of the fixed order, a logout and a login at a time; every earlier login succeeded, and the last step is the failed login or the backend login |
| AuthenticationForm.FailureStopsChain | ui/src/pages/SettingsPage/components/AuthenticationForm.tsx:57-89 | a failed login after successful earlier logins is the last step run, and it leaves state `error` with the message it settles on |
| AuthenticationForm.SavedIffAllLoginsSucceed | ui/src/pages/SettingsPage/components/AuthenticationForm.tsx:47-55 | state `saved` is reached exactly when the fields are filled and all four logins succeed, and then the error is cleared |
| AuthenticationForm.ChainView | ui/src/pages/SettingsPage/components/AuthenticationForm.tsx:47-90 | the chain always settles in `saved` or `error`; `saved` exactly when all four logins succeed, and exactly when no error is shown |
| AuthenticationForm.SaveAuthSpec | ui/src/pages/SettingsPage/components/AuthenticationForm.tsx:21-93 | without both fields nothing changes; with them the form ends in `saved` or `error`, never `loading` |
| AuthenticationForm.LogoutsDoNotMatter | ui/src/pages/SettingsPage/components/AuthenticationForm.tsx:27-45 | the logouts' outcomes change neither the steps run nor the result |
| AuthenticationForm.Form.constructor | ui/src/pages/SettingsPage/components/AuthenticationForm.tsx:17-18 | no state, no error and no command issued yet |
| AuthenticationForm.Form.RunPair | ui/src/pages/SettingsPage/components/AuthenticationForm.tsx:26-29 | a logout then a login are issued; only the login's outcome counts |
| AuthenticationForm.Form.SaveAuth | ui/src/pages/SettingsPage/components/AuthenticationForm.tsx:21-93 | as written: nothing happens unless both fields are filled; otherwise the steps of the chain are issued and the form ends as the chain specifies; the store is dispatched to only when every login succeeds, and then with the bare-string action, so the stored token and the state's `auth` never change |
| AuthenticationForm.Form.SaveAuthCorrected | ui/src/pages/SettingsPage/components/AuthenticationForm.tsx:21-93 | with the dispatch corrected: the same steps and views, and when every login succeeds the new credentials are in the state and in storage; otherwise the store is untouched |
| AuthenticationForm.Form.DockerStage | ui/src/pages/SettingsPage/components/AuthenticationForm.tsx:26-90 | from docker logout onwards, the steps and views of the chain; the given action is dispatched, with its storage effect, exactly when every login succeeds |
| AuthenticationForm.Form.KubernetesStage | ui/src/pages/SettingsPage/components/AuthenticationForm.tsx:31-79 | from kubernetes logout onwards, the same steps, views and dispatch |
| AuthenticationForm.Form.HelmStage | ui/src/pages/SettingsPage/components/AuthenticationForm.tsx:36-72 | from helm logout onwards, the same steps, views and dispatch |
| AuthenticationForm.Form.TimerFires | ui/src/pages/SettingsPage/components/AuthenticationForm.tsx:63-66 | the timer's rejection sets the timeout message and state `error` |
| AuthenticationForm.Form.BackendStage | ui/src/pages/SettingsPage/components/AuthenticationForm.tsx:41-66 | backend logout and login; on success the dispatch and state `saved`; on failure state `error`, with the failure's and the uncleared timer's messages in the order they happen |
| Layout.ShowsAuthScreenAsWritten | ui/src/Layout.tsx:21 | the frame's test as written: the context value is `null`; `AuthScreenNeverShownAsWritten` shows that it never is |
| Layout.AuthScreenNeverShownAsWritten | ui/src/Layout.tsx:21 | as written, the test is false for the provider's value in every state and for the context's default, even after `delete` and at a first start without a token |
| Layout.ShowsAuthScreen | ui/src/Layout.tsx:21-32 | the corrected test: no state, or a state whose `auth` is not a non-empty string; `AuthScreenShownWithoutToken` states when that holds |
| Layout.AuthScreenShownWithoutToken | ui/src/Layout.tsx:21-32 | the corrected test shows the screen exactly when no token is held: after `delete`, at start without a stored token, and never after a `set` with a token |
| Layout.ShowBadge | ui/src/Layout.tsx:43 | `find` of an undismissed notification succeeds; `ShowBadgeIff` states it as an existence |
| Layout.ShowBadgeIff | ui/src/Layout.tsx:43 | the badge shows exactly when some notification is undismissed |
| Layout.BadgeColor | ui/src/Layout.tsx:45 | `error` exactly when some undismissed notification is an error, `primary` otherwise |
| Layout.ShowBack | ui/src/Layout.tsx:57-62 | the path is none of `/`, `/applications`, `/workloads` and `/settings`; `ShowBackIff` states the consequences |
| Layout.ShowBackIff | ui/src/Layout.tsx:57-62 | Back shows exactly when the path is none of the four top-level paths |
| WorkloadDetails.AppSlugName | ui/src/pages/WorkloadDetailsPage/index.tsx:48-51 | the name without its last `-` segment |
| WorkloadDetails.AppSlugNameOfRelease | ui/src/pages/WorkloadDetailsPage/index.tsx:48-51 | a release named `component-suffix` gives back the component |
| WorkloadDetails.ServiceLookupArgs | ui/src/pages/WorkloadDetailsPage/index.tsx:54 | services are looked up by the instance label alone |
| WorkloadDetails.MappingsOf | ui/src/pages/WorkloadDetailsPage/index.tsx:59-65 | one mapping per port, copying its three fields |
| WorkloadDetails.PortMappings | ui/src/pages/WorkloadDetailsPage/index.tsx:56-66 | the NodePort services with ports, then one mapping per port of each, in order; `PortMappingsAsConcat`, `PortMappingsAppend` and `PortMappingsSource` state its properties |
| WorkloadDetails.PortMappingsAsConcat | ui/src/pages/WorkloadDetailsPage/index.tsx:56-66 | the mappings are those of the NodePort services with ports, concatenated in order |
| WorkloadDetails.ConcatOne | ui/src/pages/WorkloadDetailsPage/index.tsx:58 | the first service's mappings come first |
| WorkloadDetails.PortMappingsAppend | ui/src/pages/WorkloadDetailsPage/index.tsx:56-66 | in service order: the mappings of two lists are the concatenation of theirs |
| WorkloadDetails.ConcatAppend | ui/src/pages/WorkloadDetailsPage/index.tsx:58 | the same for the flattened list |
| WorkloadDetails.PortMappingsOne | ui/src/pages/WorkloadDetailsPage/index.tsx:57-65 | a single service gives its port mappings when it is a NodePort service with ports, and none otherwise |
| WorkloadDetails.PortMappingsSource | ui/src/pages/WorkloadDetailsPage/index.tsx:56-66 | every mapping comes from a port of a listed NodePort service |
| WorkloadDetails.MappingsAfterLookup | ui/src/pages/WorkloadDetailsPage/index.tsx:54-69 | a successful lookup sets the mappings; a failed one leaves them |
| WorkloadDetails.FirstHelmChart | ui/src/pages/WorkloadDetailsPage/index.tsx:78 | the first Helm chart artifact, with no chart before it, or none exactly when there is none |
| WorkloadDetails.OtherBranch | ui/src/pages/WorkloadDetailsPage/index.tsx:83-86 | the first other branch with versions of which one is newer |
| WorkloadDetails.AllArtifacts | ui/src/pages/WorkloadDetailsPage/index.tsx:87 | exactly the artifacts of all the versions |
| WorkloadDetails.AllArtifactsAppend | ui/src/pages/WorkloadDetailsPage/index.tsx:87 | `flatMap` keeps the versions' order: two runs of versions give the first run's artifacts, then the second's |
| WorkloadDetails.FirstHelmChartAppend | ui/src/pages/WorkloadDetailsPage/index.tsx:87-88 | the first chart of two runs of artifacts is the first run's, or the second run's when the first has none |
| WorkloadDetails.FirstChartAcrossVersions | ui/src/pages/WorkloadDetailsPage/index.tsx:87-88 | the first chart across the versions is the first chart of the first version with one, and none exactly when no version has a chart |
| WorkloadDetails.FallbackChoice | ui/src/pages/WorkloadDetailsPage/index.tsx:83-94 | with no newer version with a chart on the current branch: no other branch qualifying, or the first qualifying one having no chart, gives `null`; otherwise the update is the first chart of that branch's first version with one |
| WorkloadDetails.FindUpdate | ui/src/pages/WorkloadDetailsPage/index.tsx:71-97 | the search gives up exactly when no branch matches the release's app version; otherwise it settles, never leaving the update pending, and an offered update is a Helm chart |
| WorkloadDetails.FindUpdateOffersCharts | ui/src/pages/WorkloadDetailsPage/index.tsx:75-95 | an offered update is a Helm chart of some branch's version; the search gives up exactly when no branch matches; it always settles |
| WorkloadDetails.CurrentBranchFirst | ui/src/pages/WorkloadDetailsPage/index.tsx:75-81 | the first newer version of the current branch that has a chart supplies the update |
| WorkloadDetails.FallbackMayOfferOlderChart | ui/src/pages/WorkloadDetailsPage/index.tsx:83-91 | a fallback branch's first chart is offered even when it belongs to an older version |
| WorkloadDetails.Control | ui/src/pages/WorkloadDetailsPage/index.tsx:233-235 | a placeholder exactly while the search is pending, and the Update button exactly when an update was found |
| WorkloadDetails.FailedAlert | ui/src/pages/WorkloadDetailsPage/index.tsx:159-162 | the alert shows exactly when the last revision failed, with its description |
| WorkloadDetails.FailedAlertLatest | ui/src/pages/WorkloadDetailsPage/index.tsx:159 | the latest revision alone decides the alert |
| WorkloadDetails.NotesLines | ui/src/pages/WorkloadDetailsPage/index.tsx:223-228 | the non-empty parts of the notes' newline split, in order, which hold all of their text, or the placeholder line when there are no notes |
| HistoryTimeLine.ParseDescription | ui/src/pages/WorkloadDetailsPage/HistoryTimeLine.tsx:9-18 | the JSON message when it is a non-empty string, the description otherwise |
| HistoryTimeLine.ParseDescriptionOfClientRecord | ui/src/pages/WorkloadDetailsPage/HistoryTimeLine.tsx:9-18 | a description written by this client shows its message |
| HistoryTimeLine.FailedCount | ui/src/pages/WorkloadDetailsPage/HistoryTimeLine.tsx:27 | the failed revisions number at most all revisions |
| HistoryTimeLine.FailedCountPositive | ui/src/pages/WorkloadDetailsPage/HistoryTimeLine.tsx:26-27 | the count is positive exactly when some revision failed |
| HistoryTimeLine.HistoryLabel | ui/src/pages/WorkloadDetailsPage/HistoryTimeLine.tsx:26-28 | `<n> error(s)` when some revision failed, otherwise `<count> revisions`; `HistoryLabelErrors` and `HistoryLabelRevisions` state both cases |
| HistoryTimeLine.HistoryLabelErrors | ui/src/pages/WorkloadDetailsPage/HistoryTimeLine.tsx:26-27 | `<n> error`, with a plural `s` exactly when `n > 1` |
| HistoryTimeLine.HistoryLabelRevisions | ui/src/pages/WorkloadDetailsPage/HistoryTimeLine.tsx:28 | without failures, `<length> revisions` |
| HistoryTimeLine.Entries | ui/src/pages/WorkloadDetailsPage/HistoryTimeLine.tsx:35-41 | one row per revision in order, with its mapped status, its shown description, and a connector on all but the last row |
| HistoryTimeLine.ConnectorCount | ui/src/pages/WorkloadDetailsPage/HistoryTimeLine.tsx:35-39 | one connector fewer than revisions, none after the last |
| HistoryTimeLine.ConnectorsAllButLast | ui/src/pages/WorkloadDetailsPage/HistoryTimeLine.tsx:39 | rows connected everywhere but at the end have one connector fewer than rows |
| SettingsPage.ShownValue | ui/src/pages/SettingsPage/index.tsx:54 | a shown name is that of a selected context |
| SettingsPage.ShownValueFirstSelected | ui/src/pages/SettingsPage/index.tsx:54 | it is the first selected context's name |
| SettingsPage.ShownValueNoneSelected | ui/src/pages/SettingsPage/index.tsx:54 | it is `''` when none is selected |
| SettingsPage.Switched | ui/src/pages/SettingsPage/index.tsx:38 | names, order and count kept; selected exactly when the name is the new context |
| SettingsPage.SwitchedShowsNewContext | ui/src/pages/SettingsPage/index.tsx:38-54 | after a switch the selector shows the new context when it is listed, and `''` otherwise |
| SettingsPage.SwitchedIdempotent | ui/src/pages/SettingsPage/index.tsx:38 | switching twice to a context is switching once |
| SettingsPage.AfterLoad | ui/src/pages/SettingsPage/index.tsx:27-33 | the loaded contexts or the error, and state `ready` either way |
| SettingsPage.AfterSwitchAsWritten | ui/src/pages/SettingsPage/index.tsx:35-41 | a failed switch keeps the contexts and records the error, and both outcomes end `ready` |
| SettingsPage.SwitchErrorNeverShownAsWritten | ui/src/pages/SettingsPage/index.tsx:35-74 | as written, the recorded error never reaches the alert, after a load or a switch |
| SettingsPage.AfterSwitch | ui/src/pages/SettingsPage/index.tsx:35-41 | the corrected switch ends in `error` when it fails |
| SettingsPage.ShowsAlert | ui/src/pages/SettingsPage/index.tsx:69-74 | the alert is rendered in state `error` only; `SwitchErrorNeverShownAsWritten` and `SwitchErrorShown` state when that happens |
| SettingsPage.SwitchErrorShown | ui/src/pages/SettingsPage/index.tsx:69-74 | corrected, the alert shows exactly after a failed switch, with its error, and a successful switch is unchanged |
| SettingsPage.SwitchKeepsNames | ui/src/pages/SettingsPage/index.tsx:38 | a switch keeps names, order and count whatever its outcome |
| SettingsPage.StartLoading | ui/src/pages/SettingsPage/index.tsx:28-47 | while loading, the selector is disabled and contexts and error are kept |
| FilePicker.StripFakePath | ui/src/components/Helm/FilePicker.tsx:14 | a value starting with `C:\fakepath\` loses that prefix; one without it is unchanged |
| FilePicker.InitialHelperText | ui/src/components/Helm/FilePicker.tsx:8-16 | the input's non-empty value with the fake path removed, or `No file selected`; `InitialHelperTextShowsName` states both cases |
| FilePicker.InitialHelperTextShowsName | ui/src/components/Helm/FilePicker.tsx:8-16 | a browser-reported value shows as the bare file name; no value shows `No file selected` |
| FilePicker.AfterFileChange | ui/src/components/Helm/FilePicker.tsx:18-44 | no file changes nothing; otherwise the file's name is shown, with the not-YAML message, the read error, or the flattened rows passed on; `NoFileNoChange`, `NonYamlRejected`, `ReadFailureReported` and `LoadedSelectsRows` state the cases |
| FilePicker.Label | ui/src/components/Helm/FilePicker.tsx:89 | the error when one is set, the helper text otherwise |
| FilePicker.NoFileNoChange | ui/src/components/Helm/FilePicker.tsx:19 | a change event without files changes nothing |
| FilePicker.NonYamlRejected | ui/src/components/Helm/FilePicker.tsx:23-42 | a non-YAML type is not read: `Selected file is not a YAML` and no selection |
| FilePicker.ReadFailureReported | ui/src/components/Helm/FilePicker.tsx:35-37 | a read failure gives `Invalid values file` and no selection |
| FilePicker.LoadedSelectsRows | ui/src/components/Helm/FilePicker.tsx:26-33 | a loaded file passes the rows of its flattened document once and clears the error, so that the label shows the name |
| FilePicker.FlattenedRows | ui/src/components/Helm/FilePicker.tsx:28-30 | those rows have distinct keys, each the path of a leaf of the document with that leaf's text |
| FilePicker.RowsOfLeaves | ui/src/components/Helm/FilePicker.tsx:30 | the rows of a dictionary of distinct leaf paths |
| FilePicker.Picker.constructor | ui/src/components/Helm/FilePicker.tsx:8-16 | the initial text after the mount effect, no error, no selection |
| FilePicker.Picker.OnFileChange | ui/src/components/Helm/FilePicker.tsx:18-44 | the imperative handler leaves the view that `AfterFileChange` specifies |
| EditDialog.AppName | ui/src/components/Helm/EditDialog.tsx:18 | the chart without its last `-` segment; name and version rebuild the chart |
| EditDialog.AppNameOfChart | ui/src/components/Helm/EditDialog.tsx:18 | a chart made from a name and a dash-free version gives back the name |
| EditDialog.HelpCommand | ui/src/components/Helm/EditDialog.tsx:123-125 | `helm show values` of the application's chart reference with the workload's version; `HelpCommandMatchesUpgrade` ties it to the edit's upgrade |
| EditDialog.HelpCommandMatchesUpgrade | ui/src/components/Helm/EditDialog.tsx:123-125 | the help command names the chart reference and the version that the edit's upgrade uses |
| EditDialog.EditReference | ui/src/components/Helm/EditDialog.tsx:123 | an edit's upgrade reference is the repository plus the application name |
| EditDialog.EditKey | ui/src/components/Helm/EditDialog.tsx:74 | only row `i`'s key changes |
| EditDialog.EditValue | ui/src/components/Helm/EditDialog.tsx:79 | only row `i`'s value changes |
| EditDialog.EditsReplaceRow | ui/src/components/Helm/EditDialog.tsx:74-79 | editing key and value, in either order, replaces just that row |
| EditDialog.WithoutIndex | ui/src/components/Helm/EditDialog.tsx:83 | the list without index `i`; an index out of range changes nothing |
| EditDialog.RemoveRow | ui/src/components/Helm/EditDialog.tsx:83 | the rows before and after `i`, in order |
| EditDialog.RemoveRowDropsOne | ui/src/components/Helm/EditDialog.tsx:83 | removing an inserted row restores the list; one row fewer; the earlier rows stay |
| EditDialog.SetDraftKey | ui/src/components/Helm/EditDialog.tsx:96 | the draft's key changes and its value stays |
| EditDialog.SetDraftValue | ui/src/components/Helm/EditDialog.tsx:102 | the draft's value changes and its key stays |
| EditDialog.AddDraft | ui/src/components/Helm/EditDialog.tsx:104-107 | the add button: the draft row is appended when its key and value are both set and non-empty, and the draft is reset; `AddDraftCases` states both cases |
| EditDialog.AddDraftCases | ui/src/components/Helm/EditDialog.tsx:104-107 | the draft is appended exactly when key and value are non-empty, and is reset either way |
| EditDialog.TypedRowIsAdded | ui/src/components/Helm/EditDialog.tsx:94-107 | typing a key and a value and pressing add appends that row |
| EditDialog.ImportRows | ui/src/components/Helm/EditDialog.tsx:112 | imported rows follow the existing ones |
| EditDialog.ImportFlattenedFile | ui/src/components/Helm/EditDialog.tsx:112 | importing a file keeps the rows and adds one per flattened key |
| EditDialog.UpdateDisabled | ui/src/components/Helm/EditDialog.tsx:136-147 | the Update button is disabled while updating and when there are no rows; `UpdateEnabledByRows` states how rows change it |
| EditDialog.UpdateEnabledByRows | ui/src/components/Helm/EditDialog.tsx:136-147 | Update is disabled while updating or with no rows: a complete added row enables it, and removing the last row disables it |
| EditDialog.AfterUpgrade | ui/src/components/Helm/EditDialog.tsx:20-31 | `updating` exactly while unsettled; `ready` on success; `error` with the reason on rejection |
| EditDialog.ErrorLines | ui/src/components/Helm/EditDialog.tsx:42-44 | the non-empty parts of the error's newline split, in order, which hold all of its text |
| EditDialog.ClearError | ui/src/components/Helm/EditDialog.tsx:50-55 | going back or cancelling clears the error view |
| EditDialog.GoBack | ui/src/components/Helm/EditDialog.tsx:48-51 | `Go back` clears the error and keeps the dialog open without calling `onClose` |
| EditDialog.CancelUpdateAsWritten | ui/src/components/Helm/EditDialog.tsx:52-58 | as written, `Cancel update` clears the error and calls the global `close()`, never the owner's `onClose` |
| EditDialog.CancelUpdateAsWrittenIsGoBack | ui/src/components/Helm/EditDialog.tsx:48-58 | as written, `Cancel update` has exactly the effect of `Go back` |
| EditDialog.CancelUpdate | ui/src/components/Helm/EditDialog.tsx:52-58 | corrected, `Cancel update` clears the error and calls `onClose` |
| EditDialog.CancelUpdateClosesDialog | ui/src/components/Helm/EditDialog.tsx:48-58 | corrected, both buttons leave the same dialog and only `Cancel update` asks the owner to close it |
| EditDialog.RejectedUpgradeShowsError | ui/src/components/Helm/EditDialog.tsx:20-62 | a rejection with a message shows the error view with its lines; going back returns to a form that can be submitted when it has rows |

## Left out

- Command execution through the Docker Desktop client, `child_process`, the backend's `fs` store file, HTTP calls to the backend, and `localStorage`. These become parameters or state fields.
- `flatten` in `ui/src/components/Helm/FilePicker.tsx:46-74` and `ui/src/components/Helm/EditDialog.tsx:194-222` is the same code as the backend's, so it is modelled once, in Flatten.
- Flatten: the `if (l == 0) result[prop] = []` at `backend/clients/helm.js:97` cannot run, because the loop body runs only when `l > 0`. The model leaves it out, and `EmptyArray` states the resulting behaviour.
- Flatten: `Object.keys` lists integer-like keys first. The model keeps plain insertion order.
- Flatten: leaves keep their parsed value. The text a leaf gives in a `--set` argument or a values row is modelled by `LeafText`, and number formatting is not modelled.
- Flatten: `getAuth` and `localValues` in `backend/clients/helm.js` are file I/O and are not part of this model.
- `JSON.parse`, `yaml.parse`, `JSON.stringify`, regular expressions and `compareVersions` are parameters. A parse that throws is an outcome.
- BackendStage: when the backend answers is a flag, `backendLate`. It says whether the answer comes after the ten-second timer fires. A late success first shows the timeout message and then `saved`; the view only records the last state.
- ChainView: after a failed backend login the timer is never cleared. Its `Timeout connecting to extension backend…` message therefore replaces the failure's message, unless the failure came after the timer. The message the form shows in between is not part of the view.
- `ddClient.extension.vm?.service?.post(…)` with no backend service yields `undefined`, so the `.catch` call on it throws. The model assumes the service is present.
- HelmClient.InstallHelmChartSpec: `onError` rejects with the raw error object `e`, while upgrade rejects with a string built from `e.stderr`. `StreamEnd.Errored` carries one string, which stands for the object in install and for its `stderr` in upgrade.
- Kubectl.FindKubernetesSecret: with `ddClient.extension.host` undefined, calling `.then` on `undefined` throws inside the promise executor, so the promise rejects instead of giving `true` or `false`. Install and upgrade do not catch that rejection, so theirs would never settle. The model assumes the host is present.
- AuthenticationForm.ChainView: a docker login rejection without `stderr` makes `e.stderr.includes(…)` throw inside the catch, and the form then stays `loading`. The model assumes every rejection carries `stderr`.
- Promise ordering and concurrency: `Promise.all` in `findRelease` and interleaved stream callbacks are sequenced.
- `console.error` logging and `moment` date formatting are not modelled.
- React rendering, theming, the clipboard and navigation are not modelled.
- Notification objects are compared by value, not by identity, in the notifications reducer.
- HelmClient.HelmLogoutArgs, Kubectl.KubernetesLogoutArgs and Kubectl.SecretLookupArgs are fixed argument lists with no contract of their own.
- `checkKubernetes` (kubectl.ts:4-8) and `dockerLogin`/`dockerLogout` are fixed commands with no logic; their outcomes enter the model as parameters.
- WorkloadDetails.ServiceLookupArgs: the page passes `release.namespace` to `getServices`, which takes no namespace parameter and ignores it.
- WorkloadDetails.FailedAlert: requires a non-empty history, because the page reads the last revision without checking for one.
- FilePicker: `yaml.parse` throwing inside `onload` abandons the handler. This is the outcome `Loaded(None)`.
- NotificationStore.NotificationStore.UpdateNotification: keeps unique ids only for updates that do not change the id. The source does not check this.
- The backend routes, App.tsx and the other context files are not part of this model.

## Findings

| source | as written | input that shows it | evidently intended | confidence | as-written member | corrected member |
|---|---|---|---|---|---|---|
| ui/src/pages/SettingsPage/components/AuthenticationForm.tsx:48-51 | `dispatch({ type: 'set', payload: newAuth })` passes the credential string as the payload, and the reducer reads `payload.auth`, which is undefined | any successful `saveAuth`, e.g. user `u`, token `t`; `Form.SaveAuth` runs the chain as written | dispatch `{ auth: newAuth }`, so that the reducer and `localStorage` hold the new credentials, as `Form.SaveAuthCorrected` does | not executed | AuthenticationForm.SetActionAsWrittenKeepsOldAuth | AuthenticationForm.SetActionStoresCredentials |
| ui/src/Layout.tsx:21 | `auth === null` compares the whole reducer state, an object or undefined, with `null`, so it is never true | the state after `delete`, `{auth: null}` | show the authentication screen when no token is held (`auth?.auth` falsy) | not executed | Layout.AuthScreenNeverShownAsWritten | Layout.AuthScreenShownWithoutToken |
| ui/src/pages/SettingsPage/components/AuthenticationForm.tsx:15-16 | `auth?.split(':')` calls `split` on the context value, which under the provider is the reducer's state record; a record has no `split` method, so rendering the form throws a TypeError | any render inside the provider, e.g. the first start with nothing stored, whose value is `{ auth: undefined }` | prefill from the state's credential string, `auth?.auth?.split(':')` | not executed; a type check would reject the line, so a build that type-checks would not ship it | AuthenticationForm.InitialFieldsAsWrittenThrows | AuthenticationForm.InitialFieldsRoundTrip |
| ui/src/pages/SettingsPage/index.tsx:35-41 | a failed `switchContext` sets the error, but `finally` then sets state `ready`, and the alert renders only in state `error` (lines 69-74) | `useContext` rejecting with `e` | a failed switch ends in state `error` and shows `e` | not executed | SettingsPage.SwitchErrorNeverShownAsWritten | SettingsPage.SwitchErrorShown |
| ui/src/components/Helm/EditDialog.tsx:56 | `Cancel update` calls `close()`, which is not the `onClose` prop, so it is the browser's `window.close` and the owner is never asked to close the dialog | an upgrade rejected with `x`, then `Cancel update`: the dialog stays open and shows the form again, as `Go back` does | call `onClose()` so that the owner closes the dialog | not executed | EditDialog.CancelUpdateAsWrittenIsGoBack | EditDialog.CancelUpdateClosesDialog |
