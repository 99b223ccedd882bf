# Shipper core logic in Dafny

This project models five small pieces of Shipper, a Kubernetes deployment orchestrator written in Go, and proves properties of them.

- **Capacity breakdown node** (`Breakdown`). A node of a cluster capacity report under construction. It holds a pod count, the type/status/reason triple of the pod condition it counts, and a map from container name to a per-container builder. The map is updated in place. `Build` turns the node into a report value.
- **Capacity report driver** (`Reporting`). It sorts the caller's pod slice by name, in place, then feeds every pod to a report builder in that order.
- **Controller selection of shipper-app** (`ShipperApp`). It resolves the comma-separated `-enable` and `-disable` flags against the four known controllers (installation, capacity, traffic, janitor). It also covers the table of start functions and the flag check each start function makes.
- **create-cluster-secret** (`ClusterSecret`). It decides whether to create, replace or leave alone a credentials Secret, and then a Cluster object. The Kubernetes calls are abstracted:
  - a Get is given as its outcome: not found, another error, or the object found;
  - a write returns the error it would report, if any;
  - the model returns the write it issues.
- **Installation test doubles** (`Installation`). Where the local chart fetcher looks for a chart archive. The repository URL becomes a directory name: every run of characters other than ASCII letters and digits turns into one `_`. The path is then built with Go's `path.Join`. This part also covers the fixture constructors `buildChart` and `buildInstallationTarget` and the `SuccessStatus` literal.

Supporting modules:

- `Strings`: Go's `strings.Split` and `strings.Join` for a one-character separator, and Go's `<` on strings.
- `Sorting`: an in-place sort of an array by a string key, specified as sorted plus a permutation. It also proves that a sorted order of distinct keys is unique.
- `GoPath`: Go's `path.Clean` and `path.Join`.
- `Wrappers`: `Option` and `Result`.

State changes are kept in the model:

- A breakdown node and its builder map are classes whose methods change fields in place.
- `buildReport` sorts an `array` in place.
- `buildEnabledControllers` keeps its loops over a map.
- The provisioning step writes the fields of the Secret or Cluster object it found.

Each such method is proved against a function of its inputs or its old state. The properties the source promises are proved about those functions.

## Model

| member | source | states |
|---|---|---|
| Breakdown.ContainerStateBreakdownBuilders.Get | pkg/controller/capacity/builder/pod_condition_breakdown.go:10-18 | A name already present: returns the builder filed under it and leaves the map as it was. An absent name: makes a fresh, empty builder for exactly that name and files it under that key alone. Every builder stays filed under its own name. |
| Breakdown.ContainerStateBreakdown.constructor | pkg/controller/capacity/builder/pod_condition_breakdown.go:14 | A new per-container builder has the given name and no states. This is a stand-in: the builder's own code is not part of this model. |
| Breakdown.ContainerStateBreakdown.AddState | pkg/controller/capacity/builder/pod_condition_breakdown.go:61-63 | A stand-in that records one more state, appended after those it already had. |
| Breakdown.PodConditionBreakdown.constructor | pkg/controller/capacity/builder/pod_condition_breakdown.go:30-43 | Count, type, status and reason are the arguments. The name is empty. The builder map is fresh and empty. |
| Breakdown.ConditionKey | pkg/controller/capacity/builder/pod_condition_breakdown.go:45-47 | The key has the three fields' combined length, and the three fields are its consecutive slices, in order. |
| Breakdown.KeyCollides | pkg/controller/capacity/builder/pod_condition_breakdown.go:45-47 | Distinct triples can share a key: ("ab","c","") and ("a","bc","") give the same one. |
| Breakdown.PodConditionBreakdown.AddContainerStateBreakdownBuilder | pkg/controller/capacity/builder/pod_condition_breakdown.go:49-52 | The map becomes the old map with the given builder filed under its container name. A previous entry for that name is replaced and the other entries stay. Returns the same node. |
| Breakdown.PodConditionBreakdown.AddContainerState | pkg/controller/capacity/builder/pod_condition_breakdown.go:54-65 | Only the entry for the container name changes. It is made first if absent, then gets the new state appended. Every other entry, its states and the pod count stay as they were. Returns the same node. |
| Breakdown.PodConditionBreakdown.IncrementCount | pkg/controller/capacity/builder/pod_condition_breakdown.go:67-70 | The count goes up by one modulo 2^32, as uint32 wraps around. Nothing else changes. Returns the same node. |
| Breakdown.PodConditionBreakdown.Build | pkg/controller/capacity/builder/pod_condition_breakdown.go:72-91 | Type, status, reason and count are copied unchanged. The containers list each builder's report value exactly once, one per map entry, in an order left unspecified. The node is not modified. |
| Breakdown.DescribesPermutation | pkg/controller/capacity/builder/pod_condition_breakdown.go:76-82 | Any reordering of a one-per-entry list of the builders' values is again such a list, so the sort cannot lose or duplicate a container. |
| Breakdown.LessAsWritten | pkg/controller/capacity/builder/pod_condition_breakdown.go:81 | The comparator as written: it compares the name at position i with the name at position i again. AsWrittenNeverLess and AsWrittenAcceptsUnsorted state what follows. |
| Breakdown.AsWrittenNeverLess | pkg/controller/capacity/builder/pod_condition_breakdown.go:80-82 | The comparator as written never says "less", for any pair of positions. |
| Breakdown.AsWrittenAcceptsUnsorted | pkg/controller/capacity/builder/pod_condition_breakdown.go:80-82 | Containers "b" then "a" are never swapped by the comparator as written, though they are not in name order. |
| Breakdown.SortContainers | pkg/controller/capacity/builder/pod_condition_breakdown.go:80-82 | With the comparator by container name, the result is sorted by name and is a permutation of the input. |
| Breakdown.PodConditionBreakdown.BuildSorted | pkg/controller/capacity/builder/pod_condition_breakdown.go:72-91 | Build with the intended comparator: same fields and the same one-per-entry container list, now sorted by container name. |
| Breakdown.SortedDescriptionUnique | pkg/controller/capacity/builder/pod_condition_breakdown.go:80-82 | Two name-sorted one-per-entry lists for the same builders are equal, so the corrected report does not depend on map order. |
| Sorting.SortByKey | pkg/controller/capacity/reporting.go:13-15 | After the in-place sort the array is sorted by the key and a permutation of its old contents. |
| Sorting.SortedPermutationUnique | pkg/controller/capacity/reporting.go:13-15 | Two permutations of one list with distinct keys, both sorted by the key, are equal. |
| Sorting.SortedSameElementsUnique | pkg/controller/capacity/builder/pod_condition_breakdown.go:80-82 | Two key-sorted lists with distinct keys and the same elements are equal. |
| Reporting.ReportBuilder.constructor | pkg/controller/capacity/reporting.go:17 | A fresh report builder for the owner has received no pods. This is a stand-in: the builder's code is not part of this model. |
| Reporting.ReportBuilder.AddPod | pkg/controller/capacity/reporting.go:19-21 | A stand-in that records one more pod, appended after those it already received. |
| Reporting.BuildReport | pkg/controller/capacity/reporting.go:11-24 | Afterwards the caller's list is sorted by pod name and a permutation of what it was. The report is built from that owner and exactly the pods of the sorted list, each once, in that order. For an empty list no pod is added. |
| Reporting.ReportOrderIndependent | pkg/controller/capacity/reporting.go:13-21 | Two lists of the same pods with distinct names, each sorted by name as BuildReport sorts them, give the same report whatever order they started in. |
| Strings.Split | cmd/shipper-app/main.go:250 | Splitting gives at least one piece, and no piece contains the separator. |
| Strings.SplitConcat | cmd/shipper-app/main.go:250 | Splitting `a + sep + b` gives the pieces of `a` followed by the pieces of `b`. |
| Strings.SplitJoin | cmd/shipper-app/main.go:60 | Joining one or more separator-free pieces and splitting again gives the pieces back. |
| Strings.JoinSplit | cmd/shipper-app/main.go:250 | Splitting a string and joining the pieces gives the string back. |
| Strings.LessIrreflexive | pkg/controller/capacity/builder/pod_condition_breakdown.go:81 | No string is less than itself. |
| Strings.LessAsymmetric | pkg/controller/capacity/reporting.go:14 | `a < b` and `b < a` never hold together. |
| Strings.LessTransitive | pkg/controller/capacity/reporting.go:14 | `<` on strings is transitive. |
| Strings.LessTrichotomy | pkg/controller/capacity/reporting.go:14 | Two different strings are ordered one way or the other. |
| Strings.LessEqTransitive | pkg/controller/capacity/reporting.go:14 | `<=` on strings is transitive. |
| Strings.LessEqAntisymmetric | pkg/controller/capacity/reporting.go:14 | `a <= b` and `b <= a` only for equal strings. |
| Strings.LessEqTotal | pkg/controller/capacity/reporting.go:14 | Any two strings are related by `<=` one way or the other. |
| ShipperApp.BuildEnabledControllers | cmd/shipper-app/main.go:244-278 | The map the three loops build, or the fatal error they stop with, is exactly the resolution `Resolve` of the two flags. |
| ShipperApp.EnableAll | cmd/shipper-app/main.go:250-261 | Stops at exactly the first unknown non-empty enable token. Without one, the map is the known controllers each switched on iff some enable token names it. |
| ShipperApp.DisableAll | cmd/shipper-app/main.go:263-275 | Stops at exactly the first unknown non-empty disable token. Without one, the map is the known controllers each on iff enabled and not named by any disable token. |
| ShipperApp.OutcomeEnable | cmd/shipper-app/main.go:251-261 | One more enable token switches on the controller it names, if it is known, and changes nothing else. |
| ShipperApp.OutcomeDisable | cmd/shipper-app/main.go:264-275 | One more disable token switches off the controller it names, if it is known, and changes nothing else. |
| ShipperApp.FirstUnknown | cmd/shipper-app/main.go:250-272 | The first non-empty token of a list that is not a known controller, if any. FirstUnknownSpec and FirstUnknownConcat state its properties. |
| ShipperApp.Outcome | cmd/shipper-app/main.go:244-275 | Closed form of the loops: each known controller is on iff the enable tokens name it and the disable tokens do not. EnableAll and DisableAll are proved equal to it, and DisableWins states it of Resolve. |
| ShipperApp.ResolveTokens | cmd/shipper-app/main.go:244-278 | The first unknown enable token is fatal, then the first unknown disable token, otherwise Outcome. UnknownIsFatal states both directions. |
| ShipperApp.Resolve | cmd/shipper-app/main.go:244-278 | Both flags split on "," and then resolved. BuildEnabledControllers is proved to compute it. |
| ShipperApp.FirstUnknownSpec | cmd/shipper-app/main.go:256-259 | No unknown token is found iff every non-empty token is a known controller. One that is found is a non-empty token of the list and unknown. |
| ShipperApp.FirstUnknownConcat | cmd/shipper-app/main.go:251-261 | The first unknown token of two lists joined is the first list's, or else the second's. |
| ShipperApp.ResolvedKeys | cmd/shipper-app/main.go:244-248 | On success the map's keys are exactly the known controllers. |
| ShipperApp.DisableWins | cmd/shipper-app/main.go:250-275 | On success a known controller maps to true iff the enable flag names it and the disable flag does not. |
| ShipperApp.UnknownIsFatal | cmd/shipper-app/main.go:256-272 | Resolution fails iff either flag holds a non-empty unknown name. The reported name is such a name of the flag it is reported for. |
| ShipperApp.ResolveCongruence | cmd/shipper-app/main.go:244-278 | Flags whose tokens name the same known controllers and the same first unknown name resolve alike. |
| ShipperApp.EmptyTokenIgnored | cmd/shipper-app/main.go:252-254 | Adding an empty token (",," for ",") changes neither the first unknown name nor the controllers named. |
| ShipperApp.EmptyTokensIgnored | cmd/shipper-app/main.go:250-267 | ",," in either flag resolves like ",". |
| ShipperApp.EmptyFlagsEnableNothing | cmd/shipper-app/main.go:250-267 | Two empty flags succeed with every known controller switched off. |
| ShipperApp.RepeatedNamesIgnored | cmd/shipper-app/main.go:250-275 | Giving each flag's list twice over resolves like giving it once. |
| ShipperApp.DefaultTokens | cmd/shipper-app/main.go:60 | The default enable flag splits back into the four known controllers. |
| ShipperApp.NamingAllRunsEverything | cmd/shipper-app/main.go:244-278 | An enable flag that names every known controller and no unknown name, in any order and with empty tokens anywhere, switches all of them on when the disable flag is empty. |
| ShipperApp.DefaultRunsEverything | cmd/shipper-app/main.go:60-61 | The default flags, all controllers joined by "," and nothing disabled, switch every controller on. |
| ShipperApp.BuildInitializers | cmd/shipper-app/main.go:336-343 | The table's keys are exactly the known controllers, and each start function is filed under the very name it checks. |
| ShipperApp.Start | cmd/shipper-app/main.go:345-349 | A start function never returns an error, and declines to start iff its flag is missing from the map or false. |
| ShipperApp.StartedIffRequested | cmd/shipper-app/main.go:336-349 | With the resolved map and the table, the controller under each name starts iff the enable flag names it and the disable flag does not. |
| ClusterSecret.BuildSecretData | cmd/create-cluster-secret/main.go:54-57 | The secret data has exactly the keys tls.ca, tls.crt and tls.key, holding the configuration's CA, certificate and key. |
| ClusterSecret.Secret.constructor | cmd/create-cluster-secret/main.go:63-73 | A Secret literal holds the given name, annotations, type and data. |
| ClusterSecret.NewSecretAnnotations | cmd/create-cluster-secret/main.go:63-79 | A created secret's annotations are exactly the checksum "some-checksum" and the skip-TLS annotation set to the formatted Insecure flag. The annotation is present even for a secure configuration. |
| ClusterSecret.ReplacedAnnotations | cmd/create-cluster-secret/main.go:90-101 | After a replace, the skip-TLS annotation is present iff the connection is insecure, and then holds "true". Every other annotation is kept as it was, and a nil map counts as empty. |
| ClusterSecret.ReplaceIdempotent | cmd/create-cluster-secret/main.go:88-101 | Replacing the annotations twice with one configuration is the same as once. |
| ClusterSecret.ProvisionSecret | cmd/create-cluster-secret/main.go:54-109 | Not found: creates a fresh Opaque secret of that name with those annotations and the credentials. Another lookup error is fatal with no write. Found with replace: replaces the data and annotations in place and updates it. Found without replace: no write and the secret untouched. A failed write is fatal. |
| ClusterSecret.Cluster.constructor | cmd/create-cluster-secret/main.go:115-127 | A Cluster literal holds the given name and spec. |
| ClusterSecret.DesiredSpec | cmd/create-cluster-secret/main.go:119-126 | The spec given to a created or replaced Cluster: the configuration's host, no capabilities, region "eu-west", schedulable. ProvisionCluster and Provision state that every cluster write carries it. |
| ClusterSecret.ProvisionCluster | cmd/create-cluster-secret/main.go:111-150 | Not found: creates a fresh Cluster of that name with spec (Host, no capabilities, "eu-west", schedulable). Another lookup error is fatal with no write. Found with replace: sets only the spec and updates it. Found without replace: no write, object untouched. A failed write is fatal. |
| ClusterSecret.Provision | cmd/create-cluster-secret/main.go:54-150 | Not found: a fresh Opaque secret of that name is created, with the literal annotations and the credentials. Found with replace: the found secret is updated in place with the credentials and the replaced annotations. Found without replace: no secret write, and the secret is untouched. A secret lookup error, or a failed secret create or update, is fatal with that error, and the cluster is neither written nor changed. Otherwise the cluster step runs: create when not found, fatal on another lookup error, replace the spec when asked, leave the cluster alone when not, and a failed cluster write is fatal. |
| GoPath.NonEmpty | pkg/controller/installation/utils_test.go:69-75 | The kept elements are non-empty elements of the input, and every non-empty input element is kept. |
| GoPath.NonEmptyConcat | pkg/controller/installation/utils_test.go:69-75 | Dropping empty elements distributes over concatenation. |
| GoPath.PathJoinSkipsEmpty | pkg/controller/installation/utils_test.go:69-75 | path.Join ignores an empty element wherever it stands. |
| GoPath.ResolvePlain | pkg/controller/installation/utils_test.go:69-75 | Cleaning passes plain elements (non-empty, not "." or "..", no "/") through unchanged. |
| GoPath.JoinPlain | pkg/controller/installation/utils_test.go:69-75 | path.Join of plain elements is their "/"-joined text. |
| Installation.Sanitize | pkg/controller/installation/utils_test.go:67-68 | The repository URL with each maximal run of characters other than ASCII letters and digits replaced by one "_". SanitizeShape, SanitizeRun, SanitizeKeepsAlnum, SanitizeEmpty and SanitizeIdempotent state its properties. |
| Installation.ArchiveName | pkg/controller/installation/utils_test.go:74 | The archive file name "Name-Version.tgz". ArchiveNameIsPlain states when it is a plain path element. |
| Installation.ChartPath | pkg/controller/installation/utils_test.go:69-75 | path.Join of testdata, chart-cache, the sanitized URL and the archive name. ChartPathShape states the resulting path. |
| Installation.SanitizeShape | pkg/controller/installation/utils_test.go:67-68 | The directory name holds only ASCII letters, digits and "_", never "__", and keeps the URL's letters and digits in their order. |
| Installation.SanitizeRun | pkg/controller/installation/utils_test.go:67-68 | A maximal run of other characters between letters or digits, or at either end, becomes exactly one "_". |
| Installation.SanitizeKeepsAlnum | pkg/controller/installation/utils_test.go:67-68 | A URL made only of letters and digits is left as it is. |
| Installation.SanitizeEmpty | pkg/controller/installation/utils_test.go:67-68 | The directory name is empty iff the URL is. |
| Installation.SanitizeIdempotent | pkg/controller/installation/utils_test.go:67-68 | Sanitizing twice is sanitizing once. |
| Installation.SanitizedIsPlain | pkg/controller/installation/utils_test.go:67-75 | A non-empty URL gives a plain path element: non-empty, no "/", not "." or "..". |
| Installation.ArchiveNameIsPlain | pkg/controller/installation/utils_test.go:74 | With no "/" in the chart's name and version, the archive name "Name-Version.tgz" is a plain path element. |
| Installation.PathWithoutRepository | pkg/controller/installation/utils_test.go:69-75 | For a plain file name (non-empty, no "/", not "." or ".."), with an empty directory element, the archive lies directly in testdata/chart-cache. |
| Installation.PathWithRepository | pkg/controller/installation/utils_test.go:69-75 | For a plain directory element and a plain file name (each non-empty, without "/", not "." or ".."), the archive lies in testdata/chart-cache/<dir>/<file>. |
| Installation.ChartPathShape | pkg/controller/installation/utils_test.go:69-75 | With no "/" in the chart's name and version, the archive path is testdata/chart-cache/<sanitized URL>/Name-Version.tgz. For an empty URL it is testdata/chart-cache/Name-Version.tgz. |
| Installation.LocalFetchChart | pkg/controller/installation/utils_test.go:66-80 | A read error at the chart path comes back unchanged with no chart. Otherwise the result is the archive loader's on the bytes read. |
| Installation.BuildChart | pkg/controller/installation/utils_test.go:109-115 | The chart has the given name, version and repository URL. |
| Installation.BuildInstallationTarget | pkg/controller/installation/utils_test.go:91-107 | Named after the application in the given namespace. The labels are exactly the app label (the application name) and the Helm-workaround label ("true"). The spec carries the chart, nil values and permission to override. |
| Installation.SuccessStatus | pkg/controller/installation/utils_test.go:35-40 | Two conditions, Operational then Ready, both True. |

## Left out

- Breakdown.ContainerStateBreakdown: `NewContainerBreakdown`, `AddState` and the per-container `Build` are not part of this model. The stand-in records the states it receives, and its `Build` returns the name with those states.
- Reporting.ReportBuilder: `builder.NewReport`, `AddPod` and the report's `Build` are not part of this model. The stand-in report is the owner name plus the pods received, in order, with no aggregation.
- Breakdown.PodConditionBreakdown.Build: Go map iteration order is unspecified, so the model picks the next remaining key arbitrarily. The sort after it compares an element with itself and imposes no order (see Findings), so the order of the containers is left unspecified.
- Sorting.SortByKey: `sort.Slice` is modelled by a selection sort with the same contract (sorted and a permutation). Which of several equal-keyed elements comes first is not modelled, because `sort.Slice` is not stable.
- Strings.Less: Go compares strings byte by byte in UTF-8. The model compares characters, which gives the same order for ASCII names.
- Installation.Sanitize: the regular expression works on runes. The model works on characters and has no UTF-8 decoding.
- Installation.LocalFetchChart: the file read and the Helm archive loader are parameters. Their behaviour is not modelled.
- GoPath.Clean: modelled on the split of the path into "/"-separated elements. Only plain elements, the case the fetcher's path needs, are proved to pass through unchanged.
- ShipperApp.BuildEnabledControllers: `klog.Fatalf` stopping the process is a `Failure` carrying the offending name. The `%q` message text is not modelled.
- ClusterSecret.ProvisionSecret and ClusterSecret.ProvisionCluster: the Kubernetes client is abstracted. A Get is given as its outcome, and a Create or Update as the error it returns. `glog.Fatal` is the `Fatal` outcome, and the log messages are not modelled.
- ClusterSecret.Provision: loading the client configuration from flags and kubeconfig, `user.Current`, and flag parsing are not modelled. The configuration is a parameter.
- The constants from `pkg/apis/shipper/v1alpha1` are not part of this model. These are the annotation keys, `AppLabel`, `HelmWorkaroundLabel` and `True`. The model gives them distinct stand-in values, and only their distinctness is used.
- ShipperApp: `main`, `runMetrics`, `runControllers`, `setupSignalHandler`, client and informer construction, and the goroutines each start function launches are I/O and concurrency, and are not modelled. A start function is modelled only by its flag check and its (started, error) result.
- The cluster client store, the chart catalog and `renderer_test.go` are not part of this model.
- ClusterSecret.NewSecretAnnotations: the comment at cmd/create-cluster-secret/main.go:75-76 says the skip-TLS annotation is added only for an insecure connection. The map literal at line 68 always adds it. The model follows the code.

## Findings

| source | as written | input that shows it | evidently intended | confidence | as-written member | corrected member |
|---|---|---|---|---|---|---|
| pkg/controller/capacity/builder/pod_condition_breakdown.go:80-82 | The `sort.Slice` comparator compares `orderedContainers[i].Name` with itself, so it is always false and sorts nothing. | Builders for "b" and "a" coming out of the map as ["b", "a"]: the comparator never says "a" < "b", so they stay in that order. | Containers ordered by name (`[i].Name < [j].Name`), making the report independent of map order. | not executed | Breakdown.AsWrittenAcceptsUnsorted | Breakdown.PodConditionBreakdown.BuildSorted |
