# istio-red, modelled in Dafny

istio-red is a small dashboard for applications running in an Istio service
mesh. Scheduled jobs ask the Kiali API three things:

- **Discovery:** which namespaces are Istio-enabled, and which applications each one runs.
- **Health:** whether each application is healthy. This looks at workload replica counts and at the HTTP status codes of its inbound and outbound traffic.
- **RED:** each application's request rate, error percentage and response time (duration), read from the Kiali graph.

Each job writes its result as one YAML document: the inventory, the health report and the RED report. The web pages read those documents back to show:

- lists of namespaces and applications;
- a sorted application picker;
- the dashboard counters.

This project models that pipeline over abstract inputs and proves what each
step computes.

- `Json` holds the JSON values Kiali returns. It also gives the Python
  operations the code applies to them, each with the exception Python raises:
  indexing (`KeyError`, `TypeError`), iteration, `.keys()`, `sum` operands and
  `float(...)`. An object keeps its members in document order, repeated keys
  included. These operations go through the dict it decodes to (`Items`),
  where a repeated key appears once, at its first position, with its last value.
- `Kiali` holds the endpoint paths. A fetch is a parameter
  `api: string -> Outcome<Value>` that maps an endpoint path to the parsed
  response or to a failure.
- `Snapshot` holds the three documents as datatypes. `SnapshotStore` is the
  directory holding the YAML files: one `Option` field per file, `None` while
  the file does not exist. Each job replaces its file in one step, and only
  after its whole pass has succeeded.
- `Discovery`, `Health` and `Red` model `helpers/applications.py`. Each
  loop of the source is a method with loop invariants. The method is proved
  equal to a specification function, and lemmas about those functions state
  what the source promises.
- `Sorting` models Python's `sorted` on strings. `App` models the readers
  and the scheduled jobs in `app.py`.

Any exception a job raises ends that job before it writes, so the previous
document stays in place. The model represents this as an `Err` outcome that
leaves the store unchanged.

## Model

| member | source | states |
|---|---|---|
| Discovery.SkippedItems | helpers/applications.py:15-20 | A namespace item is skipped without error in three cases: it has no `labels`, its `labels` is not a dict, or `istio-injection` is missing or not `"enabled"`. An enabled item contributes its `name`. |
| Discovery.EnabledNamesMembers | helpers/applications.py:15-21 | A value is in the namespace list iff some response item is enabled and has that name. |
| Discovery.EnabledNamesAppend | helpers/applications.py:15-21 | The namespace list keeps response order: the list for a concatenation is the concatenation of the lists. |
| Discovery.GetIstioNamespaces | helpers/applications.py:11-21 | The loop returns exactly the enabled names, or the fetch or iteration error. |
| Discovery.AppNamesStopsAt | helpers/applications.py:43-44 | An exception on one app's `name` aborts the app loop with that exception. |
| Discovery.AppNamesExact | helpers/applications.py:43-44 | The app loop succeeds iff every app's `name` can be read. When it succeeds, entry i is app i's name, in response order. |
| Discovery.CollectAppNames | helpers/applications.py:43-44 | The loop builds exactly the app-name list, or stops at the first failure. |
| Discovery.EntriesStopsAt | helpers/applications.py:36-46 | A failure in one namespace aborts the whole discovery with that exception. |
| Discovery.EntriesExact | helpers/applications.py:36-47 | Discovery succeeds iff every namespace's fetch succeeds. The inventory then has one entry per enabled namespace, in order, named after it and holding that namespace's apps. |
| Discovery.CollectInventory | helpers/applications.py:25-47 | The nested loops build exactly the discovered inventory, or return the first exception. |
| Discovery.GetIstioApplications | helpers/applications.py:25-51 | The inventory document is replaced only when discovery succeeds; on an exception the previous document stays. |
| Json.AssignLookup | helpers/applications.py:153-156 | After `d[key] = v` the key looks up v and every other key looks up what it did before. |
| Json.ItemsExact | helpers/applications.py:153-156 | The dict a JSON object decodes to holds each key once, and every key looks up the value of its last occurrence in the object. |
| Json.ItemsValues | helpers/applications.py:153-156 | Each item `.items()` visits carries the value its key looks up, so a repeated key is counted once, with its last value. |
| Snapshot.AppRefsAppend | helpers/applications.py:118-121 | The pairs of concatenated inventories are the concatenated pairs. |
| Snapshot.AppRefsPrefix | helpers/applications.py:118-121 | The pairs of the first i namespaces are a prefix of all the pairs, so a pass stopped after them has seen exactly those. |
| Passes.Collect | helpers/applications.py:118-122 | A pass that succeeds has one result per visited pair. |
| Passes.CollectStopsAt | helpers/applications.py:118-122 | Once the checks of a prefix of the pairs fail, the whole pass fails with that error: an exception escapes both loops. |
| Passes.CollectExact | helpers/applications.py:118-122 | A pass succeeds iff every pair's check succeeds, and its i-th result is the i-th pair's. |
| Passes.CollectStep | helpers/applications.py:121-122 | One more successful check extends the results by its own. |
| Passes.CollectFailsAt | helpers/applications.py:121-122 | A failing check right after a successful prefix ends the pass with its exception. |
| Passes.CollectAppend | helpers/applications.py:118-122 | A pass over concatenated pairs gives the first part's exception, else the second part's, else both parts' results in order. |
| Passes.CollectNamespaceFails | helpers/applications.py:118-122 | An exception inside the inner loop for namespace i ends the pass over the whole inventory with it. |
| Passes.CollectNamespaceStep | helpers/applications.py:118-122 | Finishing the inner loop for namespace i extends the results of the namespaces before it by its own. |
| Snapshot.AppRefsStep | helpers/applications.py:118-121 | Finishing namespace i's inner loop has visited exactly the pairs of the first i + 1 namespaces. |
| Snapshot.SnapshotStore.constructor | app.py:30-36 | A fresh deployment has no documents, so every read gives None. |
| Snapshot.SnapshotStore.WriteInventory | helpers/applications.py:50-51 | Replaces the inventory document and nothing else. |
| Snapshot.SnapshotStore.WriteHealth | helpers/applications.py:136-137 | Replaces the health document and nothing else. |
| Snapshot.SnapshotStore.WriteRed | helpers/applications.py:229-230 | Replaces the RED document and nothing else. |
| Health.TelemetryDefaults | helpers/applications.py:58-68 | Both histograms default to `{}`. If `inbound.http` is present but `outbound.http` is missing, inbound keeps its value and outbound stays `{}`. |
| Health.AnyMismatchStopsAt | helpers/applications.py:78-82 | A workload missing a replica field aborts the check with that exception. |
| Health.AnyMismatchOk | helpers/applications.py:78-82 | The workload loop succeeds iff every workload's four counts can be read. |
| Health.AnyMismatchExact | helpers/applications.py:78-85 | The workload loop reports an issue iff some workload's desired, current and available replicas and synced proxies are not all equal. |
| Health.ProblemStatusStep | helpers/applications.py:88-91 | One more status key adds a problem exactly when that key starts with 3, 4 or 5. |
| Health.HealthyExactly | helpers/applications.py:72-99 | The result is ("healthy", "") iff every workload is balanced and neither histogram has a key starting with 3, 4 or 5. The status is "unhealthy" exactly when the reason is non-empty. |
| Health.Precedence | helpers/applications.py:83-97 | Last writer wins. An outbound problem gives "HTTP Request Issue (Outbound)" whatever the other checks say. Otherwise an inbound problem gives the inbound reason, and otherwise a workload mismatch gives "Workload Issue". |
| Health.AppVerdict | helpers/applications.py:72-99 | A successful check gives ("healthy", "") or "unhealthy" with one of the three reasons. |
| Health.ScanStatusKeys | helpers/applications.py:88-97 | A status-code loop ends with "unhealthy" and its own reason iff some key starts with 3, 4 or 5; otherwise the status and reason it was given stay. |
| Health.CheckAppHealth | helpers/applications.py:72-99 | The three overwriting loops compute exactly the verdict the decision rules give, or the first exception. |
| Health.PartitionExactlyOnce | helpers/applications.py:118-133 | Every inventory pair appears exactly once, in either `healthy` or `unhealthy`, and `unknown` stays empty. |
| Health.PartitionPlaces | helpers/applications.py:123-128 | A "healthy" verdict puts the pair in `healthy`, and any other verdict puts it in `unhealthy` with its reason. Nothing else is in either list. |
| Health.PartitionAppend | helpers/applications.py:118-128 | Both lists keep inventory order. |
| Health.UnhealthyReasons | helpers/applications.py:122-128 | Every unhealthy entry carries one of the three reasons `check_app_health` produces. |
| Health.HealthStep | helpers/applications.py:121-128 | Checking one more app extends the verdicts by its verdict, and `healthy` or `unhealthy` (whichever the verdict picks) by that app alone. |
| Health.HealthNamespaceFails | helpers/applications.py:118-122 | An exception while checking the apps of namespace i ends the health pass with it. |
| Health.HealthNamespaceStep | helpers/applications.py:118-128 | Checking the apps of namespace i extends the verdicts, `healthy` and `unhealthy` by that namespace's part. |
| Health.ClassifyApps | helpers/applications.py:119-128 | The inner loop appends to the two lists exactly the partition of one namespace's apps, or returns the first exception. |
| Health.EvaluateHealth | helpers/applications.py:103-133 | The nested loops compute exactly the health report, or the first exception. |
| Health.AppHealth | helpers/applications.py:103-137 | With no inventory, or after an exception, nothing is written. Otherwise the health document is replaced by the report. |
| Health.WorkloadRows | helpers/applications.py:145-149 | One drill-down row per workload. |
| Health.WorkloadRowsExact | helpers/applications.py:145-149 | The table is built exactly when every workload's row reads, and then row i is workload i's, in order. |
| Health.WorkloadRowFields | helpers/applications.py:147-148 | A workload with all five keys gives `[name, desiredReplicas, currentReplicas, availableReplicas, syncedProxies]` in that order; a missing `name` is a KeyError and a non-object workload a TypeError. |
| Health.WorkloadRowsStopsAt | helpers/applications.py:145-149 | A workload missing a field aborts the drill-down. |
| Health.GetAppHealthDetails | helpers/applications.py:141-162 | The row loop and the class sums over each histogram's decoded items compute exactly the drill-down, or the first exception. |
| Health.RepeatedKeyCountedOnce | helpers/applications.py:153 | For the inbound histogram `{"200": 1, "200": 2}` the 2xx sum is 2: the decoded dict keeps the last rate. |
| Health.NonZeroClassHasKey | helpers/applications.py:153-156 | A non-zero class sum comes from some status key of that class. |
| Health.ClassesAccountForTotal | helpers/applications.py:153-162 | When every key is a 2xx-5xx code, the four class sums add up to the histogram's total rate. |
| Health.ProblemClassHasProblemKey | helpers/applications.py:153-156 | A non-zero 3xx, 4xx or 5xx class sum of a histogram means one of its keys is a problem status. |
| Health.ProblemTrafficIsUnhealthy | helpers/applications.py:88-97 | Non-zero inbound 3xx, 4xx or 5xx traffic in the drill-down means the app is classified unhealthy. Non-zero outbound problem traffic means the outbound reason. |
| Red.NodeAppsRead | helpers/applications.py:174-175 | A successful node scan has read the app of every node. |
| Red.NoNodeEmptyId | helpers/applications.py:173-176 | When no node's app is the target, the app id stays `''`. |
| Red.FindAppId | helpers/applications.py:173-176 | The node loop computes exactly the app id of the node scan, or the first exception. |
| Red.AppIdStopsAt | helpers/applications.py:174-176 | A node without `data.app` aborts the RED check. |
| Red.AppIdIsLastMatch | helpers/applications.py:173-176 | `app_id` is the id of the last node whose app is the target, or `''` when no node matches. |
| Red.ReadEdgesStopsAt | helpers/applications.py:180-183 | A malformed edge aborts the RED check. |
| Red.ReadEdgeCases | helpers/applications.py:180-187 | An edge that does not target the app id changes nothing. A matching edge sets rate and duration, and sets the error only when it carries `httpPercentErr`. |
| Red.EdgeTargetsRead | helpers/applications.py:180-181 | A successful scan read every edge's target. |
| Red.NoEdgeNoReadings | helpers/applications.py:179-187 | With no matching edge, rate, duration and error all stay 0. |
| Red.RateAndDurationFromLastEdge | helpers/applications.py:180-183 | Rate and duration come from the last edge whose target is the app id. |
| Red.ErrorFromLastEdgeWithIt | helpers/applications.py:184-187 | The error comes from the last matching edge that carries `httpPercentErr`. A later matching edge without it does not reset the value. |
| Red.NoErrorFieldZeroError | helpers/applications.py:179-187 | When no matching edge carries `httpPercentErr`, the error stays 0. |
| Red.ReadTraffic | helpers/applications.py:179-187 | The edge loop computes exactly the readings of the edge scan, or the first exception. |
| Red.CheckAppRed | helpers/applications.py:168-189 | The fetch, the two scanning loops and the three `float` conversions compute exactly the app's statistics, or the first exception. |
| Red.FlaggedExact | helpers/applications.py:214-222 | An app is on the rate list iff rate == 0, on the error list iff error != 0, and on the duration list iff duration > threshold (strictly), each with its value. Every entry on a list passed that list's test. |
| Red.FlaggedAppend | helpers/applications.py:209-222 | Each list keeps inventory order. |
| Red.RedStep | helpers/applications.py:213-222 | Measuring one more app extends the measurements by its own and each list by at most that app, independently of the other two lists. |
| Red.RedNamespaceFails | helpers/applications.py:209-213 | An exception while measuring the apps of namespace i ends the RED pass with it. |
| Red.RedNamespaceStep | helpers/applications.py:209-222 | Measuring the apps of namespace i extends the measurements and each of the three lists by that namespace's part. |
| Red.MeasureApps | helpers/applications.py:210-222 | The inner loop appends to each list exactly the flagged apps of one namespace, or returns the first exception. |
| Red.RedReportExact | helpers/applications.py:193-227 | Every inventory app is measured. Each signal's list holds the app, with its value, exactly when the value fails that signal's test. |
| Red.EvaluateRed | helpers/applications.py:193-227 | The nested loops with three independent tests compute exactly the RED report, or the first exception. |
| Red.AppRed | helpers/applications.py:193-230 | With no inventory, or after an exception, nothing is written. Otherwise the RED document is replaced by the report. |
| Sorting.BelowReflexive | app.py:161 | Python's string order: every string is `<=` itself. |
| Sorting.BelowTotal | app.py:161 | Any two strings are comparable. |
| Sorting.BelowAntisymmetric | app.py:161 | Strings that are each `<=` the other are equal. |
| Sorting.BelowTransitive | app.py:161 | The string order is transitive. |
| Sorting.Insert | app.py:161 | Inserting into a sorted list gives a sorted list with the same strings plus the new one. |
| Sorting.InsertFront | app.py:161 | A string `<=` the head of a sorted list may go in front of it. |
| Sorting.InsertBehind | app.py:161 | The head of a sorted list may precede the sorted insertion into its tail. |
| Sorting.Sort | app.py:161 | The result is ascending and a rearrangement of the input. |
| Sorting.SameFirst | app.py:161 | Two sorted rearrangements of the same strings start alike. |
| Sorting.SortedUnique | app.py:161 | A sorted rearrangement is unique, so `Sort` gives what `sorted` gives. |
| App.GetNsList | app.py:106-113 | The inventory's namespace names, in inventory order. Without an inventory the call raises TypeError. |
| App.ListedNamespacesAreEnabled | app.py:106-113 | On a discovered inventory, the i-th listed name is the i-th Istio-enabled namespace of the Kiali response. |
| App.AppsInMembers | app.py:117-126 | An app is listed iff some entry with that namespace name holds it. |
| App.AppsInSingle | app.py:117-126 | When exactly one entry has the name, the list is that entry's apps, in order. |
| App.AppsInNone | app.py:117-126 | When no entry has the name (including an absent `ns`), the list is empty. |
| App.GetAppList | app.py:117-126 | The nested loops concatenate the apps of every matching entry, in order. Without an inventory the call raises TypeError. |
| App.AppsInNamespace | app.py:157-161 | `/getapp` returns the same apps, in ascending order. |
| App.IssueCountsDisjoint | app.py:82-90 | No unhealthy entry is counted as both an HTTP issue and a workload issue. |
| App.IssueCountsCover | app.py:82-90 | For the reasons `check_app_health` produces, `http_issue + workload_issue == len(unhealthy)`. |
| App.DashboardCountsCover | app.py:77-90 | On a report written by `app_health`: healthy plus unhealthy counts the inventory's apps, unknown is 0, and the two issue counters add up to the unhealthy count. |
| App.IndexPage | app.py:61-102 | Without an inventory the page is the initializing message. Otherwise it shows `[len(healthy), len(unhealthy), len(unknown)]`, `[http_issue, workload_issue]`, the unhealthy rows in order and the three RED list lengths. A missing document leaves its lists empty. |
| App.FindIstioApps | app.py:40-42 | The discovery job replaces the inventory exactly when discovery succeeds. |
| App.FindAppHealth | app.py:46-49 | The health job is a no-op unless the inventory exists. |
| App.FindAppRed | app.py:53-56 | The RED job is a no-op unless the inventory exists. |

## Left out

- Network access and `helpers/kialiApi.py`. The fetch is the `api` parameter, keyed by the endpoint path after `/kiali/api`. The host prefix and the HTTP call are not modelled.
- YAML encoding and the file system. Each file is an `Option` field of `SnapshotStore`. A document always has its keys, so `read_yaml`'s result is truthy exactly when the file exists.
- Flask routing, forms, query parsing and templates. Each page is the value its template would receive. `app_health_details` (app.py:130-152) is only the composition of `get_ns_list` and `get_app_health_details`, both modelled.
- APScheduler, the scan interval and any concurrency between jobs. Each job is one atomic method call.
- Environment configuration (app.py:15-18). The duration threshold is a `real` parameter. With `RESP_DURATION_THRESHOLD` set, the source compares a float with a string, and that case is not modelled.
- Logging and the unused `pprint`/`addict` imports.
- Floating point. Numbers are `real`, the `round(..., 2)` of the drill-down is not applied, and `sum` is exact.
- Json.Float: accepts numerals with an optional sign, digits and one optional decimal point. Exponents, `inf`/`nan`, surrounding whitespace and underscores, and decimal digits outside ASCII (Arabic-Indic or fullwidth digits, say) are rejected with ValueError, where Python's `float` accepts them.
- Json.Value equality is structural, unlike Python's `==`. Two objects with the same members in a different order compare unequal, where Python's dicts compare equal. `Bool` and `Num` values never compare equal, where Python has `True == 1`. This affects the replica comparison of `check_app_health` (helpers/applications.py:83) and the edge-target test of `check_app_red` (helpers/applications.py:181) only when Kiali sends objects or booleans in those fields.
- Discovery.AppNames: an app whose `name` is not a string raises TypeError during discovery. The source stores such a name and fails later, when it builds an endpoint from it.
- A missing `responseTime` is modelled, not defaulted: in `Red.ReadEdge` a matching edge without `responseTime` raises KeyError, as the source's unguarded read at helpers/applications.py:183 does, so the whole RED job ends without writing. The duration is never taken as 0 in that case.
- Non-2xx Kiali responses. The source parses their JSON body like any other response; the model folds that into the `api` result.
- `red_dash` (app.py:165-180). It reads `item['namespace']` from RED entries, but `app_red` writes only `app` and the value, so on any non-empty list the page raises KeyError. The page is not modelled.
