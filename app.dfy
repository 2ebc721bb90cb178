/**
  The web front end's readers of the three documents (app.py): the namespace
  and app lookups, the sorted app list of `/getapp`, the dashboard counters of
  `/`, and the scheduled jobs with their "inventory present" gate.
 */
module App {
  import opened Wrappers
  import opened Json
  import opened Kiali
  import opened Snapshot
  import Discovery
  import Health
  import Red
  import Sorting

  /** `get_ns_list`: the inventory's namespace names, in inventory order. Without an inventory `None['namespaces']` raises TypeError. */
  method GetNsList(store: SnapshotStore) returns (r: Outcome<seq<string>>)
    ensures store.istioApps.None? ==> r == Err(TypeError)
    ensures store.istioApps.Some? ==>
              var namespaces := store.istioApps.value.namespaces;
              r.Ok? && |r.value| == |namespaces|
              && forall i :: 0 <= i < |namespaces| ==> r.value[i] == namespaces[i].name
  {
    if store.istioApps.None? {
      return Err(TypeError);
    }
    var namespaces := store.istioApps.value.namespaces;
    var nsList: seq<string> := [];
    var i := 0;
    while i < |namespaces|
      invariant 0 <= i <= |namespaces|
      invariant |nsList| == i
      invariant forall k :: 0 <= k < i ==> nsList[k] == namespaces[k].name
    {
      nsList := nsList + [namespaces[i].name];
      i := i + 1;
    }
    return Ok(nsList);
  }

  /**
    The namespaces the lookup lists are the ones discovery kept: entry i of a
    discovered inventory is named after the i-th `istio-injection: enabled`
    namespace of the Kiali response.
   */
  lemma ListedNamespacesAreEnabled(api: Api)
    requires Discovery.DiscoverInventory(api).Ok?
    ensures var namespaces := Discovery.DiscoverInventory(api).value.namespaces;
            var enabled := Discovery.Namespaces(api).value;
            |namespaces| == |enabled| && forall i :: 0 <= i < |namespaces| ==> enabled[i] == Str(namespaces[i].name)
  {
    Discovery.EntriesExact(api, Discovery.Namespaces(api).value);
  }

  /** The apps of every inventory entry named `ns`, concatenated in order; `ns` is None when the query omits it. */
  function AppsIn(namespaces: seq<Namespace>, ns: Option<string>): seq<string> {
    if namespaces == [] then []
    else
      var last := namespaces[|namespaces| - 1];
      AppsIn(namespaces[..|namespaces| - 1], ns) + (if Some(last.name) == ns then last.apps else [])
  }

  /** An app is listed iff some entry named `ns` holds it. */
  lemma {:induction false} AppsInMembers(namespaces: seq<Namespace>, ns: Option<string>, app: string)
    ensures app in AppsIn(namespaces, ns)
            <==> exists i :: 0 <= i < |namespaces| && Some(namespaces[i].name) == ns && app in namespaces[i].apps
  {
    if namespaces != [] {
      var n := |namespaces| - 1;
      var init := namespaces[..n];
      AppsInMembers(init, ns, app);
      assert forall i :: 0 <= i < n ==> init[i] == namespaces[i];
      if app in AppsIn(namespaces, ns) && app !in AppsIn(init, ns) {
        assert Some(namespaces[n].name) == ns && app in namespaces[n].apps;
      }
      if exists i :: 0 <= i < |namespaces| && Some(namespaces[i].name) == ns && app in namespaces[i].apps {
        var i :| 0 <= i < |namespaces| && Some(namespaces[i].name) == ns && app in namespaces[i].apps;
        if i < n {
          assert Some(init[i].name) == ns && app in init[i].apps;
        }
      }
    }
  }

  /** When exactly one entry is named `ns`, the list is that entry's apps, in their order. */
  lemma {:induction false} AppsInSingle(namespaces: seq<Namespace>, ns: Option<string>, k: nat)
    requires k < |namespaces| && Some(namespaces[k].name) == ns
    requires forall i :: 0 <= i < |namespaces| && i != k ==> Some(namespaces[i].name) != ns
    ensures AppsIn(namespaces, ns) == namespaces[k].apps
  {
    var n := |namespaces| - 1;
    var init := namespaces[..n];
    if k < n {
      AppsInSingle(init, ns, k);
    } else {
      AppsInNone(init, ns);
    }
  }

  /** When no entry is named `ns`, the list is empty. */
  lemma {:induction false} AppsInNone(namespaces: seq<Namespace>, ns: Option<string>)
    requires forall i :: 0 <= i < |namespaces| ==> Some(namespaces[i].name) != ns
    ensures AppsIn(namespaces, ns) == []
  {
    if namespaces != [] {
      AppsInNone(namespaces[..|namespaces| - 1], ns);
    }
  }

  /** `get_app_list(namespace)`: scan every entry and append the apps of the matching ones. */
  method GetAppList(store: SnapshotStore, ns: Option<string>) returns (r: Outcome<seq<string>>)
    ensures store.istioApps.None? ==> r == Err(TypeError)
    ensures store.istioApps.Some? ==> r == Ok(AppsIn(store.istioApps.value.namespaces, ns))
  {
    if store.istioApps.None? {
      return Err(TypeError);
    }
    var namespaces := store.istioApps.value.namespaces;
    var appList: seq<string> := [];
    var i := 0;
    while i < |namespaces|
      invariant 0 <= i <= |namespaces|
      invariant appList == AppsIn(namespaces[..i], ns)
    {
      assert namespaces[..i + 1][..i] == namespaces[..i];
      if Some(namespaces[i].name) == ns {
        var apps := namespaces[i].apps;
        var j := 0;
        while j < |apps|
          invariant 0 <= j <= |apps|
          invariant appList == AppsIn(namespaces[..i], ns) + apps[..j]
        {
          assert apps[..j + 1] == apps[..j] + [apps[j]];
          appList := appList + [apps[j]];
          j := j + 1;
        }
        assert apps[..j] == apps;
      }
      i := i + 1;
    }
    assert namespaces[..i] == namespaces;
    return Ok(appList);
  }

  /**
    `apps_in_namespace` (`/getapp`): the same apps as `get_app_list`, in
    ascending order. Since a sorted rearrangement is unique, this is exactly
    `sorted(app_list)`.
   */
  method AppsInNamespace(store: SnapshotStore, ns: Option<string>) returns (r: Outcome<seq<string>>)
    ensures store.istioApps.None? ==> r == Err(TypeError)
    ensures store.istioApps.Some? ==>
              r.Ok? && Sorting.IsSorted(r.value)
              && multiset(r.value) == multiset(AppsIn(store.istioApps.value.namespaces, ns))
  {
    var appList := GetAppList(store, ns);
    if appList.Err? {
      return Err(appList.error);
    }
    return Ok(Sorting.Sort(appList.value));
  }

  /** `reason.find("HTTP Request Issue") == 0` */
  const HTTP_ISSUE_PREFIX: string := "HTTP Request Issue"

  predicate StartsWith(s: string, prefix: string) {
    |prefix| <= |s| && s[..|prefix|] == prefix
  }

  /** The unhealthy entries whose reason is exactly "Workload Issue". */
  function WorkloadIssues(unhealthy: seq<UnhealthyApp>): nat {
    if unhealthy == [] then 0
    else
      WorkloadIssues(unhealthy[..|unhealthy| - 1])
      + (if unhealthy[|unhealthy| - 1].reason == Health.WORKLOAD_ISSUE then 1 else 0)
  }

  /** The unhealthy entries whose reason starts with "HTTP Request Issue". */
  function HttpIssues(unhealthy: seq<UnhealthyApp>): nat {
    if unhealthy == [] then 0
    else
      HttpIssues(unhealthy[..|unhealthy| - 1])
      + (if StartsWith(unhealthy[|unhealthy| - 1].reason, HTTP_ISSUE_PREFIX) then 1 else 0)
  }

  /** No reason is counted twice: "Workload Issue" does not start with the HTTP prefix. */
  lemma {:induction false} IssueCountsDisjoint(unhealthy: seq<UnhealthyApp>)
    ensures HttpIssues(unhealthy) + WorkloadIssues(unhealthy) <= |unhealthy|
  {
    if unhealthy != [] {
      IssueCountsDisjoint(unhealthy[..|unhealthy| - 1]);
      assert !StartsWith(Health.WORKLOAD_ISSUE, HTTP_ISSUE_PREFIX) by {
        assert Health.WORKLOAD_ISSUE[0] != HTTP_ISSUE_PREFIX[0];
      }
    }
  }

  /** For the three reasons `check_app_health` produces, the two counters together count every unhealthy entry. */
  lemma {:induction false} IssueCountsCover(unhealthy: seq<UnhealthyApp>)
    requires forall u :: u in unhealthy ==>
               u.reason == Health.WORKLOAD_ISSUE || u.reason == Health.INBOUND_ISSUE || u.reason == Health.OUTBOUND_ISSUE
    ensures HttpIssues(unhealthy) + WorkloadIssues(unhealthy) == |unhealthy|
  {
    if unhealthy != [] {
      var n := |unhealthy| - 1;
      var init := unhealthy[..n];
      assert forall u :: u in init ==> u in unhealthy;
      IssueCountsCover(init);
      assert Health.INBOUND_ISSUE[..|HTTP_ISSUE_PREFIX|] == HTTP_ISSUE_PREFIX;
      assert Health.OUTBOUND_ISSUE[..|HTTP_ISSUE_PREFIX|] == HTTP_ISSUE_PREFIX;
      assert Health.WORKLOAD_ISSUE[0] != HTTP_ISSUE_PREFIX[0];
      assert unhealthy[n] in unhealthy;
    }
  }

  /**
    On a health document written by `app_health`, the dashboard's counts add
    up: healthy and unhealthy together count the inventory's apps, unknown is
    0, and the HTTP and workload issue counters together count the unhealthy ones.
   */
  lemma DashboardCountsCover(api: Api, inventory: Inventory)
    requires Health.HealthReportOf(api, inventory).Ok?
    ensures var report := Health.HealthReportOf(api, inventory).value;
            |report.healthy| + |report.unhealthy| == |AppRefs(inventory.namespaces)|
            && |report.unknown| == 0
            && HttpIssues(report.unhealthy) + WorkloadIssues(report.unhealthy) == |report.unhealthy|
  {
    var refs := AppRefs(inventory.namespaces);
    var verdicts := Health.Verdicts(api, refs).value;
    var report := Health.Partition(refs, verdicts);
    Health.PartitionExactlyOnce(refs, verdicts);
    assert |multiset(report.healthy)| + |multiset(Health.UnhealthyRefs(report.unhealthy))| == |multiset(refs)|;
    Health.UnhealthyReasons(api, refs);
    IssueCountsCover(report.unhealthy);
  }

  /** What `index` renders: the initializing message, or the four lists the template receives. */
  datatype Dashboard =
    | Initializing
    | Page(appCount: seq<nat>, issuesCount: seq<nat>, redCount: seq<nat>, unhealthyList: seq<UnhealthyApp>)

  /**
    `index`: without an inventory the server is still initializing. Otherwise
    each document that exists contributes its counts; a missing one leaves its
    lists empty.
   */
  method IndexPage(store: SnapshotStore) returns (page: Dashboard)
    ensures page.Initializing? <==> store.istioApps.None?
    ensures page.Page? && store.appHealth.None? ==>
              page.appCount == [] && page.issuesCount == [] && page.unhealthyList == []
    ensures page.Page? && store.appHealth.Some? ==>
              var health := store.appHealth.value;
              page.appCount == [|health.healthy|, |health.unhealthy|, |health.unknown|]
              && page.issuesCount == [HttpIssues(health.unhealthy), WorkloadIssues(health.unhealthy)]
              && page.unhealthyList == health.unhealthy
    ensures page.Page? && store.appRed.None? ==> page.redCount == []
    ensures page.Page? && store.appRed.Some? ==>
              var red := store.appRed.value;
              page.redCount == [|red.rate|, |red.error|, |red.duration|]
  {
    if store.istioApps.None? {
      return Initializing;
    }
    var appCount: seq<nat> := [];
    var issuesCount: seq<nat> := [];
    var redCount: seq<nat> := [];
    var unhealthyAppList: seq<UnhealthyApp> := [];
    if store.appHealth.Some? {
      var health := store.appHealth.value;
      appCount := [|health.healthy|, |health.unhealthy|, |health.unknown|];
      var unhealthy := health.unhealthy;
      var workloadIssue, httpIssue := 0, 0;
      var k := 0;
      while k < |unhealthy|
        invariant 0 <= k <= |unhealthy|
        invariant unhealthyAppList == unhealthy[..k]
        invariant workloadIssue == WorkloadIssues(unhealthy[..k])
        invariant httpIssue == HttpIssues(unhealthy[..k])
      {
        var item := unhealthy[k];
        assert unhealthy[..k + 1][..k] == unhealthy[..k];
        unhealthyAppList := unhealthyAppList + [UnhealthyApp(item.namespace, item.app, item.reason)];
        if item.reason == Health.WORKLOAD_ISSUE {
          workloadIssue := workloadIssue + 1;
        }
        if StartsWith(item.reason, HTTP_ISSUE_PREFIX) {
          httpIssue := httpIssue + 1;
        }
        k := k + 1;
      }
      assert unhealthy[..k] == unhealthy;
      issuesCount := [httpIssue, workloadIssue];
    }
    if store.appRed.Some? {
      var red := store.appRed.value;
      redCount := [|red.rate|, |red.error|, |red.duration|];
    }
    return Page(appCount, issuesCount, redCount, unhealthyAppList);
  }

  /** `find_istio_apps`: the scheduled discovery job. */
  method FindIstioApps(store: SnapshotStore, api: Api)
    modifies store`istioApps
    ensures Discovery.DiscoverInventory(api).Ok? ==> store.istioApps == Some(Discovery.DiscoverInventory(api).value)
    ensures Discovery.DiscoverInventory(api).Err? ==> store.istioApps == old(store.istioApps)
  {
    Discovery.GetIstioApplications(store, api);
  }

  /** `find_app_health`: the scheduled health job runs only when the inventory exists; otherwise the tick does nothing. */
  method FindAppHealth(store: SnapshotStore, api: Api)
    modifies store`appHealth
    ensures store.istioApps.None? ==> store.appHealth == old(store.appHealth)
    ensures store.istioApps.Some? && Health.HealthReportOf(api, store.istioApps.value).Ok? ==>
              store.appHealth == Some(Health.HealthReportOf(api, store.istioApps.value).value)
    ensures store.istioApps.Some? && Health.HealthReportOf(api, store.istioApps.value).Err? ==>
              store.appHealth == old(store.appHealth)
  {
    if store.istioApps.Some? {
      Health.AppHealth(store, api);
    }
  }

  /** `find_app_red`: the scheduled RED job runs only when the inventory exists; otherwise the tick does nothing. */
  method FindAppRed(store: SnapshotStore, api: Api, threshold: real)
    modifies store`appRed
    ensures store.istioApps.None? ==> store.appRed == old(store.appRed)
    ensures store.istioApps.Some? && Red.RedReportOf(api, store.istioApps.value, threshold).Ok? ==>
              store.appRed == Some(Red.RedReportOf(api, store.istioApps.value, threshold).value)
    ensures store.istioApps.Some? && Red.RedReportOf(api, store.istioApps.value, threshold).Err? ==>
              store.appRed == old(store.appRed)
  {
    if store.istioApps.Some? {
      Red.AppRed(store, api, threshold);
    }
  }
}
