/**
  Health classification: `get_app_health`, `check_app_health`, `app_health`
  and the status-class rollup of `get_app_health_details` in
  helpers/applications.py.
 */
module Health {
  import opened Wrappers
  import opened Json
  import opened Kiali
  import opened Snapshot
  import opened Passes

  const HEALTHY: string := "healthy"
  const UNHEALTHY: string := "unhealthy"
  const WORKLOAD_ISSUE: string := "Workload Issue"
  const INBOUND_ISSUE: string := "HTTP Request Issue (Inbound)"
  const OUTBOUND_ISSUE: string := "HTTP Request Issue (Outbound)"

  /** What `get_app_health` returns: the workload statuses and the two request histograms. */
  datatype Telemetry = Telemetry(workloads: Value, inbound: Value, outbound: Value)

  /** `response['requests'][direction]['http']`. */
  function HttpOf(response: Value, direction: string): Outcome<Value> {
    var requests :- Index(response, "requests");
    var requestsIn :- Index(requests, direction);
    Index(requestsIn, "http")
  }

  /**
    `get_app_health` after the fetch. Both histograms start empty; a KeyError
    while reading them is swallowed (keeping whatever was already read), any
    other exception propagates.
   */
  function TelemetryOf(response: Value): Outcome<Telemetry> {
    var workloads :- Index(response, "workloadStatuses");
    match HttpOf(response, "inbound")
    case Err(e) =>
      if e == KeyError then Ok(Telemetry(workloads, Obj([]), Obj([]))) else Err(e)
    case Ok(inbound) =>
      match HttpOf(response, "outbound")
      case Err(e) =>
        if e == KeyError then Ok(Telemetry(workloads, inbound, Obj([]))) else Err(e)
      case Ok(outbound) => Ok(Telemetry(workloads, inbound, outbound))
  }

  /**
    The defaults of `get_app_health`: with no inbound histogram both are empty;
    with an inbound but no outbound histogram the inbound one is kept and the
    outbound one is empty.
   */
  lemma TelemetryDefaults(response: Value)
    requires Index(response, "workloadStatuses").Ok?
    ensures HttpOf(response, "inbound") == Err(KeyError) ==>
              TelemetryOf(response) == Ok(Telemetry(Index(response, "workloadStatuses").value, Obj([]), Obj([])))
    ensures HttpOf(response, "inbound").Ok? && HttpOf(response, "outbound") == Err(KeyError) ==>
              TelemetryOf(response)
              == Ok(Telemetry(Index(response, "workloadStatuses").value, HttpOf(response, "inbound").value, Obj([])))
    ensures HttpOf(response, "inbound").Ok? && HttpOf(response, "outbound").Ok? ==>
              TelemetryOf(response)
              == Ok(Telemetry(Index(response, "workloadStatuses").value,
                              HttpOf(response, "inbound").value, HttpOf(response, "outbound").value))
  {
  }

  /** One workload of `check_app_health`'s workload loop: Ok(true) when its four counts are not all equal. */
  function Mismatch(workload: Value): Outcome<bool> {
    var desired :- Index(workload, "desiredReplicas");
    var current :- Index(workload, "currentReplicas");
    var available :- Index(workload, "availableReplicas");
    var synced :- Index(workload, "syncedProxies");
    Ok(!(desired == current && current == available && available == synced))
  }

  /** Whether some workload is out of balance; the first workload whose counts cannot be read aborts. */
  function AnyMismatch(workloads: seq<Value>): Outcome<bool> {
    if workloads == [] then Ok(false)
    else
      var before :- AnyMismatch(workloads[..|workloads| - 1]);
      var last :- Mismatch(workloads[|workloads| - 1]);
      Ok(before || last)
  }

  /** A status-code key counted as a problem: it starts with '3', '4' or '5'. */
  predicate IsProblemStatus(key: string) {
    |key| > 0 && (key[0] == '3' || key[0] == '4' || key[0] == '5')
  }

  predicate AnyProblemStatus(keys: seq<string>) {
    exists i :: 0 <= i < |keys| && IsProblemStatus(keys[i])
  }

  /** The status and reason of `check_app_health`. */
  datatype Verdict = Verdict(health: string, reason: string)

  /**
    The verdict by precedence: an outbound problem beats an inbound problem,
    which beats a workload mismatch.
   */
  function Decide(workloadIssue: bool, inboundIssue: bool, outboundIssue: bool): Verdict {
    if outboundIssue then Verdict(UNHEALTHY, OUTBOUND_ISSUE)
    else if inboundIssue then Verdict(UNHEALTHY, INBOUND_ISSUE)
    else if workloadIssue then Verdict(UNHEALTHY, WORKLOAD_ISSUE)
    else Verdict(HEALTHY, "")
  }

  /** The verdict for decoded telemetry, or the exception the three loops raise. */
  function Classify(t: Telemetry): Outcome<Verdict> {
    var workloads :- Iterate(t.workloads);
    var workloadIssue :- AnyMismatch(workloads);
    var inboundKeys :- Keys(t.inbound);
    var outboundKeys :- Keys(t.outbound);
    Ok(Decide(workloadIssue, AnyProblemStatus(inboundKeys), AnyProblemStatus(outboundKeys)))
  }

  /** `check_app_health(host, ns, app)` as a value. */
  function AppVerdict(api: Api, ns: string, app: string): (r: Outcome<Verdict>)
    ensures r.Ok? ==> r.value == Verdict(HEALTHY, "") || (r.value.health == UNHEALTHY
                      && (r.value.reason == WORKLOAD_ISSUE || r.value.reason == INBOUND_ISSUE || r.value.reason == OUTBOUND_ISSUE))
  {
    var response :- api(HealthEndpoint(ns, app));
    var t :- TelemetryOf(response);
    Classify(t)
  }

  lemma {:induction false} AnyMismatchStopsAt(workloads: seq<Value>, k: nat)
    requires k <= |workloads| && AnyMismatch(workloads[..k]).Err?
    ensures AnyMismatch(workloads) == AnyMismatch(workloads[..k])
    decreases |workloads|
  {
    if k < |workloads| {
      var init := workloads[..|workloads| - 1];
      assert init[..k] == workloads[..k];
      AnyMismatchStopsAt(init, k);
    } else {
      assert workloads[..k] == workloads;
    }
  }

  /** The workload check fails exactly when some workload's counts cannot be read. */
  lemma {:induction false} AnyMismatchOk(workloads: seq<Value>)
    ensures AnyMismatch(workloads).Ok? <==> forall i :: 0 <= i < |workloads| ==> Mismatch(workloads[i]).Ok?
  {
    if workloads != [] {
      var init := workloads[..|workloads| - 1];
      var last := workloads[|workloads| - 1];
      AnyMismatchOk(init);
      assert forall i :: 0 <= i < |init| ==> init[i] == workloads[i];
      if !AnyMismatch(init).Ok? {
        var i :| 0 <= i < |init| && !Mismatch(init[i]).Ok?;
        assert !Mismatch(workloads[i]).Ok?;
      }
    }
  }

  /**
    When it succeeds, the workload check reports an issue exactly when some
    workload's desired, current, available and synced counts are not all equal.
   */
  lemma {:induction false} AnyMismatchExact(workloads: seq<Value>)
    requires AnyMismatch(workloads).Ok?
    ensures AnyMismatch(workloads).value <==> exists i :: 0 <= i < |workloads| && Mismatch(workloads[i]) == Ok(true)
  {
    if workloads != [] {
      var n := |workloads| - 1;
      var init := workloads[..n];
      var before := AnyMismatch(init);
      var last := Mismatch(workloads[n]);
      assert before.Ok? && last.Ok?;
      AnyMismatchExact(init);
      assert AnyMismatch(workloads).value == (before.value || last.value);
      if before.value {
        var i :| 0 <= i < |init| && Mismatch(init[i]) == Ok(true);
        assert init[i] == workloads[i];
      }
      if exists i :: 0 <= i < |workloads| && Mismatch(workloads[i]) == Ok(true) {
        var i :| 0 <= i < |workloads| && Mismatch(workloads[i]) == Ok(true);
        if i < n {
          assert init[i] == workloads[i];
        }
      }
    }
  }

  lemma ProblemStatusStep(keys: seq<string>, j: nat)
    requires j < |keys|
    ensures AnyProblemStatus(keys[..j + 1]) <==> AnyProblemStatus(keys[..j]) || IsProblemStatus(keys[j])
  {
    assert forall m :: 0 <= m < j ==> keys[..j + 1][m] == keys[..j][m];
    assert keys[..j + 1][j] == keys[j];
  }

  /**
    `check_app_health` reports ("healthy", "") exactly when every workload is
    balanced and neither histogram has a 3xx, 4xx or 5xx key; otherwise the
    status is "unhealthy" with a non-empty reason.
   */
  lemma HealthyExactly(t: Telemetry, v: Verdict)
    requires Classify(t) == Ok(v)
    ensures Iterate(t.workloads).Ok? && Keys(t.inbound).Ok? && Keys(t.outbound).Ok?
    ensures v == Verdict(HEALTHY, "") <==>
              (forall i :: 0 <= i < |Iterate(t.workloads).value| ==> Mismatch(Iterate(t.workloads).value[i]) == Ok(false))
              && (forall k :: k in Keys(t.inbound).value ==> !IsProblemStatus(k))
              && (forall k :: k in Keys(t.outbound).value ==> !IsProblemStatus(k))
    ensures v.health == HEALTHY || v.health == UNHEALTHY
    ensures v.health == UNHEALTHY <==> v.reason != ""
  {
    AnyMismatchOk(Iterate(t.workloads).value);
    AnyMismatchExact(Iterate(t.workloads).value);
  }

  /**
    Last writer wins: any problem key in the outbound histogram gives the
    outbound reason whatever else holds; otherwise any inbound problem key gives
    the inbound reason; otherwise a workload mismatch gives "Workload Issue".
   */
  lemma Precedence(t: Telemetry, v: Verdict)
    requires Classify(t) == Ok(v)
    ensures AnyProblemStatus(Keys(t.outbound).value) ==> v == Verdict(UNHEALTHY, OUTBOUND_ISSUE)
    ensures !AnyProblemStatus(Keys(t.outbound).value) && AnyProblemStatus(Keys(t.inbound).value)
            ==> v == Verdict(UNHEALTHY, INBOUND_ISSUE)
    ensures !AnyProblemStatus(Keys(t.outbound).value) && !AnyProblemStatus(Keys(t.inbound).value)
            && AnyMismatch(Iterate(t.workloads).value) == Ok(true)
            ==> v == Verdict(UNHEALTHY, WORKLOAD_ISSUE)
  {
  }

  /**
    One status-code loop of `check_app_health`: every key of class 3xx, 4xx or
    5xx overwrites the status with "unhealthy" and the reason with `issue`.
   */
  method ScanStatusKeys(keys: seq<string>, health: string, reason: string, issue: string)
    returns (newHealth: string, newReason: string)
    ensures AnyProblemStatus(keys) ==> newHealth == UNHEALTHY && newReason == issue
    ensures !AnyProblemStatus(keys) ==> newHealth == health && newReason == reason
  {
    newHealth, newReason := health, reason;
    var k := 0;
    while k < |keys|
      invariant 0 <= k <= |keys|
      invariant AnyProblemStatus(keys[..k]) ==> newHealth == UNHEALTHY && newReason == issue
      invariant !AnyProblemStatus(keys[..k]) ==> newHealth == health && newReason == reason
    {
      ProblemStatusStep(keys, k);
      if IsProblemStatus(keys[k]) {
        newHealth, newReason := UNHEALTHY, issue;
      }
      k := k + 1;
    }
    assert keys[..k] == keys;
  }

  /**
    `check_app_health`: a status and a reason that each loop overwrites on
    every match, so the last matching check decides.
   */
  method CheckAppHealth(api: Api, ns: string, app: string) returns (r: Outcome<Verdict>)
    ensures r == AppVerdict(api, ns, app)
  {
    var response := api(HealthEndpoint(ns, app));
    if response.Err? {
      return Err(response.error);
    }
    var telemetry := TelemetryOf(response.value);
    if telemetry.Err? {
      return Err(telemetry.error);
    }
    var t := telemetry.value;
    var health, reason := HEALTHY, "";

    var iterated := Iterate(t.workloads);
    if iterated.Err? {
      return Err(iterated.error);
    }
    var workloads := iterated.value;
    var i := 0;
    while i < |workloads|
      invariant 0 <= i <= |workloads|
      invariant AnyMismatch(workloads[..i]).Ok?
      invariant Verdict(health, reason) == Decide(AnyMismatch(workloads[..i]).value, false, false)
    {
      assert workloads[..i + 1][..i] == workloads[..i];
      var mismatch := Mismatch(workloads[i]);
      if mismatch.Err? {
        AnyMismatchStopsAt(workloads, i + 1);
        return Err(mismatch.error);
      }
      if mismatch.value {
        health, reason := UNHEALTHY, WORKLOAD_ISSUE;
      }
      i := i + 1;
    }
    assert workloads[..i] == workloads;
    var workloadIssue := AnyMismatch(workloads).value;

    var inbound := Keys(t.inbound);
    if inbound.Err? {
      return Err(inbound.error);
    }
    health, reason := ScanStatusKeys(inbound.value, health, reason, INBOUND_ISSUE);
    var outbound := Keys(t.outbound);
    if outbound.Err? {
      return Err(outbound.error);
    }
    health, reason := ScanStatusKeys(outbound.value, health, reason, OUTBOUND_ISSUE);
    assert Classify(t) == Ok(Decide(workloadIssue, AnyProblemStatus(inbound.value), AnyProblemStatus(outbound.value)));
    return Ok(Verdict(health, reason));
  }

  /** `check_app_health` as a check on one (namespace, app) pair. */
  function HealthCheck(api: Api): AppRef -> Outcome<Verdict> {
    (ref: AppRef) => AppVerdict(api, ref.namespace, ref.app)
  }

  /** The verdicts of `check_app_health` for each pair, in order; the first exception aborts the run. */
  function Verdicts(api: Api, refs: seq<AppRef>): Outcome<seq<Verdict>> {
    Collect(HealthCheck(api), refs)
  }

  /**
    The lists of `app_health`: each pair goes to `healthy` when its status is "healthy" and
    to `unhealthy` with its reason otherwise; nothing is ever added to `unknown`.
   */
  function Partition(refs: seq<AppRef>, verdicts: seq<Verdict>): HealthReport
    requires |refs| == |verdicts|
  {
    if refs == [] then HealthReport([], [], [])
    else
      var n := |refs| - 1;
      var before := Partition(refs[..n], verdicts[..n]);
      var ref := refs[n];
      if verdicts[n].health == HEALTHY then
        HealthReport(before.healthy + [ref], before.unhealthy, before.unknown)
      else
        HealthReport(before.healthy, before.unhealthy + [UnhealthyApp(ref.namespace, ref.app, verdicts[n].reason)], before.unknown)
  }

  /** The document `app_health` writes, or the exception that stops the run first. */
  function HealthReportOf(api: Api, inventory: Inventory): Outcome<HealthReport> {
    var refs := AppRefs(inventory.namespaces);
    var verdicts :- Verdicts(api, refs);
    Ok(Partition(refs, verdicts))
  }

  function RefOf(u: UnhealthyApp): AppRef {
    AppRef(u.namespace, u.app)
  }

  function UnhealthyRefs(us: seq<UnhealthyApp>): (r: seq<AppRef>)
    ensures |r| == |us|
    ensures forall i :: 0 <= i < |us| ==> r[i] == RefOf(us[i])
  {
    seq(|us|, i requires 0 <= i < |us| => RefOf(us[i]))
  }

  /** Every pair lands exactly once in `healthy` or `unhealthy`, and `unknown` stays empty. */
  lemma {:induction false} PartitionExactlyOnce(refs: seq<AppRef>, verdicts: seq<Verdict>)
    requires |refs| == |verdicts|
    ensures multiset(Partition(refs, verdicts).healthy) + multiset(UnhealthyRefs(Partition(refs, verdicts).unhealthy))
            == multiset(refs)
    ensures Partition(refs, verdicts).unknown == []
  {
    if refs != [] {
      var n := |refs| - 1;
      var before := Partition(refs[..n], verdicts[..n]);
      PartitionExactlyOnce(refs[..n], verdicts[..n]);
      assert refs == refs[..n] + [refs[n]];
      var after := Partition(refs, verdicts);
      if verdicts[n].health == HEALTHY {
        assert UnhealthyRefs(after.unhealthy) == UnhealthyRefs(before.unhealthy);
      } else {
        assert UnhealthyRefs(after.unhealthy) == UnhealthyRefs(before.unhealthy) + [refs[n]];
      }
    }
  }

  /**
    A healthy verdict puts the pair in `healthy`, any other puts it with its
    reason in `unhealthy`; and every entry of either list comes from such a pair.
   */
  lemma {:induction false} PartitionPlaces(refs: seq<AppRef>, verdicts: seq<Verdict>)
    requires |refs| == |verdicts|
    ensures forall i :: 0 <= i < |refs| && verdicts[i].health == HEALTHY ==> refs[i] in Partition(refs, verdicts).healthy
    ensures forall i :: 0 <= i < |refs| && verdicts[i].health != HEALTHY ==>
              UnhealthyApp(refs[i].namespace, refs[i].app, verdicts[i].reason) in Partition(refs, verdicts).unhealthy
    ensures forall a :: a in Partition(refs, verdicts).healthy ==>
              exists i :: 0 <= i < |refs| && refs[i] == a && verdicts[i].health == HEALTHY
    ensures forall u :: u in Partition(refs, verdicts).unhealthy ==>
              exists i :: 0 <= i < |refs| && verdicts[i].health != HEALTHY
                          && u == UnhealthyApp(refs[i].namespace, refs[i].app, verdicts[i].reason)
  {
    if refs != [] {
      var n := |refs| - 1;
      var init, vinit := refs[..n], verdicts[..n];
      PartitionPlaces(init, vinit);
      assert forall i :: 0 <= i < n ==> init[i] == refs[i] && vinit[i] == verdicts[i];
    }
  }

  /** The lists keep inventory order: partitioning a concatenation concatenates the partitions. */
  lemma {:induction false} PartitionAppend(a: seq<AppRef>, va: seq<Verdict>, b: seq<AppRef>, vb: seq<Verdict>)
    requires |a| == |va| && |b| == |vb|
    ensures Partition(a + b, va + vb).healthy == Partition(a, va).healthy + Partition(b, vb).healthy
    ensures Partition(a + b, va + vb).unhealthy == Partition(a, va).unhealthy + Partition(b, vb).unhealthy
    decreases |b|
  {
    if b == [] {
      assert a + b == a && va + vb == va;
    } else {
      var n := |b| - 1;
      assert (a + b)[..|a + b| - 1] == a + b[..n];
      assert (va + vb)[..|va + vb| - 1] == va + vb[..n];
      PartitionAppend(a, va, b[..n], vb[..n]);
    }
  }

  /** Every unhealthy entry carries one of the three reasons `check_app_health` produces. */
  lemma {:induction false} UnhealthyReasons(api: Api, refs: seq<AppRef>)
    requires Verdicts(api, refs).Ok?
    ensures forall u :: u in Partition(refs, Verdicts(api, refs).value).unhealthy ==>
              u.reason == WORKLOAD_ISSUE || u.reason == INBOUND_ISSUE || u.reason == OUTBOUND_ISSUE
  {
    var verdicts := Verdicts(api, refs).value;
    CollectExact(HealthCheck(api), refs);
    PartitionPlaces(refs, verdicts);
    forall u | u in Partition(refs, verdicts).unhealthy
      ensures u.reason == WORKLOAD_ISSUE || u.reason == INBOUND_ISSUE || u.reason == OUTBOUND_ISSUE
    {
      var i :| 0 <= i < |refs| && verdicts[i].health != HEALTHY
               && u == UnhealthyApp(refs[i].namespace, refs[i].app, verdicts[i].reason);
      assert HealthCheck(api)(refs[i]) == Ok(verdicts[i]);
    }
  }

  /**
    One more checked pair extends the verdicts by its verdict and the lists
    (after whatever came before them, `before`) by that pair alone.
   */
  lemma HealthStep(api: Api, refs: seq<AppRef>, j: nat, verdicts: seq<Verdict>, v: Verdict, before: HealthReport)
    requires j < |refs|
    requires Verdicts(api, refs[..j]) == Ok(verdicts)
    requires AppVerdict(api, refs[j].namespace, refs[j].app) == Ok(v)
    ensures Verdicts(api, refs[..j + 1]) == Ok(verdicts + [v])
    ensures before.healthy + Partition(refs[..j + 1], verdicts + [v]).healthy
            == before.healthy + Partition(refs[..j], verdicts).healthy
               + (if v.health == HEALTHY then [refs[j]] else [])
    ensures before.unhealthy + Partition(refs[..j + 1], verdicts + [v]).unhealthy
            == before.unhealthy + Partition(refs[..j], verdicts).unhealthy
               + (if v.health == HEALTHY then [] else [UnhealthyApp(refs[j].namespace, refs[j].app, v.reason)])
  {
    CollectStep(HealthCheck(api), refs, j, verdicts, v);
    assert refs[..j + 1][..j] == refs[..j];
    assert refs[..j + 1][j] == refs[j];
    assert (verdicts + [v])[..|verdicts|] == verdicts;
  }

  /** An exception while checking namespace i fails the whole pass with it. */
  lemma HealthNamespaceFails(api: Api, namespaces: seq<Namespace>, i: nat)
    requires i < |namespaces|
    requires Verdicts(api, AppRefs(namespaces[..i])).Ok?
    requires Verdicts(api, RefsOf(namespaces[i])).Err?
    ensures HealthReportOf(api, Inventory(namespaces)) == Err(Verdicts(api, RefsOf(namespaces[i])).error)
  {
    CollectNamespaceFails(HealthCheck(api), namespaces, i);
  }

  /** Checking namespace i extends the verdicts and both lists by that namespace's part. */
  lemma HealthNamespaceStep(api: Api, namespaces: seq<Namespace>, i: nat, verdicts: seq<Verdict>)
    requires i < |namespaces|
    requires Verdicts(api, AppRefs(namespaces[..i])) == Ok(verdicts)
    requires Verdicts(api, RefsOf(namespaces[i])).Ok?
    ensures var more := Verdicts(api, RefsOf(namespaces[i])).value;
            Verdicts(api, AppRefs(namespaces[..i + 1])) == Ok(verdicts + more)
            && Partition(AppRefs(namespaces[..i + 1]), verdicts + more).healthy
               == Partition(AppRefs(namespaces[..i]), verdicts).healthy + Partition(RefsOf(namespaces[i]), more).healthy
            && Partition(AppRefs(namespaces[..i + 1]), verdicts + more).unhealthy
               == Partition(AppRefs(namespaces[..i]), verdicts).unhealthy + Partition(RefsOf(namespaces[i]), more).unhealthy
  {
    CollectNamespaceStep(HealthCheck(api), namespaces, i, verdicts);
    AppRefsStep(namespaces, i);
    var more := Verdicts(api, RefsOf(namespaces[i])).value;
    PartitionAppend(AppRefs(namespaces[..i]), verdicts, RefsOf(namespaces[i]), more);
  }

  /**
    The inner loop of `app_health` over one namespace's apps: check each app in
    turn and extend `healthy` or `unhealthy` with it.
   */
  method ClassifyApps(api: Api, namespace: string, apps: seq<string>,
                      healthyApps: seq<AppRef>, unhealthyApps: seq<UnhealthyApp>)
    returns (r: Outcome<(seq<AppRef>, seq<UnhealthyApp>)>)
    ensures var refs := RefsOf(Namespace(namespace, apps));
            Verdicts(api, refs).Err? ==> r == Err(Verdicts(api, refs).error)
    ensures var refs := RefsOf(Namespace(namespace, apps));
            Verdicts(api, refs).Ok? ==>
              var p := Partition(refs, Verdicts(api, refs).value);
              r == Ok((healthyApps + p.healthy, unhealthyApps + p.unhealthy))
  {
    ghost var refs := RefsOf(Namespace(namespace, apps));
    ghost var verdicts: seq<Verdict> := [];
    var healthy, unhealthy := healthyApps, unhealthyApps;
    var j := 0;
    while j < |apps|
      invariant 0 <= j <= |apps|
      invariant Verdicts(api, refs[..j]) == Ok(verdicts)
      invariant healthy == healthyApps + Partition(refs[..j], verdicts).healthy
      invariant unhealthy == unhealthyApps + Partition(refs[..j], verdicts).unhealthy
    {
      var app := apps[j];
      assert refs[j] == AppRef(namespace, app);
      var verdict := CheckAppHealth(api, namespace, app);
      if verdict.Err? {
        CollectFailsAt(HealthCheck(api), refs, j, verdict.error);
        return Err(verdict.error);
      }
      var v := verdict.value;
      HealthStep(api, refs, j, verdicts, v, HealthReport(healthyApps, unhealthyApps, []));
      if v.health == HEALTHY {
        healthy := healthy + [AppRef(namespace, app)];
      } else {
        unhealthy := unhealthy + [UnhealthyApp(namespace, app, v.reason)];
      }
      verdicts := verdicts + [v];
      j := j + 1;
    }
    assert refs[..j] == refs;
    return Ok((healthy, unhealthy));
  }

  /** `app_health`'s loop over the inventory's namespaces, up to the document it writes. */
  method EvaluateHealth(api: Api, inventory: Inventory) returns (r: Outcome<HealthReport>)
    ensures r == HealthReportOf(api, inventory)
  {
    var namespaces := inventory.namespaces;
    var healthyApps: seq<AppRef> := [];
    var unhealthyApps: seq<UnhealthyApp> := [];
    var unknownApps: seq<AppRef> := [];
    ghost var verdicts: seq<Verdict> := [];
    var i := 0;
    while i < |namespaces|
      invariant 0 <= i <= |namespaces|
      invariant Verdicts(api, AppRefs(namespaces[..i])) == Ok(verdicts)
      invariant healthyApps == Partition(AppRefs(namespaces[..i]), verdicts).healthy
      invariant unhealthyApps == Partition(AppRefs(namespaces[..i]), verdicts).unhealthy
    {
      assert Namespace(namespaces[i].name, namespaces[i].apps) == namespaces[i];
      var classified := ClassifyApps(api, namespaces[i].name, namespaces[i].apps, healthyApps, unhealthyApps);
      if classified.Err? {
        HealthNamespaceFails(api, namespaces, i);
        return Err(classified.error);
      }
      HealthNamespaceStep(api, namespaces, i, verdicts);
      healthyApps, unhealthyApps := classified.value.0, classified.value.1;
      verdicts := verdicts + Verdicts(api, RefsOf(namespaces[i])).value;
      i := i + 1;
    }
    assert namespaces[..i] == namespaces;
    PartitionExactlyOnce(AppRefs(namespaces), verdicts);
    return Ok(HealthReport(healthyApps, unhealthyApps, unknownApps));
  }

  /**
    `app_health`: read the inventory, classify every app, and replace the
    health document once the whole pass has succeeded. Without an inventory
    (the file is missing) or after an exception nothing is written.
   */
  method AppHealth(store: SnapshotStore, api: Api)
    modifies store`appHealth
    ensures store.istioApps.None? ==> store.appHealth == old(store.appHealth)
    ensures store.istioApps.Some? && HealthReportOf(api, store.istioApps.value).Ok? ==>
              store.appHealth == Some(HealthReportOf(api, store.istioApps.value).value)
    ensures store.istioApps.Some? && HealthReportOf(api, store.istioApps.value).Err? ==>
              store.appHealth == old(store.appHealth)
  {
    if store.istioApps.None? {
      return;
    }
    var report := EvaluateHealth(api, store.istioApps.value);
    if report.Ok? {
      store.WriteHealth(report.value);
    }
  }

  /** One row of the drill-down table: name and the four counts of a workload. */
  function WorkloadRow(workload: Value): Outcome<seq<Value>> {
    var name :- Index(workload, "name");
    var desired :- Index(workload, "desiredReplicas");
    var current :- Index(workload, "currentReplicas");
    var available :- Index(workload, "availableReplicas");
    var synced :- Index(workload, "syncedProxies");
    Ok([name, desired, current, available, synced])
  }

  function WorkloadRows(workloads: seq<Value>): (r: Outcome<seq<seq<Value>>>)
    ensures r.Ok? ==> |r.value| == |workloads|
  {
    if workloads == [] then Ok([])
    else
      var before :- WorkloadRows(workloads[..|workloads| - 1]);
      var row :- WorkloadRow(workloads[|workloads| - 1]);
      Ok(before + [row])
  }

  lemma {:induction false} WorkloadRowsStopsAt(workloads: seq<Value>, k: nat)
    requires k <= |workloads| && WorkloadRows(workloads[..k]).Err?
    ensures WorkloadRows(workloads) == WorkloadRows(workloads[..k])
    decreases |workloads|
  {
    if k < |workloads| {
      var init := workloads[..|workloads| - 1];
      assert init[..k] == workloads[..k];
      WorkloadRowsStopsAt(init, k);
    } else {
      assert workloads[..k] == workloads;
    }
  }

  /**
    The drill-down table succeeds exactly when every workload's row reads,
    and then row i is workload i's.
   */
  lemma {:induction false} WorkloadRowsExact(workloads: seq<Value>)
    ensures WorkloadRows(workloads).Ok? <==> forall i :: 0 <= i < |workloads| ==> WorkloadRow(workloads[i]).Ok?
    ensures WorkloadRows(workloads).Ok? ==>
              forall i :: 0 <= i < |workloads| ==> WorkloadRow(workloads[i]) == Ok(WorkloadRows(workloads).value[i])
  {
    if workloads != [] {
      var n := |workloads| - 1;
      var init := workloads[..n];
      WorkloadRowsExact(init);
      assert forall i :: 0 <= i < n ==> init[i] == workloads[i];
    }
  }

  /**
    A workload object carrying all five keys gives the row of their values,
    name first; one missing key is a KeyError and a non-object a TypeError.
   */
  lemma WorkloadRowFields(workload: Value)
    ensures workload.Obj? && (forall key :: key in ["name", "desiredReplicas", "currentReplicas", "availableReplicas", "syncedProxies"] ==>
                                 Lookup(workload.members, key).Some?) ==>
              WorkloadRow(workload) == Ok([Lookup(workload.members, "name").value,
                                           Lookup(workload.members, "desiredReplicas").value,
                                           Lookup(workload.members, "currentReplicas").value,
                                           Lookup(workload.members, "availableReplicas").value,
                                           Lookup(workload.members, "syncedProxies").value])
    ensures workload.Obj? && Lookup(workload.members, "name").None? ==> WorkloadRow(workload) == Err(KeyError)
    ensures !workload.Obj? ==> WorkloadRow(workload) == Err(TypeError)
  {
  }

  /** `sum([v for k, v in histogram.items() if k.startswith(digit)])` over a dict's items, without rounding. */
  function ClassSum(members: seq<(string, Value)>, digit: char): Outcome<real> {
    if members == [] then Ok(0.0)
    else
      var before :- ClassSum(members[..|members| - 1], digit);
      var key := members[|members| - 1].0;
      if |key| > 0 && key[0] == digit then
        var rate :- Number(members[|members| - 1].1);
        Ok(before + rate)
      else
        Ok(before)
  }

  /** The sum of every rate in a histogram, whatever its key. */
  function RateTotal(members: seq<(string, Value)>): Outcome<real> {
    if members == [] then Ok(0.0)
    else
      var before :- RateTotal(members[..|members| - 1]);
      var rate :- Number(members[|members| - 1].1);
      Ok(before + rate)
  }

  /** The request rate of each status class {2xx, 3xx, 4xx, 5xx} in one direction. */
  datatype StatusClasses = StatusClasses(ok2xx: real, redirect3xx: real, client4xx: real, server5xx: real)

  /** The four class sums `get_app_health_details` takes of one histogram's decoded items; only a dict has `.items()`. */
  function Rollup(histogram: Value): Outcome<StatusClasses> {
    if !histogram.Obj? then Err(AttributeError)
    else
      var s2 :- ClassSum(Items(histogram.members), '2');
      var s3 :- ClassSum(Items(histogram.members), '3');
      var s4 :- ClassSum(Items(histogram.members), '4');
      var s5 :- ClassSum(Items(histogram.members), '5');
      Ok(StatusClasses(s2, s3, s4, s5))
  }

  /** A status code repeated in a histogram counts once, with its last rate, as in the decoded dict. */
  lemma RepeatedKeyCountedOnce()
    ensures Rollup(Obj([("200", Num(1.0)), ("200", Num(2.0))])) == Ok(StatusClasses(2.0, 0.0, 0.0, 0.0))
  {
    var members := [("200", Num(1.0)), ("200", Num(2.0))];
    assert members[..1] == [("200", Num(1.0))];
    assert Items(members[..1]) == [("200", Num(1.0))];
    assert Items(members) == [("200", Num(2.0))];
  }

  /** What `get_app_health_details` returns: the workload rows and the inbound and outbound rollups. */
  datatype Details = Details(workloadRows: seq<seq<Value>>, inbound: StatusClasses, outbound: StatusClasses)

  function HealthDetailsOf(api: Api, ns: string, app: string): Outcome<Details> {
    var response :- api(HealthEndpoint(ns, app));
    var t :- TelemetryOf(response);
    var workloads :- Iterate(t.workloads);
    var rows :- WorkloadRows(workloads);
    var inbound :- Rollup(t.inbound);
    var outbound :- Rollup(t.outbound);
    Ok(Details(rows, inbound, outbound))
  }

  /** `get_app_health_details`: the workload-row loop followed by the two rollups. */
  method GetAppHealthDetails(api: Api, ns: string, app: string) returns (r: Outcome<Details>)
    ensures r == HealthDetailsOf(api, ns, app)
  {
    var response := api(HealthEndpoint(ns, app));
    if response.Err? {
      return Err(response.error);
    }
    var telemetry := TelemetryOf(response.value);
    if telemetry.Err? {
      return Err(telemetry.error);
    }
    var t := telemetry.value;
    var iterated := Iterate(t.workloads);
    if iterated.Err? {
      return Err(iterated.error);
    }
    var workloads := iterated.value;
    var rows: seq<seq<Value>> := [];
    var i := 0;
    while i < |workloads|
      invariant 0 <= i <= |workloads|
      invariant WorkloadRows(workloads[..i]) == Ok(rows)
    {
      assert workloads[..i + 1][..i] == workloads[..i];
      var row := WorkloadRow(workloads[i]);
      if row.Err? {
        WorkloadRowsStopsAt(workloads, i + 1);
        return Err(row.error);
      }
      rows := rows + [row.value];
      i := i + 1;
    }
    assert workloads[..i] == workloads;
    var inbound := Rollup(t.inbound);
    if inbound.Err? {
      return Err(inbound.error);
    }
    var outbound := Rollup(t.outbound);
    if outbound.Err? {
      return Err(outbound.error);
    }
    return Ok(Details(rows, inbound.value, outbound.value));
  }

  /** A non-zero class sum needs at least one key of that class. */
  lemma {:induction false} NonZeroClassHasKey(members: seq<(string, Value)>, digit: char)
    requires ClassSum(members, digit).Ok? && ClassSum(members, digit).value != 0.0
    ensures exists i :: 0 <= i < |members| && |members[i].0| > 0 && members[i].0[0] == digit
  {
    var n := |members| - 1;
    var init := members[..n];
    var key := members[n].0;
    if !(|key| > 0 && key[0] == digit) {
      NonZeroClassHasKey(init, digit);
      var i :| 0 <= i < |init| && |init[i].0| > 0 && init[i].0[0] == digit;
      assert members[i] == init[i];
    }
  }

  /**
    When every key is a 2xx-5xx status code, the four class sums add up to the
    total rate: each request is counted in exactly one class.
   */
  lemma {:induction false} ClassesAccountForTotal(members: seq<(string, Value)>)
    requires forall i :: 0 <= i < |members| ==> |members[i].0| > 0 && '2' <= members[i].0[0] <= '5'
    requires RateTotal(members).Ok?
    ensures ClassSum(members, '2').Ok? && ClassSum(members, '3').Ok?
    ensures ClassSum(members, '4').Ok? && ClassSum(members, '5').Ok?
    ensures ClassSum(members, '2').value + ClassSum(members, '3').value
            + ClassSum(members, '4').value + ClassSum(members, '5').value
            == RateTotal(members).value
  {
    if members != [] {
      var n := |members| - 1;
      var init := members[..n];
      assert forall i :: 0 <= i < n ==> init[i] == members[i];
      ClassesAccountForTotal(init);
    }
  }

  /** Traffic in a 3xx, 4xx or 5xx class of a histogram means one of its keys is a problem status. */
  lemma ProblemClassHasProblemKey(histogram: Value, d: char)
    requires histogram.Obj? && (d == '3' || d == '4' || d == '5')
    requires ClassSum(Items(histogram.members), d).Ok? && ClassSum(Items(histogram.members), d).value != 0.0
    ensures AnyProblemStatus(Keys(histogram).value)
  {
    var items := Items(histogram.members);
    NonZeroClassHasKey(items, d);
    var i :| 0 <= i < |items| && |items[i].0| > 0 && items[i].0[0] == d;
    assert IsProblemStatus(Keys(histogram).value[i]);
  }

  /**
    The drill-down and the classifier agree: traffic in the 3xx, 4xx or 5xx
    class of the inbound histogram makes the app unhealthy, and in the outbound
    histogram it makes the reason the outbound one.
   */
  lemma ProblemTrafficIsUnhealthy(t: Telemetry, v: Verdict, inbound: StatusClasses, outbound: StatusClasses)
    requires Classify(t) == Ok(v)
    requires Rollup(t.inbound) == Ok(inbound) && Rollup(t.outbound) == Ok(outbound)
    ensures inbound.redirect3xx != 0.0 || inbound.client4xx != 0.0 || inbound.server5xx != 0.0 ==> v.health == UNHEALTHY
    ensures outbound.redirect3xx != 0.0 || outbound.client4xx != 0.0 || outbound.server5xx != 0.0 ==>
              v == Verdict(UNHEALTHY, OUTBOUND_ISSUE)
  {
    forall d | d == '3' || d == '4' || d == '5'
      ensures ClassSum(Items(t.inbound.members), d).Ok? && ClassSum(Items(t.inbound.members), d).value != 0.0
              ==> AnyProblemStatus(Keys(t.inbound).value)
      ensures ClassSum(Items(t.outbound.members), d).Ok? && ClassSum(Items(t.outbound.members), d).value != 0.0
              ==> AnyProblemStatus(Keys(t.outbound).value)
    {
      if ClassSum(Items(t.inbound.members), d).Ok? && ClassSum(Items(t.inbound.members), d).value != 0.0 {
        ProblemClassHasProblemKey(t.inbound, d);
      }
      if ClassSum(Items(t.outbound.members), d).Ok? && ClassSum(Items(t.outbound.members), d).value != 0.0 {
        ProblemClassHasProblemKey(t.outbound, d);
      }
    }
  }
}
