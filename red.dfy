/**
  RED (rate, error, duration) extraction and flagging: `check_app_red` and
  `app_red` in helpers/applications.py.
 */
module Red {
  import opened Wrappers
  import opened Json
  import opened Kiali
  import opened Snapshot
  import opened Passes

  /** What `check_app_red` returns: request rate, error percentage and response time. */
  datatype Stats = Stats(rate: real, error: real, duration: real)

  /** `node['data']['app']` */
  function NodeApp(node: Value): Outcome<Value> {
    var data :- Index(node, "data");
    Index(data, "app")
  }

  /** `node['data']['id']` */
  function NodeId(node: Value): Outcome<Value> {
    var data :- Index(node, "data");
    Index(data, "id")
  }

  /** The node loop of `check_app_red`: the id of the last node whose app is the target, '' when none is. */
  function AppId(nodes: seq<Value>, app: string): Outcome<Value> {
    if nodes == [] then Ok(Str(""))
    else
      var before :- AppId(nodes[..|nodes| - 1], app);
      var last := nodes[|nodes| - 1];
      var name :- NodeApp(last);
      if name == Str(app) then NodeId(last) else Ok(before)
  }

  /** `edge['data']['target']` */
  function EdgeTarget(edge: Value): Outcome<Value> {
    var data :- Index(edge, "data");
    Index(data, "target")
  }

  /** `edge['data']['traffic']['rates']['http']` */
  function EdgeRate(edge: Value): Outcome<Value> {
    var data :- Index(edge, "data");
    var traffic :- Index(data, "traffic");
    var rates :- Index(traffic, "rates");
    Index(rates, "http")
  }

  /** `edge['data']['responseTime']` */
  function EdgeDuration(edge: Value): Outcome<Value> {
    var data :- Index(edge, "data");
    Index(data, "responseTime")
  }

  /** `edge['data']['traffic']['rates']['httpPercentErr']`, None where the source's try block swallows the exception. */
  function EdgeError(edge: Value): Option<Value> {
    match EdgeRates(edge)
    case Err(_) => None
    case Ok(rates) =>
      match Index(rates, "httpPercentErr")
      case Ok(e) => Some(e)
      case Err(_) => None
  }

  function EdgeRates(edge: Value): Outcome<Value> {
    var data :- Index(edge, "data");
    var traffic :- Index(data, "traffic");
    Index(traffic, "rates")
  }

  /** The three accumulators of the edge loop, still as the JSON values read. */
  datatype Readings = Readings(rate: Value, duration: Value, error: Value)

  /** `request_rate = response_duration = error_percent = 0` */
  const NO_READINGS: Readings := Readings(Num(0.0), Num(0.0), Num(0.0))

  /** One edge of `check_app_red`'s edge loop. */
  function ReadEdge(acc: Readings, edge: Value, id: Value): Outcome<Readings> {
    var target :- EdgeTarget(edge);
    if target != id then Ok(acc)
    else
      var rate :- EdgeRate(edge);
      var duration :- EdgeDuration(edge);
      Ok(Readings(rate, duration, match EdgeError(edge) case Some(e) => e case None => acc.error))
  }

  /** The accumulators after the edge loop. */
  function ReadEdges(edges: seq<Value>, id: Value): Outcome<Readings> {
    if edges == [] then Ok(NO_READINGS)
    else
      var before :- ReadEdges(edges[..|edges| - 1], id);
      ReadEdge(before, edges[|edges| - 1], id)
  }

  /** `check_app_red(host, ns, app)` as a value: the three floats or the exception raised first. */
  function AppStats(api: Api, ns: string, app: string): Outcome<Stats> {
    var response :- api(GraphEndpoint(ns, app));
    var elements :- Index(response, "elements");
    var nodeList :- Index(elements, "nodes");
    var nodes :- Iterate(nodeList);
    var id :- AppId(nodes, app);
    var edgeList :- Index(elements, "edges");
    var edges :- Iterate(edgeList);
    var readings :- ReadEdges(edges, id);
    var rate :- Float(readings.rate);
    var error :- Float(readings.error);
    var duration :- Float(readings.duration);
    Ok(Stats(rate, error, duration))
  }

  predicate NodeMatches(node: Value, app: string) {
    NodeApp(node) == Ok(Str(app))
  }

  predicate EdgeMatches(edge: Value, id: Value) {
    EdgeTarget(edge) == Ok(id)
  }

  lemma {:induction false} AppIdStopsAt(nodes: seq<Value>, app: string, k: nat)
    requires k <= |nodes| && AppId(nodes[..k], app).Err?
    ensures AppId(nodes, app) == AppId(nodes[..k], app)
    decreases |nodes|
  {
    if k < |nodes| {
      var init := nodes[..|nodes| - 1];
      assert init[..k] == nodes[..k];
      AppIdStopsAt(init, app, k);
    } else {
      assert nodes[..k] == nodes;
    }
  }

  lemma {:induction false} ReadEdgesStopsAt(edges: seq<Value>, id: Value, k: nat)
    requires k <= |edges| && ReadEdges(edges[..k], id).Err?
    ensures ReadEdges(edges, id) == ReadEdges(edges[..k], id)
    decreases |edges|
  {
    if k < |edges| {
      var init := edges[..|edges| - 1];
      assert init[..k] == edges[..k];
      ReadEdgesStopsAt(init, id, k);
    } else {
      assert edges[..k] == edges;
    }
  }

  /** What the last node does to the app id: nothing unless its app is the target, and then its id. */
  lemma AppIdLast(nodes: seq<Value>, app: string)
    requires nodes != [] && AppId(nodes, app).Ok?
    ensures AppId(nodes[..|nodes| - 1], app).Ok? && NodeApp(nodes[|nodes| - 1]).Ok?
    ensures NodeMatches(nodes[|nodes| - 1], app) ==> NodeId(nodes[|nodes| - 1]) == AppId(nodes, app)
    ensures !NodeMatches(nodes[|nodes| - 1], app) ==> AppId(nodes, app) == AppId(nodes[..|nodes| - 1], app)
  {
  }

  /** A successful node scan read the app of every node. */
  lemma {:induction false} NodeAppsRead(nodes: seq<Value>, app: string)
    requires AppId(nodes, app).Ok?
    ensures forall i :: 0 <= i < |nodes| ==> NodeApp(nodes[i]).Ok?
  {
    if nodes != [] {
      var n := |nodes| - 1;
      var init := nodes[..n];
      AppIdLast(nodes, app);
      NodeAppsRead(init, app);
      assert forall i :: 0 <= i < n ==> init[i] == nodes[i];
    }
  }

  /** When no node's app is the target, the app id stays ''. */
  lemma {:induction false} NoNodeEmptyId(nodes: seq<Value>, app: string)
    requires AppId(nodes, app).Ok?
    requires forall i :: 0 <= i < |nodes| ==> !NodeMatches(nodes[i], app)
    ensures AppId(nodes, app).value == Str("")
  {
    if nodes != [] {
      var n := |nodes| - 1;
      var init := nodes[..n];
      AppIdLast(nodes, app);
      assert forall i :: 0 <= i < n ==> init[i] == nodes[i];
      NoNodeEmptyId(init, app);
    }
  }

  /** The app id is the id of the last node whose app is the target: earlier matches are overwritten. */
  lemma {:induction false} AppIdIsLastMatch(nodes: seq<Value>, app: string, i: nat)
    requires AppId(nodes, app).Ok?
    requires i < |nodes| && NodeMatches(nodes[i], app)
    requires forall j :: i < j < |nodes| ==> !NodeMatches(nodes[j], app)
    ensures NodeId(nodes[i]) == AppId(nodes, app)
  {
    var n := |nodes| - 1;
    var init := nodes[..n];
    AppIdLast(nodes, app);
    if i < n {
      assert forall j :: i < j < n ==> init[j] == nodes[j];
      AppIdIsLastMatch(init, app, i);
    }
  }

  /** What one edge does to the readings: nothing unless it targets the app id, and then what it carries. */
  lemma ReadEdgeCases(acc: Readings, edge: Value, id: Value)
    requires ReadEdge(acc, edge, id).Ok?
    ensures EdgeTarget(edge).Ok?
    ensures !EdgeMatches(edge, id) ==> ReadEdge(acc, edge, id).value == acc
    ensures EdgeMatches(edge, id) ==>
              EdgeRate(edge) == Ok(ReadEdge(acc, edge, id).value.rate)
              && EdgeDuration(edge) == Ok(ReadEdge(acc, edge, id).value.duration)
              && ReadEdge(acc, edge, id).value.error
                 == (match EdgeError(edge) case Some(e) => e case None => acc.error)
  {
  }

  /** A successful scan read the target of every edge. */
  lemma {:induction false} EdgeTargetsRead(edges: seq<Value>, id: Value)
    requires ReadEdges(edges, id).Ok?
    ensures forall i :: 0 <= i < |edges| ==> EdgeTarget(edges[i]).Ok?
  {
    if edges != [] {
      var n := |edges| - 1;
      var init := edges[..n];
      EdgeTargetsRead(init, id);
      ReadEdgeCases(ReadEdges(init, id).value, edges[n], id);
      assert forall i :: 0 <= i < n ==> init[i] == edges[i];
    }
  }

  /** When no edge targets the app id, all three readings stay 0. */
  lemma {:induction false} NoEdgeNoReadings(edges: seq<Value>, id: Value)
    requires ReadEdges(edges, id).Ok?
    requires forall i :: 0 <= i < |edges| ==> !EdgeMatches(edges[i], id)
    ensures ReadEdges(edges, id).value == NO_READINGS
  {
    if edges != [] {
      var n := |edges| - 1;
      var init := edges[..n];
      assert forall i :: 0 <= i < n ==> init[i] == edges[i];
      NoEdgeNoReadings(init, id);
      ReadEdgeCases(ReadEdges(init, id).value, edges[n], id);
    }
  }

  /**
    Rate and duration come from the last edge that targets the app id: earlier
    matching edges are overwritten.
   */
  lemma {:induction false} RateAndDurationFromLastEdge(edges: seq<Value>, id: Value, i: nat)
    requires ReadEdges(edges, id).Ok?
    requires i < |edges| && EdgeMatches(edges[i], id)
    requires forall j :: i < j < |edges| ==> !EdgeMatches(edges[j], id)
    ensures EdgeRate(edges[i]) == Ok(ReadEdges(edges, id).value.rate)
    ensures EdgeDuration(edges[i]) == Ok(ReadEdges(edges, id).value.duration)
  {
    var n := |edges| - 1;
    var init := edges[..n];
    ReadEdgeCases(ReadEdges(init, id).value, edges[n], id);
    if i < n {
      assert forall j :: i < j < n ==> init[j] == edges[j];
      RateAndDurationFromLastEdge(init, id, i);
    }
  }

  /**
    The error percentage is sticky: it comes from the last matching edge that
    carries `httpPercentErr`, and a later matching edge without it leaves it alone.
   */
  lemma {:induction false} ErrorFromLastEdgeWithIt(edges: seq<Value>, id: Value, i: nat)
    requires ReadEdges(edges, id).Ok?
    requires i < |edges| && EdgeMatches(edges[i], id) && EdgeError(edges[i]).Some?
    requires forall j :: i < j < |edges| && EdgeMatches(edges[j], id) ==> EdgeError(edges[j]).None?
    ensures EdgeError(edges[i]) == Some(ReadEdges(edges, id).value.error)
  {
    var n := |edges| - 1;
    var init := edges[..n];
    ReadEdgeCases(ReadEdges(init, id).value, edges[n], id);
    if i < n {
      assert forall j :: i < j < n ==> init[j] == edges[j];
      ErrorFromLastEdgeWithIt(init, id, i);
    }
  }

  /** When no matching edge carries `httpPercentErr`, the error percentage stays 0. */
  lemma {:induction false} NoErrorFieldZeroError(edges: seq<Value>, id: Value)
    requires ReadEdges(edges, id).Ok?
    requires forall i :: 0 <= i < |edges| && EdgeMatches(edges[i], id) ==> EdgeError(edges[i]).None?
    ensures ReadEdges(edges, id).value.error == Num(0.0)
  {
    if edges != [] {
      var n := |edges| - 1;
      var init := edges[..n];
      assert forall i :: 0 <= i < n ==> init[i] == edges[i];
      NoErrorFieldZeroError(init, id);
      ReadEdgeCases(ReadEdges(init, id).value, edges[n], id);
    }
  }

  /** The node loop of `check_app_red`: the id of the last node whose app is `app`. */
  method FindAppId(nodes: seq<Value>, app: string) returns (r: Outcome<Value>)
    ensures r == AppId(nodes, app)
  {
    var appId := Str("");
    var i := 0;
    while i < |nodes|
      invariant 0 <= i <= |nodes|
      invariant AppId(nodes[..i], app) == Ok(appId)
    {
      assert nodes[..i + 1][..i] == nodes[..i];
      var name := NodeApp(nodes[i]);
      if name.Err? {
        AppIdStopsAt(nodes, app, i + 1);
        return Err(name.error);
      }
      if name.value == Str(app) {
        var id := NodeId(nodes[i]);
        if id.Err? {
          AppIdStopsAt(nodes, app, i + 1);
          return Err(id.error);
        }
        appId := id.value;
      }
      i := i + 1;
    }
    assert nodes[..i] == nodes;
    return Ok(appId);
  }

  /** The edge loop of `check_app_red`: the readings of the edges into `appId`. */
  method ReadTraffic(edges: seq<Value>, appId: Value) returns (r: Outcome<Readings>)
    ensures r == ReadEdges(edges, appId)
  {
    var requestRate, responseDuration, errorPercent := Num(0.0), Num(0.0), Num(0.0);
    var k := 0;
    while k < |edges|
      invariant 0 <= k <= |edges|
      invariant ReadEdges(edges[..k], appId) == Ok(Readings(requestRate, responseDuration, errorPercent))
    {
      assert edges[..k + 1][..k] == edges[..k];
      var target := EdgeTarget(edges[k]);
      if target.Err? {
        ReadEdgesStopsAt(edges, appId, k + 1);
        return Err(target.error);
      }
      if target.value == appId {
        var rate := EdgeRate(edges[k]);
        if rate.Err? {
          ReadEdgesStopsAt(edges, appId, k + 1);
          return Err(rate.error);
        }
        var duration := EdgeDuration(edges[k]);
        if duration.Err? {
          ReadEdgesStopsAt(edges, appId, k + 1);
          return Err(duration.error);
        }
        requestRate, responseDuration := rate.value, duration.value;
        match EdgeError(edges[k]) {
          case Some(e) => errorPercent := e;
          case None =>
        }
      }
      k := k + 1;
    }
    assert edges[..k] == edges;
    return Ok(Readings(requestRate, responseDuration, errorPercent));
  }

  /**
    `check_app_red`: fetch the app's graph, find its node id, read the traffic
    of the edges into that node, and convert the three readings to floats.
   */
  method CheckAppRed(api: Api, ns: string, app: string) returns (r: Outcome<Stats>)
    ensures r == AppStats(api, ns, app)
  {
    var response := api(GraphEndpoint(ns, app));
    if response.Err? {
      return Err(response.error);
    }
    var elements := Index(response.value, "elements");
    if elements.Err? {
      return Err(elements.error);
    }
    var nodeList := Index(elements.value, "nodes");
    if nodeList.Err? {
      return Err(nodeList.error);
    }
    var nodes := Iterate(nodeList.value);
    if nodes.Err? {
      return Err(nodes.error);
    }
    var appId := FindAppId(nodes.value, app);
    if appId.Err? {
      return Err(appId.error);
    }
    var edgeList := Index(elements.value, "edges");
    if edgeList.Err? {
      return Err(edgeList.error);
    }
    var edges := Iterate(edgeList.value);
    if edges.Err? {
      return Err(edges.error);
    }
    var readings := ReadTraffic(edges.value, appId.value);
    if readings.Err? {
      return Err(readings.error);
    }
    var rate := Float(readings.value.rate);
    if rate.Err? {
      return Err(rate.error);
    }
    var error := Float(readings.value.error);
    if error.Err? {
      return Err(error.error);
    }
    var duration := Float(readings.value.duration);
    if duration.Err? {
      return Err(duration.error);
    }
    return Ok(Stats(rate.value, error.value, duration.value));
  }

  /** `check_app_red` as a check on one (namespace, app) pair. */
  function RedCheck(api: Api): AppRef -> Outcome<Stats> {
    (ref: AppRef) => AppStats(api, ref.namespace, ref.app)
  }

  /** The statistics of each pair, in order; the first exception aborts the run. */
  function AllStats(api: Api, refs: seq<AppRef>): Outcome<seq<Stats>> {
    Collect(RedCheck(api), refs)
  }

  /** The three signals `app_red` tests. */
  datatype Signal = Rate | Error | Duration

  function Reading(s: Stats, k: Signal): real {
    match k
    case Rate => s.rate
    case Error => s.error
    case Duration => s.duration
  }

  /** The test in `app_red` that puts an app on a signal's list: rate == 0, error != 0, duration > threshold. */
  predicate Fails(k: Signal, v: real, threshold: real) {
    match k
    case Rate => v == 0.0
    case Error => v != 0.0
    case Duration => v > threshold
  }

  /** One signal's list: every app, in order, whose reading fails that signal's test, with the reading. */
  function Flagged(refs: seq<AppRef>, stats: seq<Stats>, k: Signal, threshold: real): seq<RedEntry>
    requires |refs| == |stats|
  {
    if refs == [] then []
    else
      var n := |refs| - 1;
      var v := Reading(stats[n], k);
      Flagged(refs[..n], stats[..n], k, threshold)
      + (if Fails(k, v, threshold) then [RedEntry(refs[n].app, v)] else [])
  }

  /** The three independent lists of `app_red`. */
  function Flag(refs: seq<AppRef>, stats: seq<Stats>, threshold: real): RedReport
    requires |refs| == |stats|
  {
    RedReport(Flagged(refs, stats, Rate, threshold),
              Flagged(refs, stats, Error, threshold),
              Flagged(refs, stats, Duration, threshold))
  }

  /** The document `app_red` writes, or the exception that stops the run first. */
  function RedReportOf(api: Api, inventory: Inventory, threshold: real): Outcome<RedReport> {
    var refs := AppRefs(inventory.namespaces);
    var stats :- AllStats(api, refs);
    Ok(Flag(refs, stats, threshold))
  }

  /**
    Each list holds exactly the apps that fail its test: app i is on signal k's
    list (with its reading) iff its reading fails the test, and every entry on
    the list is some app with a failing reading.
   */
  lemma {:induction false} FlaggedExact(refs: seq<AppRef>, stats: seq<Stats>, k: Signal, threshold: real)
    requires |refs| == |stats|
    ensures forall i :: 0 <= i < |refs| ==>
              (RedEntry(refs[i].app, Reading(stats[i], k)) in Flagged(refs, stats, k, threshold)
               <==> Fails(k, Reading(stats[i], k), threshold))
    ensures forall e :: e in Flagged(refs, stats, k, threshold) ==>
              Fails(k, e.value, threshold)
              && exists i :: 0 <= i < |refs| && e == RedEntry(refs[i].app, Reading(stats[i], k))
  {
    if refs != [] {
      var n := |refs| - 1;
      var init, sinit := refs[..n], stats[..n];
      FlaggedExact(init, sinit, k, threshold);
      assert forall i :: 0 <= i < n ==> init[i] == refs[i] && sinit[i] == stats[i];
    }
  }

  /** The lists keep inventory order: flagging a concatenation concatenates the lists. */
  lemma {:induction false} FlaggedAppend(a: seq<AppRef>, sa: seq<Stats>, b: seq<AppRef>, sb: seq<Stats>, k: Signal, threshold: real)
    requires |a| == |sa| && |b| == |sb|
    ensures Flagged(a + b, sa + sb, k, threshold) == Flagged(a, sa, k, threshold) + Flagged(b, sb, k, threshold)
    decreases |b|
  {
    if b == [] {
      assert a + b == a && sa + sb == sa;
    } else {
      var n := |b| - 1;
      assert (a + b)[..|a + b| - 1] == a + b[..n];
      assert (sa + sb)[..|sa + sb| - 1] == sa + sb[..n];
      FlaggedAppend(a, sa, b[..n], sb[..n], k, threshold);
    }
  }

  /**
    One more measured pair extends the statistics by its measurement and each
    list (after whatever came before it, `before`) by that pair alone.
   */
  lemma RedStep(api: Api, refs: seq<AppRef>, j: nat, stats: seq<Stats>, s: Stats, threshold: real,
                before: RedReport)
    requires j < |refs|
    requires AllStats(api, refs[..j]) == Ok(stats)
    requires AppStats(api, refs[j].namespace, refs[j].app) == Ok(s)
    ensures AllStats(api, refs[..j + 1]) == Ok(stats + [s])
    ensures before.rate + Flagged(refs[..j + 1], stats + [s], Rate, threshold)
            == before.rate + Flagged(refs[..j], stats, Rate, threshold)
               + (if s.rate == 0.0 then [RedEntry(refs[j].app, s.rate)] else [])
    ensures before.error + Flagged(refs[..j + 1], stats + [s], Error, threshold)
            == before.error + Flagged(refs[..j], stats, Error, threshold)
               + (if s.error != 0.0 then [RedEntry(refs[j].app, s.error)] else [])
    ensures before.duration + Flagged(refs[..j + 1], stats + [s], Duration, threshold)
            == before.duration + Flagged(refs[..j], stats, Duration, threshold)
               + (if s.duration > threshold then [RedEntry(refs[j].app, s.duration)] else [])
  {
    CollectStep(RedCheck(api), refs, j, stats, s);
    assert refs[..j + 1][..j] == refs[..j];
    assert refs[..j + 1][j] == refs[j];
    assert (stats + [s])[..|stats|] == stats;
  }

  /** An exception while measuring namespace i fails the whole pass with it. */
  lemma RedNamespaceFails(api: Api, namespaces: seq<Namespace>, i: nat, threshold: real)
    requires i < |namespaces|
    requires AllStats(api, AppRefs(namespaces[..i])).Ok?
    requires AllStats(api, RefsOf(namespaces[i])).Err?
    ensures RedReportOf(api, Inventory(namespaces), threshold) == Err(AllStats(api, RefsOf(namespaces[i])).error)
  {
    CollectNamespaceFails(RedCheck(api), namespaces, i);
  }

  /** Measuring namespace i extends the statistics and each list by that namespace's part. */
  lemma RedNamespaceStep(api: Api, namespaces: seq<Namespace>, i: nat, stats: seq<Stats>, threshold: real)
    requires i < |namespaces|
    requires AllStats(api, AppRefs(namespaces[..i])) == Ok(stats)
    requires AllStats(api, RefsOf(namespaces[i])).Ok?
    ensures var more := AllStats(api, RefsOf(namespaces[i])).value;
            AllStats(api, AppRefs(namespaces[..i + 1])) == Ok(stats + more)
            && forall k: Signal ::
                 Flagged(AppRefs(namespaces[..i + 1]), stats + more, k, threshold)
                 == Flagged(AppRefs(namespaces[..i]), stats, k, threshold) + Flagged(RefsOf(namespaces[i]), more, k, threshold)
  {
    CollectNamespaceStep(RedCheck(api), namespaces, i, stats);
    AppRefsStep(namespaces, i);
    var more := AllStats(api, RefsOf(namespaces[i])).value;
    forall k: Signal {
      FlaggedAppend(AppRefs(namespaces[..i]), stats, RefsOf(namespaces[i]), more, k, threshold);
    }
  }

  /** A report's list for one signal. */
  function Listed(report: RedReport, k: Signal): seq<RedEntry> {
    match k
    case Rate => report.rate
    case Error => report.error
    case Duration => report.duration
  }

  /**
    End to end: when the pass succeeds, every app of the inventory was measured
    by `check_app_red`, and it is on signal k's list, with its reading, exactly
    when that reading fails k's test; nothing else is on the list.
   */
  lemma RedReportExact(api: Api, inventory: Inventory, threshold: real, k: Signal)
    requires RedReportOf(api, inventory, threshold).Ok?
    ensures var refs := AppRefs(inventory.namespaces);
            forall i :: 0 <= i < |refs| ==> AppStats(api, refs[i].namespace, refs[i].app).Ok?
    ensures var refs := AppRefs(inventory.namespaces);
            var report := RedReportOf(api, inventory, threshold).value;
            forall i :: 0 <= i < |refs| ==>
              var v := Reading(AppStats(api, refs[i].namespace, refs[i].app).value, k);
              RedEntry(refs[i].app, v) in Listed(report, k) <==> Fails(k, v, threshold)
    ensures var refs := AppRefs(inventory.namespaces);
            var report := RedReportOf(api, inventory, threshold).value;
            forall e :: e in Listed(report, k) ==>
              Fails(k, e.value, threshold) && exists i :: 0 <= i < |refs| && e.app == refs[i].app
  {
    var refs := AppRefs(inventory.namespaces);
    CollectExact(RedCheck(api), refs);
    forall i | 0 <= i < |refs|
      ensures RedCheck(api)(refs[i]) == AppStats(api, refs[i].namespace, refs[i].app)
    {
    }
    var stats := AllStats(api, refs).value;
    FlaggedExact(refs, stats, k, threshold);
    assert Listed(RedReportOf(api, inventory, threshold).value, k) == Flagged(refs, stats, k, threshold);
  }

  /**
    The inner loop of `app_red` over one namespace's apps: measure each app in
    turn and extend the three lists with the ones that fail their tests.
   */
  method MeasureApps(api: Api, namespace: string, apps: seq<string>, threshold: real,
                     rateList: seq<RedEntry>, errorList: seq<RedEntry>, durationList: seq<RedEntry>)
    returns (r: Outcome<RedReport>)
    ensures var refs := RefsOf(Namespace(namespace, apps));
            AllStats(api, refs).Err? ==> r == Err(AllStats(api, refs).error)
    ensures var refs := RefsOf(Namespace(namespace, apps));
            AllStats(api, refs).Ok? ==>
              var stats := AllStats(api, refs).value;
              r == Ok(RedReport(rateList + Flagged(refs, stats, Rate, threshold),
                                errorList + Flagged(refs, stats, Error, threshold),
                                durationList + Flagged(refs, stats, Duration, threshold)))
  {
    ghost var refs := RefsOf(Namespace(namespace, apps));
    ghost var stats: seq<Stats> := [];
    var rates, errors, durations := rateList, errorList, durationList;
    var j := 0;
    while j < |apps|
      invariant 0 <= j <= |apps|
      invariant AllStats(api, refs[..j]) == Ok(stats)
      invariant rates == rateList + Flagged(refs[..j], stats, Rate, threshold)
      invariant errors == errorList + Flagged(refs[..j], stats, Error, threshold)
      invariant durations == durationList + Flagged(refs[..j], stats, Duration, threshold)
    {
      var app := apps[j];
      assert refs[j] == AppRef(namespace, app);
      var measured := CheckAppRed(api, namespace, app);
      if measured.Err? {
        CollectFailsAt(RedCheck(api), refs, j, measured.error);
        return Err(measured.error);
      }
      var s := measured.value;
      RedStep(api, refs, j, stats, s, threshold, RedReport(rateList, errorList, durationList));
      if s.rate == 0.0 {
        rates := rates + [RedEntry(app, s.rate)];
      }
      if s.error != 0.0 {
        errors := errors + [RedEntry(app, s.error)];
      }
      if s.duration > threshold {
        durations := durations + [RedEntry(app, s.duration)];
      }
      stats := stats + [s];
      j := j + 1;
    }
    assert refs[..j] == refs;
    return Ok(RedReport(rates, errors, durations));
  }

  /** `app_red`'s loop over the inventory's namespaces, up to the document it writes. */
  method EvaluateRed(api: Api, inventory: Inventory, threshold: real) returns (r: Outcome<RedReport>)
    ensures r == RedReportOf(api, inventory, threshold)
  {
    var namespaces := inventory.namespaces;
    var rateList: seq<RedEntry> := [];
    var errorList: seq<RedEntry> := [];
    var durationList: seq<RedEntry> := [];
    ghost var stats: seq<Stats> := [];
    var i := 0;
    while i < |namespaces|
      invariant 0 <= i <= |namespaces|
      invariant AllStats(api, AppRefs(namespaces[..i])) == Ok(stats)
      invariant rateList == Flagged(AppRefs(namespaces[..i]), stats, Rate, threshold)
      invariant errorList == Flagged(AppRefs(namespaces[..i]), stats, Error, threshold)
      invariant durationList == Flagged(AppRefs(namespaces[..i]), stats, Duration, threshold)
    {
      assert Namespace(namespaces[i].name, namespaces[i].apps) == namespaces[i];
      var measured := MeasureApps(api, namespaces[i].name, namespaces[i].apps, threshold,
                                  rateList, errorList, durationList);
      if measured.Err? {
        RedNamespaceFails(api, namespaces, i, threshold);
        return Err(measured.error);
      }
      RedNamespaceStep(api, namespaces, i, stats, threshold);
      rateList, errorList, durationList := measured.value.rate, measured.value.error, measured.value.duration;
      stats := stats + AllStats(api, RefsOf(namespaces[i])).value;
      i := i + 1;
    }
    assert namespaces[..i] == namespaces;
    return Ok(RedReport(rateList, errorList, durationList));
  }

  /**
    `app_red`: read the inventory, measure every app, and replace the RED
    document once the whole pass has succeeded. Without an inventory or after an
    exception nothing is written.
   */
  method AppRed(store: SnapshotStore, api: Api, threshold: real)
    modifies store`appRed
    ensures store.istioApps.None? ==> store.appRed == old(store.appRed)
    ensures store.istioApps.Some? && RedReportOf(api, store.istioApps.value, threshold).Ok? ==>
              store.appRed == Some(RedReportOf(api, store.istioApps.value, threshold).value)
    ensures store.istioApps.Some? && RedReportOf(api, store.istioApps.value, threshold).Err? ==>
              store.appRed == old(store.appRed)
  {
    if store.istioApps.None? {
      return;
    }
    var report := EvaluateRed(api, store.istioApps.value, threshold);
    if report.Ok? {
      store.WriteRed(report.value);
    }
  }
}
