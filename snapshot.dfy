/**
  The three snapshot documents the collector writes (istio_apps.yaml,
  app_health.yaml, app_red.yaml) and the store that holds the latest of each.
 */
module Snapshot {
  import opened Wrappers

  /** One entry of the inventory: a mesh-enabled namespace and its applications. */
  datatype Namespace = Namespace(name: string, apps: seq<string>)

  /** istio_apps.yaml: `{namespaces: [{name, apps}, ...]}`. */
  datatype Inventory = Inventory(namespaces: seq<Namespace>)

  datatype AppRef = AppRef(namespace: string, app: string)

  datatype UnhealthyApp = UnhealthyApp(namespace: string, app: string, reason: string)

  /** app_health.yaml: `{healthy: [...], unhealthy: [...], unknown: [...]}`. */
  datatype HealthReport = HealthReport(healthy: seq<AppRef>, unhealthy: seq<UnhealthyApp>, unknown: seq<AppRef>)

  /** One entry of a RED list: the app and the measured value; the namespace is not recorded. */
  datatype RedEntry = RedEntry(app: string, value: real)

  /** app_red.yaml: `{rate: [...], error: [...], duration: [...]}`. */
  datatype RedReport = RedReport(rate: seq<RedEntry>, error: seq<RedEntry>, duration: seq<RedEntry>)

  /** The (namespace, app) pairs of one inventory entry, in app order. */
  function RefsOf(n: Namespace): (r: seq<AppRef>)
    ensures |r| == |n.apps|
    ensures forall i :: 0 <= i < |r| ==> r[i] == AppRef(n.name, n.apps[i])
  {
    seq(|n.apps|, i requires 0 <= i < |n.apps| => AppRef(n.name, n.apps[i]))
  }

  /** Every (namespace, app) pair of an inventory, in the order the health and RED jobs visit them. */
  function AppRefs(namespaces: seq<Namespace>): seq<AppRef> {
    if namespaces == [] then []
    else AppRefs(namespaces[..|namespaces| - 1]) + RefsOf(namespaces[|namespaces| - 1])
  }

  /** The pairs of a concatenation are the concatenation of the pairs. */
  lemma {:induction false} AppRefsAppend(a: seq<Namespace>, b: seq<Namespace>)
    ensures AppRefs(a + b) == AppRefs(a) + AppRefs(b)
    decreases |b|
  {
    if b == [] {
      assert a + b == a;
    } else {
      var init, last := b[..|b| - 1], b[|b| - 1];
      assert (a + b)[..|a + b| - 1] == a + init;
      assert (a + b)[|a + b| - 1] == last;
      AppRefsAppend(a, init);
      assert AppRefs(a + b) == (AppRefs(a) + AppRefs(init)) + RefsOf(last);
      assert AppRefs(b) == AppRefs(init) + RefsOf(last);
    }
  }

  /**
    The pairs of the first i namespaces form a prefix of all the pairs, so a
    run that stops after them has seen exactly those.
   */
  lemma AppRefsPrefix(namespaces: seq<Namespace>, i: nat)
    requires i <= |namespaces|
    ensures |AppRefs(namespaces[..i])| <= |AppRefs(namespaces)|
    ensures AppRefs(namespaces)[..|AppRefs(namespaces[..i])|] == AppRefs(namespaces[..i])
  {
    assert namespaces == namespaces[..i] + namespaces[i..];
    AppRefsAppend(namespaces[..i], namespaces[i..]);
  }

  /** Finishing namespace i extends the visited pairs by all of its apps. */
  lemma AppRefsStep(namespaces: seq<Namespace>, i: nat)
    requires i < |namespaces|
    ensures AppRefs(namespaces[..i + 1]) == AppRefs(namespaces[..i]) + RefsOf(namespaces[i])
  {
    assert namespaces[..i + 1][..i] == namespaces[..i];
  }

  /**
    The snapshot files. Each document is replaced whole by its writer and
    None stands for a file that has not been written yet, which `read_yaml`
    reports as None.
   */
  class SnapshotStore {
    var istioApps: Option<Inventory>
    var appHealth: Option<HealthReport>
    var appRed: Option<RedReport>

    /** A fresh deployment: no file has been written. */
    constructor ()
      ensures istioApps == None && appHealth == None && appRed == None
    {
      istioApps := None;
      appHealth := None;
      appRed := None;
    }

    method WriteInventory(inventory: Inventory)
      modifies this`istioApps
      ensures istioApps == Some(inventory)
    {
      istioApps := Some(inventory);
    }

    method WriteHealth(report: HealthReport)
      modifies this`appHealth
      ensures appHealth == Some(report)
    {
      appHealth := Some(report);
    }

    method WriteRed(report: RedReport)
      modifies this`appRed
      ensures appRed == Some(report)
    {
      appRed := Some(report);
    }
  }
}
