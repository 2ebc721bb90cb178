/**
  Namespace and application discovery: `get_istio_namespaces` and
  `get_istio_applications` in helpers/applications.py.
 */
module Discovery {
  import opened Wrappers
  import opened Json
  import opened Kiali
  import opened Snapshot

  /**
    One item of the namespace list: its `name` when its labels say
    `istio-injection: enabled`, None when any lookup on the way fails (the
    KeyError and TypeError the source swallows) or the label has another value.
   */
  function EnabledName(item: Value): Option<Value> {
    match Index(item, "labels")
    case Err(_) => None
    case Ok(labels) =>
      match Index(labels, "istio-injection")
      case Err(_) => None
      case Ok(flag) =>
        if flag != Str("enabled") then None
        else
          match Index(item, "name")
          case Err(_) => None
          case Ok(name) => Some(name)
  }

  /** The names the namespace loop appends, in response order. */
  function EnabledNames(items: seq<Value>): seq<Value> {
    if items == [] then []
    else
      EnabledNames(items[..|items| - 1])
      + match EnabledName(items[|items| - 1]) case Some(name) => [name] case None => []
  }

  /** What `get_istio_namespaces` returns, or the exception it raises. */
  function Namespaces(api: Api): Outcome<seq<Value>> {
    var response :- api(NAMESPACES_ENDPOINT);
    var items :- Iterate(response);
    Ok(EnabledNames(items))
  }

  /** Items without the label, with non-dict labels or with another label value are skipped. */
  lemma SkippedItems(item: Value)
    ensures !item.Obj? ==> EnabledName(item) == None
    ensures item.Obj? && Lookup(item.members, "labels") == None ==> EnabledName(item) == None
    ensures item.Obj? && Lookup(item.members, "labels") == Some(Null) ==> EnabledName(item) == None
    ensures Index(item, "labels").Ok? && Index(Index(item, "labels").value, "istio-injection") != Ok(Str("enabled"))
            ==> EnabledName(item) == None
    ensures Index(item, "labels").Ok? && Index(Index(item, "labels").value, "istio-injection") == Ok(Str("enabled"))
            ==> EnabledName(item) == (match Index(item, "name") case Ok(n) => Some(n) case Err(_) => None)
  {
  }

  /** A name is listed exactly when some item of the response qualifies with that name. */
  lemma {:induction false} EnabledNamesMembers(items: seq<Value>, name: Value)
    ensures name in EnabledNames(items) <==> exists i :: 0 <= i < |items| && EnabledName(items[i]) == Some(name)
  {
    if items != [] {
      var init := items[..|items| - 1];
      var last := items[|items| - 1];
      var tail := match EnabledName(last) case Some(n) => [n] case None => [];
      assert EnabledNames(items) == EnabledNames(init) + tail;
      EnabledNamesMembers(init, name);
      if name in EnabledNames(items) {
        if name in EnabledNames(init) {
          var i :| 0 <= i < |init| && EnabledName(init[i]) == Some(name);
          assert items[i] == init[i];
        } else {
          assert name in tail;
          assert EnabledName(items[|items| - 1]) == Some(name);
        }
      }
      if exists i :: 0 <= i < |items| && EnabledName(items[i]) == Some(name) {
        var i :| 0 <= i < |items| && EnabledName(items[i]) == Some(name);
        if i < |init| {
          assert init[i] == items[i];
          assert name in EnabledNames(init);
        } else {
          assert tail == [name];
        }
      }
    }
  }

  /** Qualifying names keep response order: the list of a concatenation is the concatenation of the lists. */
  lemma {:induction false} EnabledNamesAppend(a: seq<Value>, b: seq<Value>)
    ensures EnabledNames(a + b) == EnabledNames(a) + EnabledNames(b)
    decreases |b|
  {
    if b == [] {
      assert a + b == a;
    } else {
      assert (a + b)[..|a + b| - 1] == a + b[..|b| - 1];
      EnabledNamesAppend(a, b[..|b| - 1]);
    }
  }

  /** The namespace loop of `get_istio_namespaces`. */
  method GetIstioNamespaces(api: Api) returns (r: Outcome<seq<Value>>)
    ensures r == Namespaces(api)
  {
    var response := api(NAMESPACES_ENDPOINT);
    if response.Err? {
      return Err(response.error);
    }
    var iterated := Iterate(response.value);
    if iterated.Err? {
      return Err(iterated.error);
    }
    var items := iterated.value;
    var nsList: seq<Value> := [];
    var i := 0;
    while i < |items|
      invariant 0 <= i <= |items|
      invariant nsList == EnabledNames(items[..i])
    {
      assert items[..i + 1][..i] == items[..i];
      match EnabledName(items[i]) {
        case Some(name) => nsList := nsList + [name];
        case None =>
      }
      i := i + 1;
    }
    assert items[..i] == items;
    return Ok(nsList);
  }

  /** `app['name']` for one entry of `applications`; a name that is not a string is refused. */
  function AppName(app: Value): Outcome<string> {
    var name :- Index(app, "name");
    if name.Str? then Ok(name.s) else Err(TypeError)
  }

  /** The app names of one namespace, in response order; the first failing entry aborts. */
  function AppNames(apps: seq<Value>): Outcome<seq<string>> {
    if apps == [] then Ok([])
    else
      var names :- AppNames(apps[..|apps| - 1]);
      var name :- AppName(apps[|apps| - 1]);
      Ok(names + [name])
  }

  /** The inventory entry for one namespace: its name and the names of its applications. */
  function NamespaceEntry(api: Api, ns: Value): Outcome<Namespace> {
    if !ns.Str? then Err(TypeError)
    else
      var response :- api(AppsEndpoint(ns.s));
      var applications :- Index(response, "applications");
      var apps :- Iterate(applications);
      var names :- AppNames(apps);
      Ok(Namespace(ns.s, names))
  }

  /** One entry per namespace, in order; the first namespace whose entry fails aborts the run. */
  function Entries(api: Api, nsList: seq<Value>): Outcome<seq<Namespace>> {
    if nsList == [] then Ok([])
    else
      var entries :- Entries(api, nsList[..|nsList| - 1]);
      var entry :- NamespaceEntry(api, nsList[|nsList| - 1]);
      Ok(entries + [entry])
  }

  /** The inventory `get_istio_applications` writes, or the exception that stops it first. */
  function DiscoverInventory(api: Api): Outcome<Inventory> {
    var nsList :- Namespaces(api);
    var entries :- Entries(api, nsList);
    Ok(Inventory(entries))
  }

  lemma {:induction false} AppNamesStopsAt(apps: seq<Value>, k: nat)
    requires k <= |apps| && AppNames(apps[..k]).Err?
    ensures AppNames(apps) == AppNames(apps[..k])
    decreases |apps|
  {
    if k < |apps| {
      var init := apps[..|apps| - 1];
      assert init[..k] == apps[..k];
      AppNamesStopsAt(init, k);
    } else {
      assert apps[..k] == apps;
    }
  }

  lemma {:induction false} EntriesStopsAt(api: Api, nsList: seq<Value>, k: nat)
    requires k <= |nsList| && Entries(api, nsList[..k]).Err?
    ensures Entries(api, nsList) == Entries(api, nsList[..k])
    decreases |nsList|
  {
    if k < |nsList| {
      var init := nsList[..|nsList| - 1];
      assert init[..k] == nsList[..k];
      EntriesStopsAt(api, init, k);
    } else {
      assert nsList[..k] == nsList;
    }
  }

  /** The app names are exactly the names of the entries, one for one and in order. */
  lemma {:induction false} AppNamesExact(apps: seq<Value>)
    ensures AppNames(apps).Ok? <==> forall i :: 0 <= i < |apps| ==> AppName(apps[i]).Ok?
    ensures AppNames(apps).Ok? ==>
              |AppNames(apps).value| == |apps|
              && forall i :: 0 <= i < |apps| ==> AppName(apps[i]) == Ok(AppNames(apps).value[i])
  {
    if apps != [] {
      var init := apps[..|apps| - 1];
      AppNamesExact(init);
      assert forall i :: 0 <= i < |init| ==> init[i] == apps[i];
    }
  }

  /**
    The inventory has one entry per qualifying namespace, in order, each built
    from that namespace's own application list; it fails exactly when some
    namespace's entry fails.
   */
  lemma {:induction false} EntriesExact(api: Api, nsList: seq<Value>)
    ensures Entries(api, nsList).Ok? <==> forall i :: 0 <= i < |nsList| ==> NamespaceEntry(api, nsList[i]).Ok?
    ensures Entries(api, nsList).Ok? ==>
              |Entries(api, nsList).value| == |nsList|
              && forall i :: 0 <= i < |nsList| ==>
                   NamespaceEntry(api, nsList[i]) == Ok(Entries(api, nsList).value[i])
                   && nsList[i] == Str(Entries(api, nsList).value[i].name)
  {
    if nsList != [] {
      var init := nsList[..|nsList| - 1];
      EntriesExact(api, init);
      assert forall i :: 0 <= i < |init| ==> init[i] == nsList[i];
    }
  }

  /** The app loop of `get_istio_applications` over one namespace's applications. */
  method CollectAppNames(apps: seq<Value>) returns (r: Outcome<seq<string>>)
    ensures r == AppNames(apps)
  {
    var appsList: seq<string> := [];
    var j := 0;
    while j < |apps|
      invariant 0 <= j <= |apps|
      invariant AppNames(apps[..j]) == Ok(appsList)
    {
      assert apps[..j + 1][..j] == apps[..j];
      var name := AppName(apps[j]);
      if name.Err? {
        AppNamesStopsAt(apps, j + 1);
        return Err(name.error);
      }
      appsList := appsList + [name.value];
      j := j + 1;
    }
    assert apps[..j] == apps;
    return Ok(appsList);
  }

  /** The namespace loop of `get_istio_applications`, up to the document it writes. */
  method CollectInventory(api: Api) returns (r: Outcome<Inventory>)
    ensures r == DiscoverInventory(api)
  {
    var namespaces := GetIstioNamespaces(api);
    if namespaces.Err? {
      return Err(namespaces.error);
    }
    var nsList := namespaces.value;
    var nsAppList: seq<Namespace> := [];
    var i := 0;
    while i < |nsList|
      invariant 0 <= i <= |nsList|
      invariant Entries(api, nsList[..i]) == Ok(nsAppList)
    {
      assert nsList[..i + 1][..i] == nsList[..i];
      var ns := nsList[i];
      if !ns.Str? {
        EntriesStopsAt(api, nsList, i + 1);
        return Err(TypeError);
      }
      var response := api(AppsEndpoint(ns.s));
      if response.Err? {
        EntriesStopsAt(api, nsList, i + 1);
        return Err(response.error);
      }
      var applications := Index(response.value, "applications");
      if applications.Err? {
        EntriesStopsAt(api, nsList, i + 1);
        return Err(applications.error);
      }
      var apps := Iterate(applications.value);
      if apps.Err? {
        EntriesStopsAt(api, nsList, i + 1);
        return Err(apps.error);
      }
      var names := CollectAppNames(apps.value);
      if names.Err? {
        EntriesStopsAt(api, nsList, i + 1);
        return Err(names.error);
      }
      nsAppList := nsAppList + [Namespace(ns.s, names.value)];
      i := i + 1;
    }
    assert nsList[..i] == nsList;
    return Ok(Inventory(nsAppList));
  }

  /**
    `get_istio_applications`: the inventory is written once, after every
    namespace has been fetched; a run that raises leaves the prior file as it was.
   */
  method GetIstioApplications(store: SnapshotStore, api: Api)
    modifies store`istioApps
    ensures DiscoverInventory(api).Ok? ==> store.istioApps == Some(DiscoverInventory(api).value)
    ensures DiscoverInventory(api).Err? ==> store.istioApps == old(store.istioApps)
  {
    var inventory := CollectInventory(api);
    if inventory.Ok? {
      store.WriteInventory(inventory.value);
    }
  }
}
