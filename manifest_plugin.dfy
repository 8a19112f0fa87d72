/**
 * The build-time patch of the Android manifest: make sure the application
 * declares Notifee's foreground service, not exported and typed as a media
 * playback service, without touching any other service.
 */
module ManifestPlugin {
  import opened JsValues

  const NOTIFEE_FOREGROUND_SERVICE: string := "app.notifee.core.ForegroundService"
  const FOREGROUND_SERVICE_TYPE: string := "mediaPlayback"
  const NAME_ATTR: string := "android:name"
  const EXPORTED_ATTR: string := "android:exported"
  const TYPE_ATTR: string := "android:foregroundServiceType"

  // ---------------------------------------------------------------------
  // The patch on values

  /** A `<service>` entry as a value: `null`, or an element whose attribute object `$` may be missing. */
  datatype Entry = NullEntry | Element(attrs: Option<map<string, string>>)

  /** `item?.$?.["android:name"] === NOTIFEE_FOREGROUND_SERVICE` */
  predicate IsNotifeeService(e: Entry) {
    e.Element? && e.attrs.Some? && NAME_ATTR in e.attrs.value && e.attrs.value[NAME_ATTR] == NOTIFEE_FOREGROUND_SERVICE
  }

  /** `services.find(...)`, as an index: the first Notifee service entry. */
  function FindNotifee(entries: seq<Entry>): (r: Option<nat>)
    ensures r.Some? ==> r.value < |entries| && IsNotifeeService(entries[r.value])
    ensures r.Some? ==> forall j :: 0 <= j < r.value ==> !IsNotifeeService(entries[j])
    ensures r.None? ==> forall j :: 0 <= j < |entries| ==> !IsNotifeeService(entries[j])
  {
    if entries == [] then None
    else if IsNotifeeService(entries[0]) then Some(0)
    else match FindNotifee(entries[1..])
      case None => None
      case Some(i) => Some(i + 1)
  }

  /** The two attributes the patch sets, added to (or overriding) the existing ones. */
  function WithServiceAttrs(attrs: map<string, string>): map<string, string> {
    attrs[EXPORTED_ATTR := "false"][TYPE_ATTR := FOREGROUND_SERVICE_TYPE]
  }

  /** The new entry appended when none is found. */
  const NEW_SERVICE: Entry := Element(Some(map[NAME_ATTR := NOTIFEE_FOREGROUND_SERVICE]))

  /** The service list after the patch. */
  function Patched(entries: seq<Entry>): seq<Entry> {
    match FindNotifee(entries)
    case Some(i) => entries[i := Element(Some(WithServiceAttrs(entries[i].attrs.value)))]
    case None => entries + [Element(Some(WithServiceAttrs(NEW_SERVICE.attrs.value)))]
  }

  /**
   * After the patch the first Notifee entry sits where the first one was, or
   * at the end when there was none, and it is not exported and is a media
   * playback service; every other entry is as it was.
   */
  lemma PatchedShape(entries: seq<Entry>)
    ensures var r := Patched(entries);
      var at := if FindNotifee(entries).Some? then FindNotifee(entries).value else |entries|;
      && |r| == (if FindNotifee(entries).Some? then |entries| else |entries| + 1)
      && FindNotifee(r) == Some(at)
      && r[at].attrs.value[EXPORTED_ATTR] == "false"
      && r[at].attrs.value[TYPE_ATTR] == FOREGROUND_SERVICE_TYPE
      && (forall j :: 0 <= j < |entries| && j != at ==> r[j] == entries[j])
  {
    var r := Patched(entries);
    match FindNotifee(entries)
    case Some(i) =>
      assert IsNotifeeService(r[i]);
      FirstNotifeeIs(r, i);
    case None =>
      assert IsNotifeeService(r[|entries|]);
      FirstNotifeeIs(r, |entries|);
  }

  lemma {:induction false} FirstNotifeeIs(entries: seq<Entry>, i: nat)
    requires i < |entries| && IsNotifeeService(entries[i])
    requires forall j :: 0 <= j < i ==> !IsNotifeeService(entries[j])
    ensures FindNotifee(entries) == Some(i)
    decreases i
  {
    if i > 0 {
      FirstNotifeeIs(entries[1..], i - 1);
    }
  }

  /** Patching twice is patching once. */
  lemma PatchIsIdempotent(entries: seq<Entry>)
    ensures Patched(Patched(entries)) == Patched(entries)
  {
    PatchedShape(entries);
    var r := Patched(entries);
    var i := FindNotifee(r).value;
    assert WithServiceAttrs(r[i].attrs.value) == r[i].attrs.value;
  }

  /**
   * The `service` value of the application as `asArray` tells it apart: a
   * falsy value (absent or `null`), an array, whose entries may be `null`, or
   * a single element, which is never `null`.
   */
  datatype ServiceField = Missing | Single(item: ServiceNode) | List(items: seq<ServiceNode?>)

  /** `asArray`: a falsy value is the empty list, an array is itself, anything else a list of one. */
  function AsArray(v: ServiceField): (r: seq<ServiceNode?>)
    ensures v.Missing? ==> r == []
    ensures v.List? ==> r == v.items
    ensures v.Single? ==> r == [v.item] && r[0] != null
  {
    match v
    case Missing => []
    case Single(item) => [item]
    case List(items) => items
  }

  // ---------------------------------------------------------------------
  // The patch in place

  /** A `<service>` element: its attribute object `$`, which the patch updates in place. */
  class ServiceNode {
    var attrs: Option<map<string, string>>

    constructor (attrs: Option<map<string, string>>)
      ensures this.attrs == attrs
    {
      this.attrs := attrs;
    }
  }

  /** An `<application>` element: its `service` children. */
  class Application {
    var service: ServiceField

    constructor (service: ServiceField)
      ensures this.service == service
    {
      this.service := service;
    }
  }

  /** The parsed manifest: its `application` elements. */
  class AndroidManifest {
    var application: seq<Application?>

    constructor (application: seq<Application?>)
      ensures this.application == application
    {
      this.application := application;
    }
  }

  function NodeSet(nodes: seq<ServiceNode?>): set<ServiceNode> {
    set n: ServiceNode | n in nodes
  }

  /** The service entries as values. */
  function Entries(nodes: seq<ServiceNode?>): (r: seq<Entry>)
    reads NodeSet(nodes)
    ensures |r| == |nodes|
    ensures forall i :: 0 <= i < |nodes| ==> r[i] == (if nodes[i] == null then NullEntry else Element(nodes[i].attrs))
  {
    if nodes == [] then [] else
      [if nodes[0] == null then NullEntry else Element(nodes[0].attrs)] + Entries(nodes[1..])
  }

  /** No element object appears twice in the list, as in any parsed document. */
  predicate Distinct(nodes: seq<ServiceNode?>) {
    forall i, j :: 0 <= i < j < |nodes| && nodes[i] != null ==> nodes[i] != nodes[j]
  }

  /** The application the patch works on: the first one, if there is one. */
  function FirstApplication(m: AndroidManifest): Application?
    reads m
  {
    if |m.application| > 0 then m.application[0] else null
  }

  function Footprint(m: AndroidManifest): set<object>
    reads m, if FirstApplication(m) != null then {FirstApplication(m)} else {}
  {
    var app := FirstApplication(m);
    if app == null then {} else {app} + NodeSet(AsArray(app.service))
  }

  /** The first Notifee entry, with its attributes patched, is the patched list. */
  lemma PatchAtFound(before: seq<Entry>, found: seq<Entry>, at: nat, attrs: map<string, string>)
    requires FindNotifee(before).Some? ==> found == before && at == FindNotifee(before).value
    requires FindNotifee(before).None? ==> found == before + [NEW_SERVICE] && at == |before|
    requires at < |found| && found[at].Element? && found[at].attrs == Some(attrs)
    ensures found[at := Element(Some(WithServiceAttrs(attrs)))] == Patched(before)
  {
    if FindNotifee(before).Some? {
      PatchAtExisting(before, at, attrs);
    } else {
      assert attrs == NEW_SERVICE.attrs.value;
      PatchedWhenAbsent(before);
      UpdateAppended(before, NEW_SERVICE, Element(Some(WithServiceAttrs(attrs))));
    }
  }

  lemma PatchAtExisting(before: seq<Entry>, at: nat, attrs: map<string, string>)
    requires FindNotifee(before) == Some(at)
    requires before[at].attrs == Some(attrs)
    ensures before[at := Element(Some(WithServiceAttrs(attrs)))] == Patched(before)
  {
  }

  lemma PatchedWhenAbsent(before: seq<Entry>)
    requires FindNotifee(before).None?
    ensures Patched(before) == before + [Element(Some(WithServiceAttrs(NEW_SERVICE.attrs.value)))]
  {
  }

  lemma UpdateAppended(before: seq<Entry>, x: Entry, y: Entry)
    ensures (before + [x])[|before| := y] == before + [y]
  {
    assert (before + [x])[|before| := y] == before + [y];
  }

  lemma DistinctAppend(nodes: seq<ServiceNode?>, node: ServiceNode)
    requires Distinct(nodes) && node !in nodes
    ensures Distinct(nodes + [node])
  {
  }

  /**
   * `applyForegroundServiceType`: without an application nothing changes.
   * Otherwise the application's services become a list: the same elements,
   * plus a new one at the end when no Notifee service was there, and the
   * entries become `Patched` of what they were.
   */
  method ApplyForegroundServiceType(m: AndroidManifest)
    requires FirstApplication(m) != null ==> Distinct(AsArray(FirstApplication(m).service))
    modifies Footprint(m)
    ensures FirstApplication(m) == old(FirstApplication(m))
    ensures FirstApplication(m) != null ==>
      var app := FirstApplication(m);
      var before := old(AsArray(app.service));
      && app.service.List?
      && |before| <= |app.service.items|
      && app.service.items[..|before|] == before
      && Distinct(app.service.items)
      && Entries(app.service.items) == Patched(old(Entries(AsArray(app.service))))
  {
    if |m.application| == 0 || m.application[0] == null { return; }
    PatchApplication(m.application[0]);
  }

  /** The patch of one application's services. */
  method PatchApplication(application: Application)
    requires Distinct(AsArray(application.service))
    modifies application, NodeSet(AsArray(application.service))
    ensures application.service.List?
    ensures var before := old(AsArray(application.service));
      && |before| <= |application.service.items|
      && application.service.items[..|before|] == before
      && Distinct(application.service.items)
      && Entries(application.service.items) == Patched(old(Entries(AsArray(application.service))))
  {
    var nodes := AsArray(application.service);
    ghost var before := Entries(nodes);
    var services, at := FindOrAddNotifee(nodes);
    var attrs := WithServiceAttrs(AttrsOrEmpty(services[at].attrs));
    ghost var patched := Entries(services)[at := Element(Some(attrs))];
    assert patched == Patched(before);
    PatchAndStore(application, services, at, attrs);
  }

  /**
   * `service.$ = …` on the element at `at`, then `application.service =
   * services`: that entry alone gets the new attributes and the application
   * holds the list.
   */
  method PatchAndStore(application: Application, services: seq<ServiceNode?>, at: nat, attrs: map<string, string>)
    requires at < |services| && services[at] != null && Distinct(services)
    modifies application, services[at]
    ensures application.service == List(services)
    ensures Entries(services) == old(Entries(services))[at := Element(Some(attrs))]
  {
    SetServiceAttrs(services, at, attrs);
    StoreServices(application, services);
  }

  /** `service.$ || {}`: a missing attribute object reads as an empty one. */
  function AttrsOrEmpty(attrs: Option<map<string, string>>): map<string, string> {
    if attrs.Some? then attrs.value else map[]
  }

  /** `application.service = services`: no service element changes. */
  method StoreServices(application: Application, services: seq<ServiceNode?>)
    modifies application
    ensures application.service == List(services)
    ensures Entries(services) == old(Entries(services))
  {
    application.service := List(services);
  }

  /**
   * `services.find(...)`, and `services.push(...)` of a new Notifee element
   * when none is found: the index of the element the patch then updates.
   */
  method FindOrAddNotifee(nodes: seq<ServiceNode?>) returns (services: seq<ServiceNode?>, at: nat)
    requires Distinct(nodes)
    ensures Entries(nodes) == old(Entries(nodes))
    ensures at < |services| && services[at] != null && Distinct(services)
    ensures |nodes| <= |services| && services[..|nodes|] == nodes
    ensures FindNotifee(Entries(nodes)).Some? ==>
      services == nodes && at == FindNotifee(Entries(nodes)).value
    ensures FindNotifee(Entries(nodes)).None? ==>
      && at == |nodes| && fresh(services[at])
      && Entries(services) == Entries(nodes) + [NEW_SERVICE]
    ensures Entries(services)[at := Element(Some(WithServiceAttrs(AttrsOrEmpty(services[at].attrs))))]
      == Patched(Entries(nodes))
  {
    var index := FindNotifee(Entries(nodes));
    if index.Some? {
      services, at := nodes, index.value;
    } else {
      var service := new ServiceNode(Some(map[NAME_ATTR := NOTIFEE_FOREGROUND_SERVICE]));
      DistinctAppend(nodes, service);
      services, at := nodes + [service], |nodes|;
      assert services[..|nodes|] == nodes;
      assert Entries(services) == Entries(nodes) + [NEW_SERVICE];
    }
    PatchAtFound(Entries(nodes), Entries(services), at, AttrsOrEmpty(services[at].attrs));
  }

  /**
   * `service.$ = …` on one element of a list without shared elements: that
   * entry gets the new attributes and every other entry keeps its own.
   */
  method SetServiceAttrs(services: seq<ServiceNode?>, at: nat, attrs: map<string, string>)
    requires at < |services| && services[at] != null && Distinct(services)
    modifies services[at]
    ensures Entries(services) == old(Entries(services))[at := Element(Some(attrs))]
  {
    ghost var found := Entries(services);
    var service := services[at];
    label Unpatched:
    service.attrs := Some(attrs);
    ghost var after := Entries(services);
    forall j | 0 <= j < |services|
      ensures after[j] == found[at := Element(Some(attrs))][j]
    {
      if j != at {
        assert services[j] != service;
        assert services[j] == null || services[j].attrs == old@Unpatched(services[j].attrs);
      }
    }
  }
}
