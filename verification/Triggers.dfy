/** Which watch events lead to a reconcile request, and why the others do not matter to a scan. */
module Triggers {
  import opened Prelude
  import opened Cluster
  import opened LastModified
  import opened Scanner
  import CM = ConfigMaps
  import TW = TagWebhooks

  datatype Request = Request(ns: string, name: string)

  /** ConfigMap and MutatingWebhookConfiguration events share one request, so that the queue coalesces them. */
  const ISTIO_CHANGE := Request(ISTIO_SYSTEM, "__istio_change__")
  const PERIODIC := Request(ISTIO_SYSTEM, "__periodic_reconcile__")

  function NamespaceRequest(ns: string): Request {
    Request("", ns)
  }

  /** What a request makes the reconciler do. */
  datatype Scope = AllNamespaces | OneNamespace(ns: string) | Unhandled

  function Route(req: Request): Scope {
    if req.name == PERIODIC.name then AllNamespaces
    else if req.name == ISTIO_CHANGE.name then AllNamespaces
    else if req.ns == "" && req.name != "" then OneNamespace(req.name)
    else Unhandled
  }

  /** The namespaces that a handled request is limited to, none for all. */
  function Limit(scope: Scope): seq<string> {
    if scope.OneNamespace? then [scope.ns] else []
  }

  /** The requests of the ticker and of the watches are handled: in all namespaces, or in the one that changed. */
  lemma RequestsAreHandled(ns: string)
    ensures Route(Request("istio-system", "__periodic_reconcile__")).AllNamespaces?
    ensures PERIODIC.name == "__periodic_reconcile__"
    ensures Route(Request("istio-system", "__istio_change__")).AllNamespaces? && ISTIO_CHANGE.name == "__istio_change__"
    ensures Route(NamespaceRequest(ns)) == OneNamespace(ns)
       <==> ns != "" && ns != "__periodic_reconcile__" && ns != "__istio_change__"
    ensures Route(NamespaceRequest(ns)).Unhandled? <==> ns == ""
  {
    assert "__periodic_reconcile__"[2] != "__istio_change__"[2];
  }

  predicate HasIstioLabels(labels: map<string, string>) {
    LABEL_REV in labels || Label(labels, LABEL_INJECTION) != ""
  }

  /** An object comes, changes or goes; indices are positions in the API order of its list. */
  datatype Event =
    | ConfigMapCreated(i: nat, cm: ConfigMap)
    | ConfigMapUpdated(i: nat, cm: ConfigMap)
    | ConfigMapDeleted(i: nat)
    | WebhookCreated(i: nat, w: WebhookConfig)
    | WebhookUpdated(i: nat, w: WebhookConfig)
    | WebhookDeleted(i: nat)
    | NamespaceCreated(ns: string, labels: map<string, string>)
    | NamespaceUpdated(ns: string, labels: map<string, string>)
    | NamespaceDeleted(ns: string)

  /** Updates keep the name, and the namespace, of their object. */
  predicate Possible(c: Cluster, e: Event) {
    match e
    case ConfigMapCreated(i, _) => i <= |c.configMaps|
    case ConfigMapUpdated(i, cm) => i < |c.configMaps| && c.configMaps[i].ns == cm.ns && c.configMaps[i].name == cm.name
    case ConfigMapDeleted(i) => i < |c.configMaps|
    case WebhookCreated(i, _) => i <= |c.webhookConfigs|
    case WebhookUpdated(i, w) => i < |c.webhookConfigs| && c.webhookConfigs[i].name == w.name
    case WebhookDeleted(i) => i < |c.webhookConfigs|
    case NamespaceCreated(ns, _) => ns != "" && ns !in c.namespaces
    case NamespaceUpdated(ns, _) => ns != "" && ns in c.namespaces
    case NamespaceDeleted(ns) => ns != "" && ns in c.namespaces
  }

  function Replace<T>(s: seq<T>, i: nat, removed: nat, inserted: seq<T>): seq<T>
    requires i + removed <= |s|
  {
    s[..i] + inserted + s[i + removed..]
  }

  function Apply(c: Cluster, e: Event): Cluster
    requires Possible(c, e)
  {
    match e
    case ConfigMapCreated(i, cm) => c.(configMaps := Replace(c.configMaps, i, 0, [cm]))
    case ConfigMapUpdated(i, cm) => c.(configMaps := Replace(c.configMaps, i, 1, [cm]))
    case ConfigMapDeleted(i) => c.(configMaps := Replace(c.configMaps, i, 1, []))
    case WebhookCreated(i, w) => c.(webhookConfigs := Replace(c.webhookConfigs, i, 0, [w]))
    case WebhookUpdated(i, w) => c.(webhookConfigs := Replace(c.webhookConfigs, i, 1, [w]))
    case WebhookDeleted(i) => c.(webhookConfigs := Replace(c.webhookConfigs, i, 1, []))
    case NamespaceCreated(ns, labels) => c.(namespaces := c.namespaces[ns := labels])
    case NamespaceUpdated(ns, labels) => c.(namespaces := c.namespaces[ns := labels])
    case NamespaceDeleted(ns) => c.(namespaces := c.namespaces - {ns})
  }

  /**
   The watch predicates: filters see the new object, or the deleted one; of namespaces only updates pass, for
   either set of labels.
   */
  predicate Accepted(c: Cluster, e: Event)
    requires Possible(c, e)
  {
    match e
    case ConfigMapCreated(_, cm) => CM.Watched(cm)
    case ConfigMapUpdated(_, cm) => CM.Watched(cm)
    case ConfigMapDeleted(i) => CM.Watched(c.configMaps[i])
    case WebhookCreated(_, w) => TW.Watched(w)
    case WebhookUpdated(_, w) => TW.Watched(w)
    case WebhookDeleted(i) => TW.Watched(c.webhookConfigs[i])
    case NamespaceCreated(_, _) => false
    case NamespaceUpdated(ns, labels) => HasIstioLabels(c.namespaces[ns]) || HasIstioLabels(labels)
    case NamespaceDeleted(_) => false
  }

  /**
   What the watches are about, by name: injector ConfigMaps, tag configurations, and labels that ask for
   injection.
   */
  predicate ConcernsIstio(c: Cluster, e: Event)
    requires Possible(c, e)
  {
    match e
    case ConfigMapCreated(_, cm) => cm.ns == "istio-system" && "istio-sidecar-injector" <= cm.name
    case ConfigMapUpdated(_, cm) => cm.ns == "istio-system" && "istio-sidecar-injector" <= cm.name
    case ConfigMapDeleted(i) => c.configMaps[i].ns == "istio-system" && "istio-sidecar-injector" <= c.configMaps[i].name
    case WebhookCreated(_, w) => "istio-revision-tag-" <= w.name
    case WebhookUpdated(_, w) => "istio-revision-tag-" <= w.name
    case WebhookDeleted(i) => "istio-revision-tag-" <= c.webhookConfigs[i].name
    case NamespaceUpdated(ns, labels) =>
      exists l :: l in [c.namespaces[ns], labels]
                  && ("istio.io/rev" in l || ("istio-injection" in l && l["istio-injection"] != ""))
    case _ => false
  }

  lemma AcceptedIffConcernsIstio(c: Cluster, e: Event)
    requires Possible(c, e)
    ensures Accepted(c, e) <==> ConcernsIstio(c, e)
  {
    if e.NamespaceUpdated? {
      assert c.namespaces[e.ns] in [c.namespaces[e.ns], e.labels] && e.labels in [c.namespaces[e.ns], e.labels];
    }
  }

  /** The request an accepted event enqueues. */
  function RequestFor(e: Event): Request {
    match e
    case NamespaceUpdated(ns, _) => NamespaceRequest(ns)
    case _ => ISTIO_CHANGE
  }

  /** Both clusters give a scan the same maps, and every workload the same revision or tag. */
  ghost predicate SameForScan(c: Cluster, d: Cluster) {
    && CM.Changes(c.configMaps) == CM.Changes(d.configMaps)
    && TW.TagTable(c.webhookConfigs) == TW.TagTable(d.webhookConfigs)
    && forall ref :: IstioRev(c, ref) == IstioRev(d, ref)
  }

  lemma RejectedConfigMap(cms: seq<ConfigMap>, i: nat, removed: nat, inserted: seq<ConfigMap>)
    requires i + removed <= |cms|
    requires forall cm :: cm in cms[i..i + removed] || cm in inserted ==> !CM.Watched(cm)
    ensures CM.Changes(Replace(cms, i, removed, inserted)) == CM.Changes(cms)
  {
    assert cms == cms[..i] + cms[i..i + removed] + cms[i + removed..];
    CM.ChangesOfWatched(Replace(cms, i, removed, inserted), cms);
  }

  lemma {:induction false} TableOfUnwatched(ws: seq<WebhookConfig>)
    requires forall w :: w in ws ==> !TW.Watched(w)
    ensures TW.TagTable(ws) == map[]
  {
    if ws != [] {
      TableOfUnwatched(ws[..|ws| - 1]);
      assert ws[|ws| - 1] in ws;
    }
  }

  lemma RejectedWebhook(ws: seq<WebhookConfig>, i: nat, removed: nat, inserted: seq<WebhookConfig>)
    requires i + removed <= |ws|
    requires forall w :: w in ws[i..i + removed] || w in inserted ==> !TW.Watched(w)
    ensures TW.TagTable(Replace(ws, i, removed, inserted)) == TW.TagTable(ws)
  {
    TableAround(ws[..i], ws[i..i + removed], ws[i + removed..]);
    TableAround(ws[..i], inserted, ws[i + removed..]);
    ThreeParts(ws, i, removed);
  }

  lemma ThreeParts<T>(s: seq<T>, i: nat, removed: nat)
    requires i + removed <= |s|
    ensures s == s[..i] + s[i..i + removed] + s[i + removed..]
  {
  }

  lemma TableAround(a: seq<WebhookConfig>, unwatched: seq<WebhookConfig>, b: seq<WebhookConfig>)
    requires forall w :: w in unwatched ==> !TW.Watched(w)
    ensures TW.TagTable(a + unwatched + b) == TW.TagTable(a) + TW.TagTable(b)
  {
    TableOfUnwatched(unwatched);
    TW.TagTableOfConcat(a + unwatched, b);
    TW.TagTableOfConcat(a, unwatched);
    assert TW.TagTable(a) + map[] == TW.TagTable(a);
  }

  lemma RejectedNamespace(c: Cluster, ns: string, labels: map<string, string>, ref: ObjRef)
    requires ns in c.namespaces && !HasIstioLabels(c.namespaces[ns]) && !HasIstioLabels(labels)
    ensures IstioRev(c.(namespaces := c.namespaces[ns := labels]), ref) == IstioRev(c, ref)
  {
    assert NamespaceRev(c.namespaces[ns]) == "" == NamespaceRev(labels);
  }

  lemma SameListsAndLabels(c: Cluster, d: Cluster)
    requires c.workloads == d.workloads && c.namespaces == d.namespaces && c.unreadable == d.unreadable
    requires CM.Changes(c.configMaps) == CM.Changes(d.configMaps)
    requires TW.TagTable(c.webhookConfigs) == TW.TagTable(d.webhookConfigs)
    ensures SameForScan(c, d)
  {
    forall ref ensures IstioRev(c, ref) == IstioRev(d, ref) {
      assert Get(c, c.workloads, ref) == Get(d, d.workloads, ref);
      assert GetNamespace(c, ref.ns) == GetNamespace(d, ref.ns);
    }
  }

  /**
   Some readable workload of the namespace has no revision label of its own, and so depends on the namespace's
   labels.
   */
  predicate HasDependents(c: Cluster, ns: string) {
    && ObjRef("", ns, "Namespace") !in c.unreadable
    && exists ref :: ref in c.workloads && DependsOn(c, ns, ref)
  }

  predicate DependsOn(c: Cluster, ns: string, ref: ObjRef)
    requires ref in c.workloads
  {
    && ref.ns == ns && ref.kind in WORKLOAD_KINDS && ref !in c.unreadable
    && TemplateLabel(c.workloads[ref], LABEL_REV) == ""
  }

  /** The event creates or deletes a namespace under workloads that depend on it. */
  predicate PullsNamespace(c: Cluster, e: Event) {
    (e.NamespaceCreated? || e.NamespaceDeleted?) && HasDependents(c, e.ns)
  }

  /** A namespace that comes or goes is felt exactly by the workloads that depend on it. */
  lemma NamespaceComesOrGoes(c: Cluster, d: Cluster, ns: string)
    requires d == c.(namespaces := d.namespaces)
    requires ns in c.namespaces <==> ns !in d.namespaces
    requires forall other :: other != ns ==>
               (other in c.namespaces <==> other in d.namespaces)
               && (other in c.namespaces ==> c.namespaces[other] == d.namespaces[other])
    ensures SameForScan(c, d) <==> !HasDependents(c, ns)
  {
    if HasDependents(c, ns) {
      var ref :| ref in c.workloads && DependsOn(c, ns, ref);
      assert IstioRev(c, ref) != IstioRev(d, ref);
    } else {
      forall ref ensures IstioRev(c, ref) == IstioRev(d, ref) {
        assert ref in c.workloads ==> !DependsOn(c, ns, ref) || ObjRef("", ns, "Namespace") in c.unreadable;
        assert Get(c, c.workloads, ref) == Get(d, d.workloads, ref);
        assert ref.ns != ns ==> GetNamespace(c, ref.ns) == GetNamespace(d, ref.ns);
      }
    }
  }

  lemma RejectedConfigEvent(c: Cluster, e: Event)
    requires Possible(c, e) && !Accepted(c, e)
    requires !e.NamespaceCreated? && !e.NamespaceUpdated? && !e.NamespaceDeleted?
    ensures SameForScan(c, Apply(c, e))
  {
    match e {
      case ConfigMapCreated(i, cm) => RejectedConfigMap(c.configMaps, i, 0, [cm]);
      case ConfigMapUpdated(i, cm) => RejectedConfigMap(c.configMaps, i, 1, [cm]);
      case ConfigMapDeleted(i) => RejectedConfigMap(c.configMaps, i, 1, []);
      case WebhookCreated(i, w) => RejectedWebhook(c.webhookConfigs, i, 0, [w]);
      case WebhookUpdated(i, w) => RejectedWebhook(c.webhookConfigs, i, 1, [w]);
      case WebhookDeleted(i) => RejectedWebhook(c.webhookConfigs, i, 1, []);
    }
    SameListsAndLabels(c, Apply(c, e));
  }

  /**
   A rejected event leaves what a scan derives from config, tags and labels as it was, unless it
   creates or deletes a namespace that workloads depend on; those events the source rejects as well.
   */
  lemma RejectedEventIsIrrelevant(c: Cluster, e: Event)
    requires Possible(c, e) && !Accepted(c, e)
    ensures SameForScan(c, Apply(c, e)) <==> !PullsNamespace(c, e)
  {
    match e
    case NamespaceCreated(ns, labels) => NamespaceComesOrGoes(c, Apply(c, e), ns);
    case NamespaceDeleted(ns) => NamespaceComesOrGoes(c, Apply(c, e), ns);
    case NamespaceUpdated(ns, labels) =>
      forall ref ensures IstioRev(Apply(c, e), ref) == IstioRev(c, ref) {
        RejectedNamespace(c, ns, labels, ref);
      }
    case _ => RejectedConfigEvent(c, e);
  }

  /** The pass that an accepted event asks for covers every workload whose revision or tag the event changes. */
  lemma RequestedPassCoversChange(c: Cluster, e: Event)
    requires Possible(c, e) && Accepted(c, e)
    ensures var scope := Route(RequestFor(e));
            && !scope.Unhandled?
            && (!e.NamespaceUpdated? ==> scope.AllNamespaces?)
            && (e.NamespaceUpdated? ==>
                  scope == OneNamespace(e.ns) || e.ns in {"__periodic_reconcile__", "__istio_change__"})
            && forall ref :: IstioRev(Apply(c, e), ref) != IstioRev(c, ref) ==> InScope(Limit(scope), ref.ns)
  {
    var d := Apply(c, e);
    forall ref | IstioRev(d, ref) != IstioRev(c, ref) ensures InScope(Limit(Route(RequestFor(e))), ref.ns) {
      assert Get(c, c.workloads, ref) == Get(d, d.workloads, ref);
      assert e.NamespaceUpdated? && ref.ns != e.ns ==> GetNamespace(c, ref.ns) == GetNamespace(d, ref.ns);
    }
  }

  /**
   The cluster after a run of rejected events that pull no namespace from under its workloads; `None` for
   other runs.
   */
  function AfterRejected(c: Cluster, events: seq<Event>): Option<Cluster>
    decreases |events|
  {
    if events == [] then Some(c)
    else if !Possible(c, events[0]) || Accepted(c, events[0]) || PullsNamespace(c, events[0]) then None
    else AfterRejected(Apply(c, events[0]), events[1..])
  }

  /** Such a run leaves everything that a scan derives from config, tags and labels as it was. */
  lemma {:induction false} RejectedRunIsIrrelevant(c: Cluster, events: seq<Event>)
    requires AfterRejected(c, events).Some?
    ensures SameForScan(c, AfterRejected(c, events).value)
    decreases |events|
  {
    if events != [] {
      RejectedEventIsIrrelevant(c, events[0]);
      RejectedRunIsIrrelevant(Apply(c, events[0]), events[1..]);
    }
  }

  /** So every map that a pass builds from the lists is the same after such a run. */
  lemma RejectedRunKeepsConfig(c: Cluster, events: seq<Event>, m: map<string, Instant>, m': map<string, Instant>)
    requires AfterRejected(c, events).Some?
    requires NewestByKey(CM.Changes(c.configMaps), m)
    requires NewestByKey(CM.Changes(AfterRejected(c, events).value.configMaps), m')
    ensures m == m'
  {
    RejectedRunIsIrrelevant(c, events);
    NewestIsUnique(CM.Changes(c.configMaps), m, m');
  }
}
