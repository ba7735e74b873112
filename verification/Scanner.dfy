/** Which workloads run an outdated sidecar: listing, selection, the skip test, comparison, deduplication. */
module Scanner {
  import opened Prelude
  import opened Json
  import opened Cluster
  import opened Images
  import opened Owners

  datatype IstioConfig = IstioConfig(
    lastModifiedByRevision: map<string, Instant>,
    tagToRevision: map<string, string>,
    lastModifiedByTag: map<string, Instant>)

  datatype ScanOptions = ScanOptions(
    compareHub: bool, istiodConfigReadDelay: int,
    skipNamespaces: seq<string>, limitToNamespaces: seq<string>)

  /** The pod built from a workload's template. */
  datatype TemplatePod = TemplatePod(ns: string, labels: Option<Json>, annotations: Option<Json>, spec: Option<Json>)

  datatype WebhookReply = Failed | Mutated(containers: seq<Container>, initContainers: seq<Container>)

  /** Istio's injection webhook: (template, revision, prefer the default tag's webhook). */
  type Webhook = (TemplatePod, string, bool) -> WebhookReply

  // ---- listing

  /** The namespaces that are listed, the empty one standing for all of them. */
  function Listed(limit: seq<string>): set<string> {
    if |limit| == 0 then {""}
    else if |limit| == 1 then {limit[0]}
    else set ns | ns in limit && ns != ""
  }

  predicate InScope(limit: seq<string>, ns: string) {
    "" in Listed(limit) || ns in Listed(limit)
  }

  function PodsIn(pods: seq<Pod>, namespaces: set<string>): (r: seq<Pod>)
    ensures multiset(r) <= multiset(pods)
    ensures forall p :: multiset(r)[p] == if p.ns in namespaces then multiset(pods)[p] else 0
  {
    if pods == [] then []
    else
      assert pods == [pods[0]] + pods[1..];
      (if pods[0].ns in namespaces then [pods[0]] else []) + PodsIn(pods[1..], namespaces)
  }

  /** Every pod in scope, as often as it exists, and no other. */
  ghost predicate IsListing(c: Cluster, limit: seq<string>, listed: seq<Pod>) {
    forall p :: multiset(listed)[p] == if InScope(limit, p.ns) then multiset(c.pods)[p] else 0
  }

  method ListPods(c: Cluster, limit: seq<string>) returns (r: Result<seq<Pod>>)
    ensures r.Err? <==> exists ns :: ns in Listed(limit) && PodList(ns) in c.failing
    ensures r.Ok? ==> IsListing(c, limit, r.value)
  {
    if |limit| == 1 {
      if PodList(limit[0]) in c.failing {
        return Err;
      }
      r := Ok(if limit[0] == "" then c.pods else PodsIn(c.pods, {limit[0]}));
    } else if |limit| > 1 {
      var limitSet: set<string> := {};
      for i := 0 to |limit|
        invariant limitSet == set ns | ns in limit[..i] && ns != ""
      {
        TakeOneMore(limit, i);
        if limit[i] != "" {
          limitSet := limitSet + {limit[i]};
        }
      }
      assert limit[..|limit|] == limit;
      var items: seq<Pod> := [];
      var rest := limitSet;
      while rest != {}
        invariant rest <= limitSet
        invariant forall ns :: ns in limitSet - rest ==> PodList(ns) !in c.failing
        invariant forall p :: multiset(items)[p] == if p.ns in limitSet - rest then multiset(c.pods)[p] else 0
      {
        var ns :| ns in rest;
        if PodList(ns) in c.failing {
          return Err;
        }
        items := items + PodsIn(c.pods, {ns});
        rest := rest - {ns};
      }
      r := Ok(items);
    } else {
      if PodList("") in c.failing {
        return Err;
      }
      r := Ok(c.pods);
    }
  }

  // ---- selection of the revision

  function TemplateAt(doc: Json, path: seq<string>): Option<Json> {
    At(doc, ["spec", "template"] + path)
  }

  function TemplateLabel(doc: Json, key: string): string {
    match TemplateAt(doc, ["metadata", "labels", key])
    case Some(JString(v)) => v
    case _ => ""
  }

  /** The revision or tag of a namespace, empty when it asks for no injection. */
  function NamespaceRev(labels: map<string, string>): string {
    if Label(labels, LABEL_REV) != "" then labels[LABEL_REV]
    else if Label(labels, LABEL_INJECTION) == "enabled" then "default"
    else ""
  }

  /** The revision or tag of a workload; `None` is a failed read. */
  function IstioRev(c: Cluster, ref: ObjRef): Option<string> {
    if ref.kind !in WORKLOAD_KINDS then Some("default")
    else
      match Get(c, c.workloads, ref)
      case Found(doc) =>
        if TemplateLabel(doc, LABEL_REV) != "" then Some(TemplateLabel(doc, LABEL_REV))
        else (match GetNamespace(c, ref.ns)
              case Found(labels) => Some(NamespaceRev(labels))
              case _ => None)
      case _ => None
  }

  /** The namespace has a say in the revision of a readable workload exactly when its template has no label for it. */
  lemma NamespaceDecidesIffTemplateDoesNot(c: Cluster, ref: ObjRef)
    requires ref.kind in WORKLOAD_KINDS && Get(c, c.workloads, ref).Found?
    requires ObjRef("", ref.ns, "Namespace") !in c.unreadable
    ensures (forall labels: map<string, string>, labels': map<string, string> ::
               IstioRev(Relabelled(c, ref.ns, labels), ref) == IstioRev(Relabelled(c, ref.ns, labels'), ref))
       <==> TemplateLabel(c.workloads[ref], LABEL_REV) != ""
  {
    if TemplateLabel(c.workloads[ref], LABEL_REV) == "" {
      assert IstioRev(Relabelled(c, ref.ns, map[]), ref) == Some("");
      assert IstioRev(Relabelled(c, ref.ns, map[LABEL_INJECTION := "enabled"]), ref) == Some("default");
    }
  }

  function Relabelled(c: Cluster, ns: string, labels: map<string, string>): Cluster {
    c.(namespaces := c.namespaces[ns := labels])
  }

  /** The revision or tag of a workload when its namespace has these labels and this injection label. */
  function RevWithInjection(c: Cluster, ref: ObjRef, labels: map<string, string>, v: string): Option<string> {
    IstioRev(Relabelled(c, ref.ns, labels[LABEL_INJECTION := v]), ref)
  }

  lemma NamespaceRevWithInjection(labels: map<string, string>, v: string)
    ensures NamespaceRev(labels[LABEL_INJECTION := v])
         == if Label(labels, LABEL_REV) != "" then Label(labels, LABEL_REV)
            else if v == "enabled" then "default" else ""
  {
    assert LABEL_INJECTION[5] != LABEL_REV[5];
  }

  /**
   The injection label of a namespace has a say exactly when neither the template nor the namespace has a
   revision label.
   */
  lemma InjectionLabelDecidesIffNoRevision(c: Cluster, ref: ObjRef, labels: map<string, string>)
    requires ref.kind in WORKLOAD_KINDS && Get(c, c.workloads, ref).Found?
    requires ObjRef("", ref.ns, "Namespace") !in c.unreadable
    ensures (forall v: string, v': string ::
               RevWithInjection(c, ref, labels, v) == RevWithInjection(c, ref, labels, v'))
       <==> TemplateLabel(c.workloads[ref], LABEL_REV) != "" || Label(labels, LABEL_REV) != ""
  {
    forall v: string
      ensures TemplateLabel(c.workloads[ref], LABEL_REV) == "" ==>
                RevWithInjection(c, ref, labels, v) == Some(NamespaceRev(labels[LABEL_INJECTION := v]))
      ensures Label(labels, LABEL_REV) != "" ==> NamespaceRev(labels[LABEL_INJECTION := v]) == Label(labels, LABEL_REV)
    {
      NamespaceRevWithInjection(labels, v);
    }
    if TemplateLabel(c.workloads[ref], LABEL_REV) == "" && Label(labels, LABEL_REV) == "" {
      NamespaceRevWithInjection(labels, "");
      NamespaceRevWithInjection(labels, "enabled");
      assert RevWithInjection(c, ref, labels, "") != RevWithInjection(c, ref, labels, "enabled");
    }
  }

  // ---- the skip test

  function OrZero(m: map<string, Instant>, key: string): Instant {
    if key in m then m[key] else 0
  }

  function EffectiveLastModified(revision: string, revOrTag: string, cfg: IstioConfig): Instant {
    var byRevision := OrZero(cfg.lastModifiedByRevision, revision);
    var byTag := OrZero(cfg.lastModifiedByTag, revOrTag);
    if byTag != 0 && byTag > byRevision then byTag else byRevision
  }

  predicate ShouldSkip(created: Instant, revision: string, revOrTag: string, cfg: IstioConfig, delay: int) {
    var effective := EffectiveLastModified(revision, revOrTag, cfg);
    effective != 0 && !(created < effective + delay)
  }

  /** The revision, or the tag, last changed then. */
  ghost predicate IsChangeTime(cfg: IstioConfig, revision: string, revOrTag: string, t: Instant) {
    && t != 0
    && ((revision in cfg.lastModifiedByRevision && cfg.lastModifiedByRevision[revision] == t)
        || (revOrTag in cfg.lastModifiedByTag && cfg.lastModifiedByTag[revOrTag] == t))
  }

  /** There is a time to go by, and the pod was created the delay after every one. */
  ghost predicate AfterAllChanges(created: Instant, revision: string, revOrTag: string, cfg: IstioConfig, delay: int) {
    && (exists t: Instant :: IsChangeTime(cfg, revision, revOrTag, t))
    && (forall t: Instant :: IsChangeTime(cfg, revision, revOrTag, t) ==> created >= t + delay)
  }

  /**
   The test skips exactly the pods that were created the delay after the changes of revision and tag, one of
   which has a time.
   */
  lemma SkipsIffAfterAllChanges(created: Instant, revision: string, revOrTag: string, cfg: IstioConfig, delay: int)
    ensures ShouldSkip(created, revision, revOrTag, cfg, delay)
       <==> AfterAllChanges(created, revision, revOrTag, cfg, delay)
  {
    var effective := EffectiveLastModified(revision, revOrTag, cfg);
    assert effective != 0 ==> IsChangeTime(cfg, revision, revOrTag, effective);
    assert forall t: Instant :: IsChangeTime(cfg, revision, revOrTag, t) ==> t <= effective;
  }

  // ---- one pod

  const ISTIO_PROXY := "istio-proxy"

  /** The image of the first container with the sidecar's name. */
  function ProxyIn(containers: seq<Container>): (r: Option<string>)
    ensures r.None? <==> forall i :: 0 <= i < |containers| ==> containers[i].name != ISTIO_PROXY
    ensures r.Some? ==> exists i :: 0 <= i < |containers| && containers[i] == Container(ISTIO_PROXY, r.value)
                                    && forall k :: 0 <= k < i ==> containers[k].name != ISTIO_PROXY
  {
    if containers == [] then None
    else if containers[0].name == ISTIO_PROXY then Some(containers[0].image)
    else
      var r := ProxyIn(containers[1..]);
      assert r.Some? ==>
          var i :| 0 <= i < |containers[1..]| && containers[1..][i] == Container(ISTIO_PROXY, r.value)
                   && forall k :: 0 <= k < i ==> containers[1..][k].name != ISTIO_PROXY;
          && containers[i + 1] == Container(ISTIO_PROXY, r.value)
          && forall k :: 0 < k < i + 1 ==> containers[k] == containers[1..][k - 1];
      r
  }

  function ProxyImage(containers: seq<Container>, initContainers: seq<Container>): string {
    match ProxyIn(containers)
    case Some(image) => image
    case None => (match ProxyIn(initContainers) case Some(image) => image case None => "")
  }

  /** Sidecars among the init containers count only when no regular container has the sidecar's name. */
  lemma RegularSidecarFirst(containers: seq<Container>, initContainers: seq<Container>)
    ensures ProxyIn(containers).Some? ==> ProxyImage(containers, initContainers) == ProxyIn(containers).value
    ensures (exists i :: 0 <= i < |containers| && containers[i].name == ISTIO_PROXY) ==>
              Container(ISTIO_PROXY, ProxyImage(containers, initContainers)) in containers
    ensures (forall i :: 0 <= i < |containers| ==> containers[i].name != ISTIO_PROXY)
            && (exists i :: 0 <= i < |initContainers| && initContainers[i].name == ISTIO_PROXY) ==>
              Container(ISTIO_PROXY, ProxyImage(containers, initContainers)) in initContainers
    ensures (forall k :: k in containers + initContainers ==> k.name != ISTIO_PROXY) ==>
              ProxyImage(containers, initContainers) == ""
  {
    assert forall i :: 0 <= i < |containers| ==> containers[i] in containers + initContainers;
    assert forall i :: 0 <= i < |initContainers| ==> initContainers[i] in containers + initContainers;
  }

  function BuildPod(c: Cluster, ref: ObjRef): Option<TemplatePod> {
    match Get(c, c.workloads, ref)
    case Found(doc) =>
      Some(TemplatePod(ref.ns, TemplateAt(doc, ["metadata", "labels"]),
                       TemplateAt(doc, ["metadata", "annotations"]), TemplateAt(doc, ["spec"])))
    case _ => None
  }

  /** The cluster after something was written at a path of a workload's document. */
  function Edited(c: Cluster, ref: ObjRef, path: seq<string>, v: Json): Cluster
    requires ref in c.workloads
  {
    c.(workloads := c.workloads[ref := SetAt(c.workloads[ref], path, v)])
  }

  /**
   The built pod has the labels, annotations and spec of the workload's pod template, and nothing else of its
   document.
   */
  lemma BuiltPodIsTemplate(c: Cluster, ref: ObjRef, path: seq<string>, v: Json)
    requires ref in c.workloads && ref !in c.unreadable
    ensures BuildPod(c, ref).Some? && BuildPod(c, ref).value.ns == ref.ns
    ensures BuildPod(Edited(c, ref, ["spec", "template", "metadata", "labels"], v), ref)
         == Some(BuildPod(c, ref).value.(labels := Some(v)))
    ensures BuildPod(Edited(c, ref, ["spec", "template", "metadata", "annotations"], v), ref)
         == Some(BuildPod(c, ref).value.(annotations := Some(v)))
    ensures BuildPod(Edited(c, ref, ["spec", "template", "spec"], v), ref)
         == Some(BuildPod(c, ref).value.(spec := Some(v)))
    ensures Diverge(["spec", "template"], path) ==> BuildPod(Edited(c, ref, path, v), ref) == BuildPod(c, ref)
  {
    EditShows(c, ref, ["metadata", "labels"], v, 0);
    EditShows(c, ref, ["metadata", "annotations"], v, 1);
    EditShows(c, ref, ["spec"], v, 2);
    if Diverge(["spec", "template"], path) {
      EditBesideTemplate(c.workloads[ref], path, v);
    }
  }

  /** Where the fields of a built pod come from, below the template. */
  const FIELD_PATHS := [["metadata", "labels"], ["metadata", "annotations"], ["spec"]]

  lemma EditShows(c: Cluster, ref: ObjRef, path: seq<string>, v: Json, field: nat)
    requires ref in c.workloads && field < 3 && path == FIELD_PATHS[field]
    ensures var doc' := SetAt(c.workloads[ref], ["spec", "template"] + path, v);
            forall k: nat :: k < 3 ==>
              TemplateAt(doc', FIELD_PATHS[k])
              == if k == field then Some(v) else TemplateAt(c.workloads[ref], FIELD_PATHS[k])
  {
    var doc := c.workloads[ref];
    SetAtHits(doc, ["spec", "template"] + path, v);
    forall k: nat | k < 3 && k != field
      ensures At(SetAt(doc, ["spec", "template"] + path, v), ["spec", "template"] + FIELD_PATHS[k])
           == At(doc, ["spec", "template"] + FIELD_PATHS[k])
    {
      FieldsDiverge(field, k);
      SetAtFrame(doc, ["spec", "template"] + path, v, ["spec", "template"] + FIELD_PATHS[k]);
    }
  }

  lemma FieldsDiverge(k: nat, l: nat)
    requires k < 3 && l < 3 && k != l
    ensures Diverge(["spec", "template"] + FIELD_PATHS[k], ["spec", "template"] + FIELD_PATHS[l])
  {
    assert "metadata"[0] != "spec"[0] && "labels"[0] != "annotations"[0];
    DivergeFrom(["spec", "template"] + FIELD_PATHS[k], ["spec", "template"] + FIELD_PATHS[l],
                if k == 2 || l == 2 then 2 else 3);
  }

  lemma EditBesideTemplate(doc: Json, path: seq<string>, v: Json)
    requires Diverge(["spec", "template"], path)
    ensures forall k: nat :: k < 3 ==>
              TemplateAt(SetAt(doc, path, v), FIELD_PATHS[k]) == TemplateAt(doc, FIELD_PATHS[k])
  {
    forall k: nat | k < 3
      ensures At(SetAt(doc, path, v), ["spec", "template"] + FIELD_PATHS[k])
           == At(doc, ["spec", "template"] + FIELD_PATHS[k])
    {
      DivergeLonger(["spec", "template"], FIELD_PATHS[k], path);
      SetAtFrame(doc, path, v, ["spec", "template"] + FIELD_PATHS[k]);
    }
  }

  function RevisionOf(cfg: IstioConfig, revOrTag: string): string {
    if revOrTag in cfg.tagToRevision then cfg.tagToRevision[revOrTag] else revOrTag
  }

  /** The sidecar image that the webhook would inject, empty when there is none or the call fails. */
  function ExpectedImage(c: Cluster, webhook: Webhook, ref: ObjRef, revision: string, revOrTag: string): string {
    match BuildPod(c, ref)
    case None => ""
    case Some(template) =>
      match webhook(template, revision, revOrTag == "default")
      case Failed => ""
      case Mutated(containers, initContainers) => ProxyImage(containers, initContainers)
  }

  predicate Outdated(expected: string, current: string, compareHub: bool) {
    expected != "" && !ImagesMatch(current, expected, compareHub)
  }

  /**
   The workload to report for a pod, if any. A traversal that does not end is read as `no owner`;
   the scan itself demands that the traversals of its pods end.
   */
  function ProcessPod(c: Cluster, webhook: Webhook, cfg: IstioConfig, opts: ScanOptions, pod: Pod): Option<ObjRef> {
    match OwnerOf(c, pod)
    case Done(Owner(ref)) =>
      (match IstioRev(c, ref)
       case None => None
       case Some(revOrTag) =>
         if revOrTag == "" then None
         else
           var revision := RevisionOf(cfg, revOrTag);
           if ShouldSkip(pod.created, revision, revOrTag, cfg, opts.istiodConfigReadDelay) then None
           else
             var expected := ExpectedImage(c, webhook, ref, revision, revOrTag);
             if Outdated(expected, ProxyImage(pod.containers, pod.initContainers), opts.compareHub) then Some(ref)
             else None)
    case _ => None
  }

  // ---- the scan

  predicate Skipped(opts: ScanOptions, ns: string) {
    ns != "" && ns in opts.skipNamespaces
  }

  /** What a pod contributes to the scan. */
  function Report(c: Cluster, webhook: Webhook, cfg: IstioConfig, opts: ScanOptions, pod: Pod): Option<ObjRef> {
    if Skipped(opts, pod.ns) then None else ProcessPod(c, webhook, cfg, opts, pod)
  }

  /** The workloads reported pod by pod, with repetitions. */
  function Hits(c: Cluster, webhook: Webhook, cfg: IstioConfig, opts: ScanOptions, pods: seq<Pod>): seq<ObjRef> {
    if pods == [] then []
    else
      var r := Report(c, webhook, cfg, opts, pods[|pods| - 1]);
      Hits(c, webhook, cfg, opts, pods[..|pods| - 1]) + (if r.Some? then [r.value] else [])
  }

  function Names(refs: seq<ObjRef>): set<(string, string)> {
    set ref | ref in refs :: NameOf(ref)
  }

  function AddFirst(refs: seq<ObjRef>, ref: ObjRef): seq<ObjRef> {
    if NameOf(ref) in Names(refs) then refs else refs + [ref]
  }

  /** The first reference of every namespace and name. */
  function FirstPerName(refs: seq<ObjRef>): seq<ObjRef> {
    if refs == [] then [] else AddFirst(FirstPerName(refs[..|refs| - 1]), refs[|refs| - 1])
  }

  function ScanResult(c: Cluster, webhook: Webhook, cfg: IstioConfig, opts: ScanOptions, pods: seq<Pod>): seq<ObjRef> {
    FirstPerName(Hits(c, webhook, cfg, opts, pods))
  }

  lemma ScanStep(c: Cluster, webhook: Webhook, cfg: IstioConfig, opts: ScanOptions, pods: seq<Pod>, i: nat)
    requires i < |pods|
    ensures ScanResult(c, webhook, cfg, opts, pods[..i + 1])
         == match Report(c, webhook, cfg, opts, pods[i])
            case Some(ref) => AddFirst(ScanResult(c, webhook, cfg, opts, pods[..i]), ref)
            case None => ScanResult(c, webhook, cfg, opts, pods[..i])
  {
    assert pods[..i + 1][..i] == pods[..i];
    var hits := Hits(c, webhook, cfg, opts, pods[..i]);
    match Report(c, webhook, cfg, opts, pods[i])
    case None =>
      assert hits + [] == hits;
    case Some(ref) =>
      assert (hits + [ref])[..|hits|] == hits;
  }

  lemma NamesOfLonger(refs: seq<ObjRef>, ref: ObjRef)
    ensures Names(refs + [ref]) == Names(refs) + {NameOf(ref)}
  {
    assert forall r :: r in refs + [ref] <==> r in refs || r == ref;
  }

  /** What the source demands of the owner graph: no pod that is processed leads into a cycle before its first hit. */
  ghost predicate TraversalsEnd(c: Cluster, opts: ScanOptions) {
    forall pod :: pod in c.pods && InScope(opts.limitToNamespaces, pod.ns) && !Skipped(opts, pod.ns) ==>
      !RunsIntoCycle(c, pod.ns, pod.owners)
  }

  lemma ListedTraversalEnds(c: Cluster, opts: ScanOptions, listed: seq<Pod>, i: nat)
    requires TraversalsEnd(c, opts) && IsListing(c, opts.limitToNamespaces, listed)
    requires i < |listed| && !Skipped(opts, listed[i].ns)
    ensures OwnerOf(c, listed[i]).Done?
  {
    var pod := listed[i];
    assert multiset(listed)[pod] > 0;
    assert pod in multiset(c.pods);
    EndsIffNoCycleIsMet(c, pod.ns, pod.owners);
  }

  /** What the loop does with a hit. */
  lemma AddedUnlessSeen(refs: seq<ObjRef>, ref: ObjRef)
    ensures AddFirst(refs, ref) == if NameOf(ref) in Names(refs) then refs else refs + [ref]
    ensures Names(AddFirst(refs, ref)) == Names(refs) + {NameOf(ref)}
  {
    NamesOfLonger(refs, ref);
  }

  method ScanOutdatedPods(c: Cluster, webhookCaller: Option<Webhook>, cfg: IstioConfig, opts: ScanOptions)
    returns (r: Result<seq<ObjRef>>, ghost listed: seq<Pod>)
    requires webhookCaller.Some? ==> TraversalsEnd(c, opts)
    ensures webhookCaller.None? ==> r == Ok([])
    ensures webhookCaller.Some? ==>
              (r.Err? <==> exists ns :: ns in Listed(opts.limitToNamespaces) && PodList(ns) in c.failing)
    ensures webhookCaller.Some? && r.Ok? ==>
              && IsListing(c, opts.limitToNamespaces, listed)
              && r.value == ScanResult(c, webhookCaller.value, cfg, opts, listed)
  {
    listed := [];
    if webhookCaller.None? {
      return Ok([]), listed;
    }
    var podList := ListPods(c, opts.limitToNamespaces);
    if podList.Err? {
      return Err, listed;
    }
    listed := podList.value;
    var seen: set<(string, string)> := {};
    var workloads: seq<ObjRef> := [];
    var skipSet := set ns | ns in opts.skipNamespaces && ns != "";
    for i := 0 to |podList.value|
      invariant workloads == ScanResult(c, webhookCaller.value, cfg, opts, podList.value[..i])
      invariant seen == Names(workloads)
    {
      var pod := podList.value[i];
      ScanStep(c, webhookCaller.value, cfg, opts, podList.value, i);
      if pod.ns in skipSet {
        continue;
      }
      ListedTraversalEnds(c, opts, podList.value, i);
      var ref := ProcessPod(c, webhookCaller.value, cfg, opts, pod);
      if ref.None? {
        continue;
      }
      AddedUnlessSeen(workloads, ref.value);
      if NameOf(ref.value) in seen {
        continue;
      }
      seen := seen + {NameOf(ref.value)};
      workloads := workloads + [ref.value];
    }
    assert podList.value[..|podList.value|] == podList.value;
    r := Ok(workloads);
  }

  // ---- what the scan returns

  ghost predicate Reportable(c: Cluster, webhook: Webhook, cfg: IstioConfig, opts: ScanOptions, pods: seq<Pod>,
                             ref: ObjRef) {
    exists pod :: pod in pods && Report(c, webhook, cfg, opts, pod) == Some(ref)
  }

  lemma {:induction false} HitsAreReports(c: Cluster, webhook: Webhook, cfg: IstioConfig, opts: ScanOptions,
                                          pods: seq<Pod>)
    ensures forall ref :: ref in Hits(c, webhook, cfg, opts, pods) <==> Reportable(c, webhook, cfg, opts, pods, ref)
  {
    if pods != [] {
      var front, last := pods[..|pods| - 1], pods[|pods| - 1];
      HitsAreReports(c, webhook, cfg, opts, front);
      assert forall pod :: pod in pods <==> pod in front || pod == last;
    }
  }

  /** `indices[i]` is where the `i`-th result first appears. */
  ghost predicate FirstAppearances(refs: seq<ObjRef>, r: seq<ObjRef>, indices: seq<nat>) {
    && |indices| == |r|
    && (forall i :: 0 <= i < |r| ==> indices[i] < |refs| && refs[indices[i]] == r[i])
    && (forall i, k :: 0 <= i < |r| && 0 <= k < indices[i] ==> NameOf(refs[k]) != NameOf(r[i]))
    && (forall i, j :: 0 <= i < j < |r| ==> indices[i] < indices[j])
  }

  lemma {:induction false} FirstPerNameAppears(refs: seq<ObjRef>) returns (indices: seq<nat>)
    ensures FirstAppearances(refs, FirstPerName(refs), indices)
    ensures Names(FirstPerName(refs)) == Names(refs)
  {
    indices := [];
    if refs != [] {
      var front, last := refs[..|refs| - 1], refs[|refs| - 1];
      var r := FirstPerName(front);
      indices := FirstPerNameAppears(front);
      assert refs == front + [last];
      NamesOfLonger(front, last);
      if NameOf(last) !in Names(r) {
        NamesOfLonger(r, last);
        AppearanceOfNew(front, r, indices, last);
        indices := indices + [|front|];
      } else {
        AppearancesInLonger(front, r, indices, last);
      }
    }
  }

  lemma AppearancesInLonger(refs: seq<ObjRef>, r: seq<ObjRef>, indices: seq<nat>, last: ObjRef)
    requires FirstAppearances(refs, r, indices)
    ensures FirstAppearances(refs + [last], r, indices)
  {
  }

  lemma AppearanceOfNew(refs: seq<ObjRef>, r: seq<ObjRef>, indices: seq<nat>, last: ObjRef)
    requires FirstAppearances(refs, r, indices) && NameOf(last) !in Names(refs)
    ensures FirstAppearances(refs + [last], r + [last], indices + [|refs|])
  {
    forall k | 0 <= k < |refs| ensures NameOf(refs[k]) != NameOf(last) {
      assert refs[k] in refs;
    }
  }

  /**
   Specification of the result: no namespace and name twice, each entry reported by a listed pod
   outside the skipped namespaces, every reported namespace and name present, in the order in
   which they first appear.
   */
  lemma ScanSpecification(c: Cluster, webhook: Webhook, cfg: IstioConfig, opts: ScanOptions, pods: seq<Pod>)
    ensures var hits := Hits(c, webhook, cfg, opts, pods);
            var r := FirstPerName(hits);
            && (forall i, j :: 0 <= i < j < |r| ==> NameOf(r[i]) != NameOf(r[j]))
            && (forall ref :: ref in r ==> Reportable(c, webhook, cfg, opts, pods, ref))
            && (forall ref :: Reportable(c, webhook, cfg, opts, pods, ref) ==> NameOf(ref) in Names(r))
            && exists indices :: FirstAppearances(hits, r, indices)
  {
    var hits := Hits(c, webhook, cfg, opts, pods);
    HitsAreReports(c, webhook, cfg, opts, pods);
    var indices := FirstPerNameAppears(hits);
    var r := FirstPerName(hits);
    forall i, j | 0 <= i < j < |r| ensures NameOf(r[i]) != NameOf(r[j]) {
      assert indices[i] < indices[j];
    }
    forall ref | ref in r ensures ref in hits {
      var i :| 0 <= i < |r| && r[i] == ref;
      assert hits[indices[i]] == ref;
    }
    forall ref | ref in hits ensures NameOf(ref) in Names(r) {
      assert NameOf(ref) in Names(hits);
    }
  }

  /** Two reportable workloads never differ only in their kind. */
  ghost predicate KindsDoNotClash(c: Cluster, webhook: Webhook, cfg: IstioConfig, opts: ScanOptions, pods: seq<Pod>) {
    forall a, b | Reportable(c, webhook, cfg, opts, pods, a) && Reportable(c, webhook, cfg, opts, pods, b) ::
      NameOf(a) == NameOf(b) ==> a == b
  }

  /**
   The result contains every reportable workload, and not only its name, exactly when no two of them differ
   only in kind.
   */
  lemma CompleteIffKindsDoNotClash(c: Cluster, webhook: Webhook, cfg: IstioConfig, opts: ScanOptions, pods: seq<Pod>)
    ensures (forall ref :: Reportable(c, webhook, cfg, opts, pods, ref) ==>
               ref in ScanResult(c, webhook, cfg, opts, pods))
       <==> KindsDoNotClash(c, webhook, cfg, opts, pods)
  {
    var r := ScanResult(c, webhook, cfg, opts, pods);
    ScanSpecification(c, webhook, cfg, opts, pods);
    if KindsDoNotClash(c, webhook, cfg, opts, pods) {
      forall ref | Reportable(c, webhook, cfg, opts, pods, ref) ensures ref in r {
        var other :| other in r && NameOf(other) == NameOf(ref);
      }
    }
  }

  /** Whatever order the pods are listed in, the same namespaces and names are reported. */
  lemma NamesIgnoreOrder(c: Cluster, webhook: Webhook, cfg: IstioConfig, opts: ScanOptions, pods: seq<Pod>,
                         pods': seq<Pod>)
    requires multiset(pods) == multiset(pods')
    ensures Names(ScanResult(c, webhook, cfg, opts, pods)) == Names(ScanResult(c, webhook, cfg, opts, pods'))
  {
    assert forall pod :: pod in pods <==> pod in multiset(pods);
    assert forall pod :: pod in pods' <==> pod in multiset(pods');
    NamesFollowReports(c, webhook, cfg, opts, pods, cfg, opts, pods');
    NamesFollowReports(c, webhook, cfg, opts, pods', cfg, opts, pods);
  }

  lemma NamesFollowReports(c: Cluster, webhook: Webhook, cfg: IstioConfig, opts: ScanOptions, pods: seq<Pod>,
                           cfg': IstioConfig, opts': ScanOptions, pods': seq<Pod>)
    requires forall pod :: pod in pods && Report(c, webhook, cfg, opts, pod).Some? ==>
               pod in pods' && Report(c, webhook, cfg', opts', pod) == Report(c, webhook, cfg, opts, pod)
    ensures Names(ScanResult(c, webhook, cfg, opts, pods)) <= Names(ScanResult(c, webhook, cfg', opts', pods'))
  {
    var hits, hits' := Hits(c, webhook, cfg, opts, pods), Hits(c, webhook, cfg', opts', pods');
    HitsAreReports(c, webhook, cfg, opts, pods);
    HitsAreReports(c, webhook, cfg', opts', pods');
    var _ := FirstPerNameAppears(hits);
    var _ := FirstPerNameAppears(hits');
    forall ref | ref in hits ensures ref in hits' {
      var pod :| pod in pods && Report(c, webhook, cfg, opts, pod) == Some(ref);
    }
  }

  /** Comparing the hub as well only adds namespaces and names to the result. */
  lemma CompareHubOnlyAdds(c: Cluster, webhook: Webhook, cfg: IstioConfig, opts: ScanOptions, pods: seq<Pod>)
    ensures Names(ScanResult(c, webhook, cfg, opts.(compareHub := false), pods))
         <= Names(ScanResult(c, webhook, cfg, opts.(compareHub := true), pods))
  {
    NamesFollowReports(c, webhook, cfg, opts.(compareHub := false), pods, cfg, opts.(compareHub := true), pods);
  }

  lemma ReportIsOwner(c: Cluster, webhook: Webhook, cfg: IstioConfig, opts: ScanOptions, pod: Pod, ref: ObjRef)
    requires Report(c, webhook, cfg, opts, pod) == Some(ref)
    ensures !Skipped(opts, pod.ns) && OwnerOf(c, pod) == Done(Owner(ref))
  {
  }

  lemma OwnerIsWorkload(c: Cluster, pod: Pod, ref: ObjRef)
    requires OwnerOf(c, pod) == Done(Owner(ref))
    ensures ref.ns == pod.ns && ref in c.workloads && ref.kind in WORKLOAD_KINDS
  {
    OwnerStaysInNamespace(c, pod.ns, pod.owners, |c.intermediates| + 1);
  }

  /** Reported workloads are in the namespace of a listed pod, and exist. */
  lemma ScanStaysInNamespaces(c: Cluster, webhook: Webhook, cfg: IstioConfig, opts: ScanOptions, pods: seq<Pod>,
                              ref: ObjRef)
    requires ref in ScanResult(c, webhook, cfg, opts, pods)
    ensures exists pod :: pod in pods && pod.ns == ref.ns
    ensures !Skipped(opts, ref.ns)
    ensures ref in c.workloads && ref.kind in WORKLOAD_KINDS
  {
    ScanSpecification(c, webhook, cfg, opts, pods);
    assert Reportable(c, webhook, cfg, opts, pods, ref);
    var pod :| pod in pods && Report(c, webhook, cfg, opts, pod) == Some(ref);
    ReportIsOwner(c, webhook, cfg, opts, pod, ref);
    OwnerIsWorkload(c, pod, ref);
  }

  // ---- what is reported, told from the objects of the cluster

  /** The pod template has the revision label, and it says this. */
  ghost predicate TemplateAsksFor(doc: Json, text: string) {
    text != "" && At(doc, ["spec", "template", "metadata", "labels", "istio.io/rev"]) == Some(JString(text))
  }

  /** The label is there, and says this. */
  ghost predicate Says(labels: map<string, string>, key: string, text: string) {
    text != "" && key in labels && labels[key] == text
  }

  ghost predicate NamespaceAsksFor(labels: map<string, string>, selection: string) {
    || Says(labels, "istio.io/rev", selection)
    || ((forall text :: !Says(labels, "istio.io/rev", text))
        && Says(labels, "istio-injection", "enabled") && selection == "default")
  }

  /** The workload asks for a revision or tag: in its template, or else through the labels of its namespace. */
  ghost predicate AsksFor(c: Cluster, ref: ObjRef, selection: string) {
    && ref in c.workloads && ref !in c.unreadable
    && (TemplateAsksFor(c.workloads[ref], selection)
        || ((forall text :: !TemplateAsksFor(c.workloads[ref], text))
            && ObjRef("", ref.ns, "Namespace") !in c.unreadable && ref.ns in c.namespaces
            && NamespaceAsksFor(c.namespaces[ref.ns], selection)))
  }

  /** The first container named `istio-proxy` has the image. */
  ghost predicate FirstProxy(containers: seq<Container>, image: string) {
    exists i :: && 0 <= i < |containers| && containers[i] == Container("istio-proxy", image)
                && forall k :: 0 <= k < i ==> containers[k].name != "istio-proxy"
  }

  /**
   That container is a regular one, or an init container where no regular one has the name; or there is none,
   and no image.
   */
  ghost predicate HasSidecar(containers: seq<Container>, initContainers: seq<Container>, image: string) {
    || FirstProxy(containers, image)
    || ((forall k :: k in containers ==> k.name != "istio-proxy")
        && (FirstProxy(initContainers, image)
            || (image == "" && forall k :: k in initContainers ==> k.name != "istio-proxy")))
  }

  /** The revision that a revision or tag stands for. */
  ghost predicate StandsFor(cfg: IstioConfig, selection: string, revision: string) {
    if selection in cfg.tagToRevision then revision == cfg.tagToRevision[selection] else revision == selection
  }

  /** The pod that the template of a document describes. */
  function PodOf(ns: string, doc: Json): TemplatePod {
    TemplatePod(ns, At(doc, ["spec", "template", "metadata", "labels"]),
                At(doc, ["spec", "template", "metadata", "annotations"]), At(doc, ["spec", "template", "spec"]))
  }

  /** The reply has a sidecar, and the pod has another. */
  ghost predicate OtherSidecar(containers: seq<Container>, initContainers: seq<Container>, pod: Pod, compareHub: bool) {
    exists expected, current ::
      && HasSidecar(containers, initContainers, expected) && expected != ""
      && HasSidecar(pod.containers, pod.initContainers, current)
      && !ImagesMatch(current, expected, compareHub)
  }

  /**
   The pod that is built from the template, with this revision or tag, would get this sidecar, and the pod has
   another.
   */
  ghost predicate GetsOther(c: Cluster, webhook: Webhook, cfg: IstioConfig, opts: ScanOptions, pod: Pod, ref: ObjRef,
                            selection: string, revision: string)
    requires ref in c.workloads
  {
    match webhook(PodOf(ref.ns, c.workloads[ref]), revision, selection == "default")
    case Mutated(containers, initContainers) => OtherSidecar(containers, initContainers, pod, opts.compareHub)
    case Failed => false
  }

  /** The workload asks for this revision or tag, the pod is not too young, and it would get another sidecar now. */
  ghost predicate IsReason(c: Cluster, webhook: Webhook, cfg: IstioConfig, opts: ScanOptions, pod: Pod, ref: ObjRef,
                           selection: string, revision: string) {
    && AsksFor(c, ref, selection) && StandsFor(cfg, selection, revision)
    && !AfterAllChanges(pod.created, revision, selection, cfg, opts.istiodConfigReadDelay)
    && GetsOther(c, webhook, cfg, opts, pod, ref, selection, revision)
  }

  /** Why a pod leads to its workload being reported. */
  ghost predicate IsReported(c: Cluster, webhook: Webhook, cfg: IstioConfig, opts: ScanOptions, pod: Pod, ref: ObjRef) {
    && (pod.ns == "" || pod.ns !in opts.skipNamespaces)
    && OwnerOf(c, pod) == Done(Owner(ref))
    && exists selection, revision :: IsReason(c, webhook, cfg, opts, pod, ref, selection, revision)
  }

  lemma NamespaceRevIsAskedFor(labels: map<string, string>, selection: string)
    requires selection != ""
    ensures NamespaceRev(labels) == selection <==> NamespaceAsksFor(labels, selection)
  {
    assert Label(labels, LABEL_REV) != "" ==> Says(labels, "istio.io/rev", Label(labels, LABEL_REV));
  }

  lemma TemplateLabelIsText(doc: Json, text: string)
    requires text != ""
    ensures TemplateLabel(doc, LABEL_REV) == text <==> TemplateAsksFor(doc, text)
  {
    assert ["spec", "template"] + ["metadata", "labels", LABEL_REV]
        == ["spec", "template", "metadata", "labels", "istio.io/rev"];
  }

  lemma RevIsAskedFor(c: Cluster, ref: ObjRef, selection: string)
    requires ref.kind in WORKLOAD_KINDS && selection != ""
    ensures IstioRev(c, ref) == Some(selection) <==> AsksFor(c, ref, selection)
  {
    if ref in c.workloads {
      var doc := c.workloads[ref];
      forall text | text != ""
        ensures TemplateLabel(doc, LABEL_REV) == text <==> TemplateAsksFor(doc, text)
      {
        TemplateLabelIsText(doc, text);
      }
      var own := TemplateLabel(doc, LABEL_REV);
      assert own != "" ==> TemplateAsksFor(doc, own);
      if ref.ns in c.namespaces {
        NamespaceRevIsAskedFor(c.namespaces[ref.ns], selection);
      }
    }
  }

  lemma FirstProxyIsFound(containers: seq<Container>, image: string)
    ensures ProxyIn(containers) == Some(image) <==> FirstProxy(containers, image)
  {
  }

  lemma SidecarIsFound(containers: seq<Container>, initContainers: seq<Container>, image: string)
    ensures ProxyImage(containers, initContainers) == image <==> HasSidecar(containers, initContainers, image)
  {
    FirstProxyIsFound(containers, image);
    FirstProxyIsFound(initContainers, image);
    NoProxyIsFound(containers);
    NoProxyIsFound(initContainers);
  }

  lemma NoProxyIsFound(containers: seq<Container>)
    ensures ProxyIn(containers).None? <==> forall k :: k in containers ==> k.name != "istio-proxy"
  {
    assert forall i :: 0 <= i < |containers| ==> containers[i] in containers;
  }

  lemma OutdatedGetsOther(c: Cluster, webhook: Webhook, cfg: IstioConfig, opts: ScanOptions, pod: Pod, ref: ObjRef,
                          selection: string, revision: string)
    requires ref in c.workloads && ref !in c.unreadable
    ensures Outdated(ExpectedImage(c, webhook, ref, revision, selection),
                     ProxyImage(pod.containers, pod.initContainers), opts.compareHub)
       <==> GetsOther(c, webhook, cfg, opts, pod, ref, selection, revision)
  {
    var doc := c.workloads[ref];
    assert ["spec", "template"] + ["metadata", "labels"] == ["spec", "template", "metadata", "labels"];
    assert ["spec", "template"] + ["metadata", "annotations"] == ["spec", "template", "metadata", "annotations"];
    assert ["spec", "template"] + ["spec"] == ["spec", "template", "spec"];
    assert BuildPod(c, ref) == Some(PodOf(ref.ns, doc));
    var reply := webhook(PodOf(ref.ns, doc), revision, selection == "default");
    if reply.Mutated? {
      RepliesOther(reply.containers, reply.initContainers, pod, opts.compareHub);
    }
  }

  lemma RepliesOther(containers: seq<Container>, initContainers: seq<Container>, pod: Pod, compareHub: bool)
    ensures Outdated(ProxyImage(containers, initContainers), ProxyImage(pod.containers, pod.initContainers), compareHub)
       <==> OtherSidecar(containers, initContainers, pod, compareHub)
  {
    forall image
      ensures ProxyImage(containers, initContainers) == image <==> HasSidecar(containers, initContainers, image)
    {
      SidecarIsFound(containers, initContainers, image);
    }
    forall image
      ensures ProxyImage(pod.containers, pod.initContainers) == image
         <==> HasSidecar(pod.containers, pod.initContainers, image)
    {
      SidecarIsFound(pod.containers, pod.initContainers, image);
    }
    assert HasSidecar(containers, initContainers, ProxyImage(containers, initContainers));
    assert HasSidecar(pod.containers, pod.initContainers, ProxyImage(pod.containers, pod.initContainers));
  }

  /** What is done with a pod whose workload selects something. */
  lemma ProcessedForReason(c: Cluster, webhook: Webhook, cfg: IstioConfig, opts: ScanOptions, pod: Pod, ref: ObjRef,
                           selection: string)
    requires OwnerOf(c, pod) == Done(Owner(ref)) && IstioRev(c, ref) == Some(selection) && selection != ""
    ensures ProcessPod(c, webhook, cfg, opts, pod) == Some(ref)
       <==> IsReason(c, webhook, cfg, opts, pod, ref, selection, RevisionOf(cfg, selection))
  {
    var revision := RevisionOf(cfg, selection);
    OwnerIsWorkload(c, pod, ref);
    RevIsAskedFor(c, ref, selection);
    SkipsIffAfterAllChanges(pod.created, revision, selection, cfg, opts.istiodConfigReadDelay);
    OutdatedGetsOther(c, webhook, cfg, opts, pod, ref, selection, revision);
  }

  lemma ReasonIsSelected(c: Cluster, webhook: Webhook, cfg: IstioConfig, opts: ScanOptions, pod: Pod, ref: ObjRef,
                         selection: string, revision: string)
    requires OwnerOf(c, pod) == Done(Owner(ref)) && IsReason(c, webhook, cfg, opts, pod, ref, selection, revision)
    ensures IstioRev(c, ref) == Some(selection) && selection != "" && revision == RevisionOf(cfg, selection)
  {
    OwnerIsWorkload(c, pod, ref);
    RevIsAskedFor(c, ref, selection);
  }

  /** A pod leads to exactly the reports that the objects of the cluster give a reason for. */
  lemma ReportedIffReason(c: Cluster, webhook: Webhook, cfg: IstioConfig, opts: ScanOptions, pod: Pod, ref: ObjRef)
    ensures Report(c, webhook, cfg, opts, pod) == Some(ref) <==> IsReported(c, webhook, cfg, opts, pod, ref)
  {
    if IsReported(c, webhook, cfg, opts, pod, ref) {
      var selection, revision :| IsReason(c, webhook, cfg, opts, pod, ref, selection, revision);
      ReasonIsSelected(c, webhook, cfg, opts, pod, ref, selection, revision);
      ProcessedForReason(c, webhook, cfg, opts, pod, ref, selection);
    }
    if Report(c, webhook, cfg, opts, pod) == Some(ref) {
      ReportIsOwner(c, webhook, cfg, opts, pod, ref);
      ProcessedForReason(c, webhook, cfg, opts, pod, ref, IstioRev(c, ref).value);
    }
  }

  /** The scan returns exactly the namespaces and names that some listed pod gives a reason to report. */
  lemma ScanReportsReasons(c: Cluster, webhook: Webhook, cfg: IstioConfig, opts: ScanOptions, pods: seq<Pod>)
    ensures forall name ::
              name in Names(ScanResult(c, webhook, cfg, opts, pods)) <==>
              exists pod, ref :: pod in pods && IsReported(c, webhook, cfg, opts, pod, ref) && NameOf(ref) == name
  {
    ScanSpecification(c, webhook, cfg, opts, pods);
    forall ref
      ensures Reportable(c, webhook, cfg, opts, pods, ref)
         <==> exists pod :: pod in pods && IsReported(c, webhook, cfg, opts, pod, ref)
    {
      forall pod
        ensures Report(c, webhook, cfg, opts, pod) == Some(ref) <==> IsReported(c, webhook, cfg, opts, pod, ref)
      {
        ReportedIffReason(c, webhook, cfg, opts, pod, ref);
      }
    }
  }
}
