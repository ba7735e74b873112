/**
 How far the assumptions of the skip refinement are needed: exact conditions on the latency, on the
 selection and on what is recorded, and for each a one-pod world in which the skip test hides an
 outdated pod. Each keeps all assumptions but the one it is about.
 */
module SkipWitnesses {
  import opened Prelude
  import opened Json
  import opened Cluster
  import opened LastModified
  import opened Owners
  import opened Scanner
  import opened SkipRefinement
  import CM = ConfigMaps
  import TW = TagWebhooks

  const WEB := ObjRef("app", "web", "Deployment")
  const OLD_IMAGE := "istio/proxyv2:1.20"
  const NEW_IMAGE := "istio/proxyv2:1.21"

  /** A Deployment whose template asks for a revision or tag, or for none. */
  function WebDocument(revOrTag: string): Json {
    SetAt(JNull, ["spec", "template", "metadata", "labels", LABEL_REV], JString(revOrTag))
  }

  function WebPod(created: Instant): Pod {
    Pod("app", "web-1", created, [OwnerRef("Deployment", "web", Some(true))], [Container(ISTIO_PROXY, OLD_IMAGE)], [])
  }

  function WebCluster(document: Json, nsLabels: map<string, string>, cms: seq<ConfigMap>, ws: seq<WebhookConfig>,
                      pod: Pod): Cluster {
    Cluster([pod], map[], map[WEB := document], map["app" := nsLabels], cms, ws, {}, {})
  }

  function Reply(image: string): WebhookReply {
    Mutated([Container(ISTIO_PROXY, image)], [])
  }

  /** The options of the witnesses: all namespaces, full comparison. */
  function Options(delay: int): ScanOptions {
    ScanOptions(true, delay, [], [])
  }

  lemma WebOwner(c: Cluster, pod: Pod)
    requires c.intermediates == map[] && c.unreadable == {} && WEB in c.workloads
    requires pod.ns == "app" && pod.owners == [OwnerRef("Deployment", "web", Some(true))]
    ensures OwnerOf(c, pod) == Done(Owner(WEB))
  {
    assert ResolveOwner(c, "app", pod.owners[0], 1) == Done(Owner(WEB));
    assert FirstOwner(c, "app", pod.owners, 0, 1) == Done(Owner(WEB));
    assert |c.intermediates| + 1 == 1;
  }

  lemma WebRevision(revOrTag: string, nsLabels: map<string, string>, cms: seq<ConfigMap>, ws: seq<WebhookConfig>,
                    pod: Pod)
    ensures var c := WebCluster(WebDocument(revOrTag), nsLabels, cms, ws, pod);
            IstioRev(c, WEB) == Some(if revOrTag != "" then revOrTag else NamespaceRev(nsLabels))
  {
    var path := ["spec", "template", "metadata", "labels", LABEL_REV];
    assert ["spec", "template"] + ["metadata", "labels", LABEL_REV] == path;
    SetAtHits(JNull, path, JString(revOrTag));
  }

  ghost predicate ExpectsNew(webhook: Webhook, revision: string, preferDefault: bool) {
    forall template :: webhook(template, revision, preferDefault) == Reply(NEW_IMAGE)
  }

  /** The scan of a one-pod world in which the webhook expects the new image. */
  lemma WebScan(c: Cluster, webhook: Webhook, cfg: IstioConfig, delay: int, pod: Pod, revOrTag: string)
    requires c.intermediates == map[] && c.unreadable == {} && WEB in c.workloads && pod == WebPod(pod.created)
    requires IstioRev(c, WEB) == Some(revOrTag) && revOrTag != ""
    requires ExpectsNew(webhook, RevisionOf(cfg, revOrTag), revOrTag == "default")
    ensures ScanResult(c, webhook, cfg, Options(delay), [pod])
         == if ShouldSkip(pod.created, RevisionOf(cfg, revOrTag), revOrTag, cfg, delay) then [] else [WEB]
  {
    WebOwner(c, pod);
    var template := BuildPod(c, WEB).value;
    assert webhook(template, RevisionOf(cfg, revOrTag), revOrTag == "default") == Reply(NEW_IMAGE);
    assert ProxyImage([Container(ISTIO_PROXY, NEW_IMAGE)], []) == NEW_IMAGE;
    assert ProxyImage(pod.containers, pod.initContainers) == OLD_IMAGE;
    assert NEW_IMAGE[|NEW_IMAGE| - 1] != OLD_IMAGE[|OLD_IMAGE| - 1];
    var r := Report(c, webhook, cfg, Options(delay), pod);
    assert r == if ShouldSkip(pod.created, RevisionOf(cfg, revOrTag), revOrTag, cfg, delay) then None else Some(WEB);
    var none: seq<Pod> := [pod][..0];
    assert Hits(c, webhook, cfg, Options(delay), none) == [];
    assert Hits(c, webhook, cfg, Options(delay), [pod]) == if r.Some? then [r.value] else [];
    assert [WEB][..0] == [];
    assert FirstPerName([WEB]) == AddFirst(FirstPerName([]), WEB) == [WEB];
  }

  /** The skip test hides the only pod, whose workload the full scan reports. */
  ghost predicate Hides(w: World) {
    && ScanResult(w.c, w.webhook, w.cfg, w.opts, w.pods) == []
    && ScanResult(w.c, w.webhook, WithoutTimes(w.cfg), w.opts, w.pods) == [WEB]
  }

  function RevisionMap(rev: string, changed: Instant, values: Values): ConfigMap {
    ConfigMap(ISTIO_SYSTEM, SIDECAR_INJECTOR, map[LABEL_REV := rev], changed, [], values)
  }

  const NO_VALUES := Decoded(JObject(map[]))

  lemma RevisionChanges(rev: string, changed: Instant)
    requires rev != ""
    ensures CM.Changes([RevisionMap(rev, changed, NO_VALUES)]) == {Change(rev, changed)}
    ensures CM.Changes([RevisionMap(rev, changed, Malformed)]) == {}
  {
    var cm := RevisionMap(rev, changed, NO_VALUES);
    assert CM.Revision(cm) == rev;
    assert CM.Watched(cm);
    assert cm in [cm];
    assert CM.ChangeOf(cm) == Change(rev, changed);
  }

  /** No tags: the config of revision `rev` changed once, from the old image to the new one. */
  function RevisionHistory(rev: string, change: Instant, latency: nat, created: Instant): History {
    var changes := (r: string) => if r == rev then [change] else [];
    History(changes, g => [], (g, k) => g,
            (r: string, t: Instant) => CountUpTo(changes(r), t - latency), (g, t) => 0,
            (template, r, preferDefault, version) => Reply(if r == rev && version > 0 then NEW_IMAGE else OLD_IMAGE),
            pod => created)
  }

  lemma CountOne(change: Instant, t: int)
    ensures CountUpTo([change], t) == if change <= t then 1 else 0
  {
    assert CountUpTo([change][1..], t) == 0;
  }

  /** A webhook that answers from the config that is served. */
  function Answering(h: History, now: Instant): Webhook {
    (template, r, preferDefault) => h.inject(template, r, preferDefault, h.servedConfig(r, now))
  }

  lemma RevisionExpectsNew(rev: string, change: Instant, latency: nat, created: Instant, now: Instant)
    requires now >= change + latency
    ensures ExpectsNew(Answering(RevisionHistory(rev, change, latency, created), now), rev, rev == "default")
  {
    CountOne(change, now - latency);
  }

  lemma RevisionServed(rev: string, change: Instant, latency: nat, created: Instant)
    ensures ServedWithin(RevisionHistory(rev, change, latency, created), latency)
  {
  }

  lemma RevisionRecorded(rev: string, change: Instant, recorded: Instant, latency: nat, created: Instant, c: Cluster)
    requires CM.Changes(c.configMaps) == {Change(rev, recorded)} && Trunc(change) <= recorded
    ensures ConfigRecorded(RevisionHistory(rev, change, latency, created), c)
  {
    var h := RevisionHistory(rev, change, latency, created);
    forall r: string, x: Instant | x in h.configChanges(r) ensures ChangeRecorded(c, r, x) {
      assert Change(rev, recorded) in CM.Changes(c.configMaps);
    }
  }

  /**
   A world without tags, with one ConfigMap for `rev`, last written at `recorded`, and whose namespace selects
   `rev`.
   */
  lemma RevisionWorld(rev: string, change: Instant, recorded: Instant, latency: nat, created: Instant, delay: int)
    returns (w: World)
    requires rev != "" && Trunc(created) == created
    ensures w.h == RevisionHistory(rev, change, latency, created) && w.latency == latency
    ensures w.c
         == WebCluster(WebDocument(""), map[LABEL_REV := rev], [RevisionMap(rev, recorded, NO_VALUES)],
                       [], WebPod(created))
    ensures w.cfg == IstioConfig(map[rev := recorded], map[], map[])
    ensures w.opts == Options(delay) && w.pods == [WebPod(created)]
    ensures Recorded(w) && (Trunc(change) <= recorded ==> ConfigRecorded(w.h, w.c))
    ensures ExpectsNew(w.webhook, rev, rev == "default")
    ensures IstioRev(w.c, WEB) == Some(rev)
  {
    var pod, h := WebPod(created), RevisionHistory(rev, change, latency, created);
    var c := WebCluster(WebDocument(""), map[LABEL_REV := rev], [RevisionMap(rev, recorded, NO_VALUES)], [], pod);
    var cfg := IstioConfig(map[rev := recorded], map[], map[]);
    var now := change + latency + created;
    w := World(h, c, Answering(h, now), cfg, Options(delay), [pod], latency, now);
    RevisionExpectsNew(rev, change, latency, created, now);
    RevisionServed(rev, change, latency, created);
    RevisionChanges(rev, recorded);
    if Trunc(change) <= recorded {
      RevisionRecorded(rev, change, recorded, latency, created, c);
    }
    RevisionTagless(rev, change, latency, created, c);
    LabelledNamespace(rev, c.configMaps, pod);
  }

  lemma RevisionTagless(rev: string, change: Instant, latency: nat, created: Instant, c: Cluster)
    requires c.webhookConfigs == []
    ensures TagsRecorded(RevisionHistory(rev, change, latency, created), c) && TW.TagTable(c.webhookConfigs) == map[]
  {
  }

  lemma LabelledNamespace(rev: string, cms: seq<ConfigMap>, pod: Pod)
    requires rev != ""
    ensures IstioRev(WebCluster(WebDocument(""), map[LABEL_REV := rev], cms, [], pod), WEB) == Some(rev)
  {
    WebRevision("", map[LABEL_REV := rev], cms, [], pod);
    assert Label(map[LABEL_REV := rev], LABEL_REV) == rev;
  }

  /** In that world a pod that passes the skip test is hidden. */
  lemma RevisionHides(w: World, rev: string, recorded: Instant, pod: Pod)
    requires w.c.intermediates == map[] && w.c.unreadable == {} && WEB in w.c.workloads && pod == WebPod(pod.created)
    requires w.pods == [pod] && w.opts == Options(w.opts.istiodConfigReadDelay) && rev != ""
    requires IstioRev(w.c, WEB) == Some(rev) && ExpectsNew(w.webhook, rev, rev == "default")
    requires w.cfg == IstioConfig(map[rev := recorded], map[], map[])
    requires recorded != 0 && pod.created >= recorded + w.opts.istiodConfigReadDelay
    ensures Hides(w) && !SkipAgrees(w)
  {
    WebScan(w.c, w.webhook, w.cfg, w.opts.istiodConfigReadDelay, pod, rev);
    WebScan(w.c, w.webhook, WithoutTimes(w.cfg), w.opts.istiodConfigReadDelay, pod, rev);
  }

  /** A pod created before `rev` served its change, or for another revision, has the old image from its injection. */
  lemma InjectedOld(rev: string, change: Instant, latency: nat, created: Instant, c: Cluster, pod: Pod, was: string)
    requires pod == WebPod(created) && (was == rev ==> created - latency < change)
    ensures KeepsInjectionOf(RevisionHistory(rev, change, latency, created), c, pod, was)
  {
    CountOne(change, created - latency);
    var h := RevisionHistory(rev, change, latency, created);
    assert was == rev ==> h.servedConfig(was, created) == 0;
    assert forall template :: InjectionAt(h, created, template, was) == Reply(OLD_IMAGE);
  }

  /** A time of whole seconds, one at least, that is not before `bound`. */
  lemma WholeSeconds(bound: int) returns (t: Instant)
    ensures Trunc(t) == t && t >= SECOND && t >= bound
  {
    var k := 1 + if bound < 0 then 0 else bound;
    t := k * SECOND;
  }

  /** In a world of one pod, that asks for `selected` and was injected for `was`, nothing else is tested. */
  lemma OneMoved(w: World, pod: Pod, was: string, selected: string)
    requires w.pods == [pod] && w.c.intermediates == map[] && w.c.unreadable == {} && WEB in w.c.workloads
    requires pod == WebPod(pod.created) && IstioRev(w.c, WEB) == Some(selected) && KeepsInjectionOf(w.h, w.c, pod, was)
    ensures forall p, selection :: Tested(w, p, selection) ==> p == pod && selection == selected
    ensures Moved(w, was, selected) && (was == selected ==> Kept(w))
  {
    WebOwner(w.c, pod);
  }

  predicate HasTimes(w: World, delay: int, latency: nat) {
    w.opts.istiodConfigReadDelay == delay && w.latency == latency
  }

  // ---- the latency

  /** In every world that is recorded and whose pods keep their injection, the skip test agrees with the full scan. */
  ghost predicate AgreesAtLatency(delay: int, latency: nat) {
    forall w: World ::
      Recorded(w) && ConfigRecorded(w.h, w.c) && Kept(w) && HasTimes(w, delay, latency) ==>
        SkipAgrees(w)
  }

  /** For every delay, a latency beyond the safe bound makes the skip test hide an outdated pod. */
  lemma LatencyBeyondBoundHides(delay: int, latency: nat) returns (w: World)
    requires latency > SafeLatency(delay)
    ensures Recorded(w) && ConfigRecorded(w.h, w.c) && Kept(w)
    ensures HasTimes(w, delay, latency)
    ensures Hides(w) && !SkipAgrees(w)
  {
    var change, created := ClosestSkipped(delay);
    w := RevisionWorld("canary", change, Trunc(change), latency, created, delay);
    var pod := WebPod(created);
    InjectedOld("canary", change, latency, created, w.c, pod, "canary");
    OneMoved(w, pod, "canary", "canary");
    RevisionHides(w, "canary", Trunc(change), pod);
  }

  /**
   The skip test agrees with the full scan in all such worlds exactly when changes are served within the safe
   bound.
   */
  lemma AgreesIffLatencyIsSafe(delay: int, latency: nat)
    ensures AgreesAtLatency(delay, latency) <==> latency <= SafeLatency(delay)
  {
    if latency > SafeLatency(delay) {
      var w := LatencyBeyondBoundHides(delay, latency);
    } else {
      forall w: World
        | Recorded(w) && ConfigRecorded(w.h, w.c) && Kept(w) && HasTimes(w, delay, latency)
        ensures SkipAgrees(w)
      {
        RecordedIsFaithful(w);
        SkipRefinesFullScan(w);
      }
    }
  }

  // ---- moving a workload to another revision or tag

  /**
   In every faithful world whose pods were moved from `was` to `selected`, the skip test agrees with the full
   scan.
   */
  ghost predicate AgreesWhenMoved(was: string, selected: string, delay: int) {
    forall w: World :: Faithful(w) && Moved(w, was, selected) && w.opts.istiodConfigReadDelay == delay ==> SkipAgrees(w)
  }

  /**
   Moving a namespace changes no time: its pod was injected for the old selection after the new
   revision was last written, and the skip test hides it.
   */
  lemma MoveHides(was: string, selected: string, delay: int) returns (w: World)
    requires was != selected && selected != ""
    ensures Faithful(w) && Moved(w, was, selected) && w.opts.istiodConfigReadDelay == delay
    ensures w.c.namespaces == map["app" := map[LABEL_REV := selected]]
    ensures Hides(w) && !SkipAgrees(w)
  {
    var recorded := WholeSeconds(-delay);
    var created := WholeSeconds(recorded + delay);
    w := RevisionWorld(selected, 0, recorded, 0, created, delay);
    var pod := WebPod(created);
    InjectedOld(selected, 0, 0, created, w.c, pod, was);
    OneMoved(w, pod, was, selected);
    FirstChangeIsCovered(w, selected, recorded, created);
    RevisionHides(w, selected, recorded, pod);
  }

  /** A change at time zero is served in time when there is no latency. */
  lemma FirstChangeIsCovered(w: World, rev: string, recorded: Instant, created: Instant)
    requires w.h == RevisionHistory(rev, 0, 0, created) && w.latency == 0
    requires recorded + w.opts.istiodConfigReadDelay >= 0
    requires w.cfg == IstioConfig(map[rev := recorded], map[], map[])
    requires forall pod, selection :: Tested(w, pod, selection) ==> selection == rev
    ensures Covered(w)
  {
    assert EffectiveOf(w, rev) == recorded;
    assert ServedInTime(w, rev, 0);
  }

  /**
   The skip test agrees with the full scan over a move in all faithful worlds exactly when nothing was moved, or
   when no injection is selected any more.
   */
  lemma AgreesIffNotMoved(was: string, selected: string, delay: int)
    ensures AgreesWhenMoved(was, selected, delay) <==> was == selected || selected == ""
  {
    if was != selected && selected != "" {
      var w := MoveHides(was, selected, delay);
    } else {
      forall w: World | Faithful(w) && Moved(w, was, selected) && w.opts.istiodConfigReadDelay == delay
        ensures SkipAgrees(w)
      {
        SkipRefinesFullScan(w);
      }
    }
  }

  /**
   A ConfigMap that is relabelled to another revision takes its time from the old one: for every delay and every two
   revisions, a creation time that was not skipped comes to be.
   */
  lemma RelabelledConfigMapHides(rev: string, other: string, delay: nat)
    returns (cfg: IstioConfig, cfg': IstioConfig, created: Instant)
    requires rev != "" && other != "" && rev != other
    ensures NewestByKey(CM.Changes([RevisionMap(rev, SECOND, NO_VALUES), RevisionMap(rev, 3 * SECOND, NO_VALUES)]),
                        cfg.lastModifiedByRevision)
    ensures NewestByKey(CM.Changes([RevisionMap(rev, SECOND, NO_VALUES), RevisionMap(other, 3 * SECOND, NO_VALUES)]),
                        cfg'.lastModifiedByRevision)
    ensures cfg'.tagToRevision == cfg.tagToRevision && cfg'.lastModifiedByTag == cfg.lastModifiedByTag
    ensures !ShouldSkip(created, rev, rev, cfg, delay) && ShouldSkip(created, rev, rev, cfg', delay)
  {
    TwoChanges(rev, rev);
    TwoChanges(rev, other);
    cfg := IstioConfig(map[rev := 3 * SECOND], map[], map[]);
    cfg' := IstioConfig(map[rev := SECOND, other := 3 * SECOND], map[], map[]);
    created := SECOND + delay;
    NewestOfTwo(rev, other);
  }

  lemma NewestOfTwo(rev: string, other: string)
    requires rev != other
    ensures NewestByKey({Change(rev, SECOND), Change(rev, 3 * SECOND)}, map[rev := 3 * SECOND])
    ensures NewestByKey({Change(rev, SECOND), Change(other, 3 * SECOND)}, map[rev := SECOND, other := 3 * SECOND])
  {
  }

  lemma TwoChanges(rev: string, other: string)
    requires rev != "" && other != ""
    ensures CM.Changes([RevisionMap(rev, SECOND, NO_VALUES), RevisionMap(other, 3 * SECOND, NO_VALUES)])
         == {Change(rev, SECOND), Change(other, 3 * SECOND)}
  {
    var a, b := RevisionMap(rev, SECOND, NO_VALUES), RevisionMap(other, 3 * SECOND, NO_VALUES);
    RevisionChanges(rev, SECOND);
    RevisionChanges(other, 3 * SECOND);
    assert a in [a] && b in [b] && a in [a, b] && b in [a, b];
    assert CM.ChangeOf(a) == Change(rev, SECOND) && CM.ChangeOf(b) == Change(other, 3 * SECOND);
    assert forall cm :: cm in [a, b] ==> cm == a || cm == b;
  }

  // ---- a change that no time tells

  /** The effective time of everything tested is `effective`, and its revision changed once, at `change`. */
  ghost predicate OneChange(w: World, effective: Instant, change: Instant) {
    forall pod, selection :: Tested(w, pod, selection) ==>
      EffectiveOf(w, selection) == effective && w.h.configChanges(RevisionOf(w.cfg, selection)) == [change]
  }

  /** In every world with these times whose pods keep their injection, the skip test agrees with the full scan. */
  ghost predicate AgreesAtTimes(delay: int, latency: nat, effective: Instant, change: Instant) {
    forall w: World ::
      Recorded(w) && Kept(w) && HasTimes(w, delay, latency) && OneChange(w, effective, change) ==>
        SkipAgrees(w)
  }

  lemma ChangeIsCovered(w: World, effective: Instant, change: Instant)
    requires Recorded(w) && OneChange(w, effective, change) && w.latency <= SafeLatency(w.opts.istiodConfigReadDelay)
    requires effective == 0 || change + w.latency <= CeilSeconds(effective + w.opts.istiodConfigReadDelay)
    ensures Faithful(w)
  {
    forall pod, selection | Tested(w, pod, selection)
      ensures forall x: Instant :: x in w.h.configChanges(RevisionOf(w.cfg, selection)) ==>
                ServedInTime(w, selection, x)
      ensures forall x: Instant :: x in w.h.tagChanges(selection) ==> ServedInTime(w, selection, x)
    {
      RecordedIsServedInTime(w, selection);
      ChangeIsServedInTime(w, selection, effective, change);
    }
  }

  lemma ChangeIsServedInTime(w: World, selection: string, effective: Instant, change: Instant)
    requires EffectiveOf(w, selection) == effective
    requires effective == 0 || change + w.latency <= CeilSeconds(effective + w.opts.istiodConfigReadDelay)
    ensures ServedInTime(w, selection, change)
  {
  }

  /**
   A change that no time tells, as when the ConfigMap of a revision does not parse: within the safe latency, the
   skip test agrees with the full scan in all such worlds exactly when there is no time at all, and so no skip, or
   when the change is served before the first whole second at which pods are skipped.
   */
  lemma AgreesIffChangeIsCovered(delay: int, latency: nat, effective: Instant, change: Instant)
    requires latency <= SafeLatency(delay)
    ensures AgreesAtTimes(delay, latency, effective, change)
       <==> effective == 0 || change + latency <= CeilSeconds(effective + delay)
  {
    if effective != 0 && change + latency > CeilSeconds(effective + delay) {
      var w := UnparsedConfigMapHides(delay, latency, effective, change);
    } else {
      forall w: World
        | Recorded(w) && Kept(w) && HasTimes(w, delay, latency) && OneChange(w, effective, change)
        ensures SkipAgrees(w)
      {
        ChangeIsCovered(w, effective, change);
        SkipRefinesFullScan(w);
      }
    }
  }

  function ProdWebhook(changed: Instant): WebhookConfig {
    WebhookConfig("istio-revision-tag-prod", map[LABEL_TAG := "prod", LABEL_REV := "canary"], changed, [])
  }

  lemma ProdTable(changed: Instant)
    ensures TW.TagTable([ProdWebhook(changed)]) == map["prod" := TW.Tagged("canary", changed)]
    ensures forall tag :: TW.Tags(ProdWebhook(changed), tag) <==> tag == "prod"
  {
    var w := ProdWebhook(changed);
    assert w.name == TW.TAG_PREFIX + "prod";
    assert TW.Entry(w) == map["prod" := TW.Tagged("canary", changed)];
    assert [w][..0] == [];
    assert TW.TagTable([w]) == TW.TagTable([]) + TW.Entry(w);
  }

  /** Tag `prod` was pointed at revision `canary` at `tagged`; the config of `canary` changed at `change`. */
  function ProdHistory(tagged: Instant, change: Instant, latency: nat, created: Instant): History {
    var changes := (r: string) => if r == "canary" then [change] else [];
    var tags := (g: string) => if g == "prod" then [tagged] else [];
    History(changes, tags, (g, k) => "canary",
            (r: string, t: Instant) => CountUpTo(changes(r), t - latency),
            (g: string, t: Instant) => CountUpTo(tags(g), t - latency),
            (template, r, preferDefault, version) =>
              Reply(if r == "canary" && version > 0 then NEW_IMAGE else OLD_IMAGE),
            pod => created)
  }

  lemma ProdHides(w: World, tagged: Instant, pod: Pod)
    requires w.c.intermediates == map[] && w.c.unreadable == {} && WEB in w.c.workloads && pod == WebPod(pod.created)
    requires w.pods == [pod] && w.opts == Options(w.opts.istiodConfigReadDelay)
    requires IstioRev(w.c, WEB) == Some("prod") && ExpectsNew(w.webhook, "canary", false)
    requires w.cfg == IstioConfig(map[], map["prod" := "canary"], map["prod" := tagged])
    requires tagged != 0 && pod.created >= tagged + w.opts.istiodConfigReadDelay
    ensures Hides(w) && !SkipAgrees(w)
  {
    assert RevisionOf(w.cfg, "prod") == "canary";
    WebScan(w.c, w.webhook, w.cfg, w.opts.istiodConfigReadDelay, pod, "prod");
    WebScan(w.c, w.webhook, WithoutTimes(w.cfg), w.opts.istiodConfigReadDelay, pod, "prod");
  }

  lemma ProdKeeps(tagged: Instant, change: Instant, latency: nat, created: Instant, c: Cluster, pod: Pod)
    requires pod == WebPod(created) && created - latency < change
    ensures KeepsInjectionOf(ProdHistory(tagged, change, latency, created), c, pod, "prod")
  {
    var h := ProdHistory(tagged, change, latency, created);
    CountOne(change, created - latency);
    assert h.servedConfig("canary", created) == 0;
    assert forall template :: InjectionAt(h, created, template, "prod") == Reply(OLD_IMAGE);
  }

  lemma ProdExpectsNew(tagged: Instant, change: Instant, latency: nat, created: Instant, now: Instant)
    requires now >= change + latency
    ensures ExpectsNew(Answering(ProdHistory(tagged, change, latency, created), now), "canary", false)
  {
    CountOne(change, now - latency);
  }

  lemma ProdServed(tagged: Instant, change: Instant, latency: nat, created: Instant)
    ensures ServedWithin(ProdHistory(tagged, change, latency, created), latency)
  {
  }

  lemma ProdTagsRecorded(tagged: Instant, change: Instant, latency: nat, created: Instant, c: Cluster)
    requires c.webhookConfigs == [ProdWebhook(tagged)]
    ensures TagsRecorded(ProdHistory(tagged, change, latency, created), c)
  {
    var h, w := ProdHistory(tagged, change, latency, created), ProdWebhook(tagged);
    ProdTable(tagged);
    assert w in c.webhookConfigs;
    assert TW.TaggedBy(w) == TW.Tagged("canary", tagged);
    forall tag: string, x: Instant | x in h.tagChanges(tag) ensures TagRecorded(h, w, tag, x) {
      assert tag == "prod" && x == tagged;
    }
  }

  lemma ProdWorld(tagged: Instant, change: Instant, latency: nat, created: Instant, delay: int) returns (w: World)
    requires Trunc(created) == created
    ensures w.h == ProdHistory(tagged, change, latency, created) && w.latency == latency
    ensures w.c
         == WebCluster(WebDocument("prod"), map[], [RevisionMap("canary", change, Malformed)],
                       [ProdWebhook(tagged)], WebPod(created))
    ensures w.cfg == IstioConfig(map[], map["prod" := "canary"], map["prod" := tagged])
    ensures w.opts == Options(delay) && w.pods == [WebPod(created)]
    ensures Recorded(w) && ExpectsNew(w.webhook, "canary", false)
  {
    var pod, h, now := WebPod(created), ProdHistory(tagged, change, latency, created), change + latency + created;
    var c := WebCluster(WebDocument("prod"), map[], [RevisionMap("canary", change, Malformed)],
                        [ProdWebhook(tagged)], pod);
    var cfg := IstioConfig(map[], map["prod" := "canary"], map["prod" := tagged]);
    w := World(h, c, Answering(h, now), cfg, Options(delay), [pod], latency, now);
    ProdExpectsNew(tagged, change, latency, created, now);
    RevisionChanges("canary", change);
    ProdTable(tagged);
    ProdServed(tagged, change, latency, created);
    ProdTagsRecorded(tagged, change, latency, created, c);
  }

  lemma ProdTimes(w: World, tagged: Instant, change: Instant, latency: nat, created: Instant)
    requires w.h == ProdHistory(tagged, change, latency, created)
    requires w.cfg == IstioConfig(map[], map["prod" := "canary"], map["prod" := tagged])
    requires forall pod, selection :: Tested(w, pod, selection) ==> selection == "prod"
    ensures OneChange(w, tagged, change)
  {
    assert RevisionOf(w.cfg, "prod") == "canary";
  }

  lemma CeilIsWhole(bound: int)
    requires bound > 0
    ensures Trunc(CeilSeconds(bound)) == CeilSeconds(bound) >= bound
  {
    var k := (bound + SECOND - 1) / SECOND;
    assert CeilSeconds(bound) == k * SECOND;
  }

  /**
   When the ConfigMap of a tag's revision does not parse, the time of the tag alone decides: for every safe latency,
   and whenever the change is served too late for that time, a pod is hidden.
   */
  lemma UnparsedConfigMapHides(delay: int, latency: nat, effective: Instant, change: Instant) returns (w: World)
    requires latency <= SafeLatency(delay) && effective != 0 && change + latency > CeilSeconds(effective + delay)
    ensures Recorded(w) && Kept(w) && HasTimes(w, delay, latency)
    ensures OneChange(w, effective, change)
    ensures w.c.configMaps == [RevisionMap("canary", change, Malformed)]
    ensures Hides(w) && !SkipAgrees(w)
  {
    CeilIsWhole(effective + delay);
    var created := CeilSeconds(effective + delay);
    w := ProdWorld(effective, change, latency, created, delay);
    var pod := WebPod(created);
    WebRevision("prod", map[], w.c.configMaps, w.c.webhookConfigs, pod);
    ProdKeeps(effective, change, latency, created, w.c, pod);
    OneMoved(w, pod, "prod", "prod");
    ProdTimes(w, effective, change, latency, created);
    ProdHides(w, effective, pod);
  }
}
