/**
 The skip test against the full scan. A pod that the skip test passes over was created long
 enough after the last change of everything its sidecar depends on; so the webhook would still
 inject what it injected when the pod was created.
 */
module SkipRefinement {
  import opened Prelude
  import opened Cluster
  import opened Images
  import opened LastModified
  import opened Owners
  import opened Scanner
  import CM = ConfigMaps
  import TW = TagWebhooks

  /** The scan without the skip test: no change times are known. */
  function WithoutTimes(cfg: IstioConfig): IstioConfig {
    cfg.(lastModifiedByRevision := map[], lastModifiedByTag := map[])
  }

  // ---- what whole seconds hide

  /** The least whole number of seconds that is not below `d`. */
  function CeilSeconds(d: int): int {
    (d + SECOND - 1) / SECOND * SECOND
  }

  /** The longest time that istiod may take to serve a change without the skip test missing it. */
  function SafeLatency(delay: int): int {
    CeilSeconds(delay) - SECOND + 1
  }

  /** Whole seconds at or after `bound` are at or after the next whole second. */
  lemma SkippedIsInTime(created: Instant, bound: int)
    requires Trunc(created) >= bound
    ensures created >= CeilSeconds(bound)
  {
  }

  /** Within the safe latency a change is served before a pod can be skipped for its recorded time, or a later one. */
  lemma SafeLatencyCovers(change: Instant, effective: Instant, delay: int, latency: int)
    requires Trunc(change) <= effective && latency <= SafeLatency(delay)
    ensures change + latency <= CeilSeconds(effective + delay)
  {
  }

  lemma SkippedIsLateEnough(change: Instant, created: Instant, delay: int, latency: int)
    requires Trunc(created) >= Trunc(change) + delay && latency <= SafeLatency(delay)
    ensures change + latency <= created
  {
    SafeLatencyCovers(change, Trunc(change), delay, latency);
    SkippedIsInTime(created, Trunc(change) + delay);
  }

  /** A change and a creation whose recorded seconds pass the skip test, as close together as possible. */
  lemma ClosestSkipped(delay: int) returns (change: Instant, created: Instant)
    ensures Trunc(created) == created && created >= Trunc(change) + delay
    ensures Trunc(change) >= SECOND && created - change == SafeLatency(delay)
  {
    var k := 1 + if delay < 0 then -delay else delay;
    change := (k + 1) * SECOND - 1;
    var seconds := k + (delay + SECOND - 1) / SECOND;
    created := seconds * SECOND;
  }

  /**
   With creation and change times recorded in whole seconds, every pod that the test skips was
   created at least `latency` after the change exactly when `latency` is within the safe bound:
   the delay, rounded up to seconds, less one second (and plus one nanosecond, as the bound is strict).
   */
  lemma RoundingBound(delay: int, latency: int)
    ensures (forall change: Instant, created: Instant :: Trunc(created) >= Trunc(change) + delay ==>
               change + latency <= created)
       <==> latency <= SafeLatency(delay)
  {
    var change, created := ClosestSkipped(delay);
    if latency <= SafeLatency(delay) {
      forall change: Instant, created: Instant | Trunc(created) >= Trunc(change) + delay
        ensures change + latency <= created
      {
        SkippedIsLateEnough(change, created, delay, latency);
      }
    }
  }

  /** For a delay of whole seconds, as in the default of ten, a latency equal to the delay is too long. */
  lemma WholeSecondDelay(seconds: int)
    ensures SafeLatency(seconds * SECOND) == (seconds - 1) * SECOND + 1
    ensures !(seconds * SECOND <= SafeLatency(seconds * SECOND))
  {
  }

  // ---- the world behind a scan

  /**
   What happened before a scan: when the injection config of each revision and the target of each
   tag changed, which version was served when, what each version injects, and when pods were
   really created. Versions count changes.
   */
  datatype History = History(
    configChanges: string -> seq<Instant>,
    tagChanges: string -> seq<Instant>,
    tagTarget: (string, nat) -> string,
    servedConfig: (string, Instant) -> nat,
    servedTag: (string, Instant) -> nat,
    inject: (TemplatePod, string, bool, nat) -> WebhookReply,
    trueCreation: Pod -> Instant)

  function CountUpTo(changes: seq<Instant>, t: int): (n: nat)
    ensures n <= |changes|
  {
    if changes == [] then 0 else (if changes[0] <= t then 1 else 0) + CountUpTo(changes[1..], t)
  }

  lemma {:induction false} AllCounted(changes: seq<Instant>, t: int)
    requires forall x: Instant :: x in changes ==> x <= t
    ensures CountUpTo(changes, t) == |changes|
  {
    if changes != [] {
      forall x: Instant | x in changes[1..] ensures x <= t {
        assert x in changes;
      }
      assert changes[0] in changes;
      AllCounted(changes[1..], t);
    }
  }

  /** Every change is served no later than `latency` after it was made. */
  ghost predicate ServedWithin(h: History, latency: nat) {
    && (forall r: string, t: Instant ::
          CountUpTo(h.configChanges(r), t - latency) <= h.servedConfig(r, t) <= |h.configChanges(r)|)
    && (forall g: string, t: Instant ::
          CountUpTo(h.tagChanges(g), t - latency) <= h.servedTag(g, t) <= |h.tagChanges(g)|)
  }

  function RevisionAt(h: History, t: Instant, revOrTag: string): string {
    if h.tagChanges(revOrTag) == [] then revOrTag else h.tagTarget(revOrTag, h.servedTag(revOrTag, t))
  }

  /** What a pod that is created at `t` gets injected. */
  function InjectionAt(h: History, t: Instant, template: TemplatePod, revOrTag: string): WebhookReply {
    var revision := RevisionAt(h, t, revOrTag);
    h.inject(template, revision, revOrTag == "default", h.servedConfig(revision, t))
  }

  ghost predicate ChangeRecorded(c: Cluster, revision: string, x: Instant) {
    exists change :: change in CM.Changes(c.configMaps) && change.key == revision && Trunc(x) <= change.at
  }

  /** The ConfigMaps of every revision parse, and carry its changes to the second. */
  ghost predicate ConfigRecorded(h: History, c: Cluster) {
    forall r: string, x: Instant :: x in h.configChanges(r) ==> ChangeRecorded(c, r, x)
  }

  ghost predicate TagRecorded(h: History, w: WebhookConfig, tag: string, x: Instant) {
    && TW.Tags(w, tag) && Trunc(x) <= TW.TaggedBy(w).at
    && TW.TaggedBy(w).revision == h.tagTarget(tag, |h.tagChanges(tag)|)
  }

  /** Tags are unique, and each has a configuration with its last target that carries its changes to the second. */
  ghost predicate TagsRecorded(h: History, c: Cluster) {
    && TW.TagsAgree(c.webhookConfigs)
    && (forall tag: string :: h.tagChanges(tag) == [] ==> forall w :: w in c.webhookConfigs ==> !TW.Tags(w, tag))
    && (forall tag: string, x: Instant :: x in h.tagChanges(tag) ==>
          exists w :: w in c.webhookConfigs && TagRecorded(h, w, tag, x))
  }

  /** The webhook answers from the config that is served now. */
  ghost predicate WebhookServes(h: History, webhook: Webhook, now: Instant) {
    forall template, r, preferDefault ::
      webhook(template, r, preferDefault) == h.inject(template, r, preferDefault, h.servedConfig(r, now))
  }

  /** Creation is recorded to the second, and not in the future. */
  ghost predicate CreationRecorded(h: History, pod: Pod, now: Instant) {
    Trunc(h.trueCreation(pod)) == pod.created && h.trueCreation(pod) <= now
  }

  /** The pod still has the image that its workload's template, with this revision or tag, got at its creation. */
  ghost predicate KeepsInjectionOf(h: History, c: Cluster, pod: Pod, selection: string) {
    forall ref, template ::
      OwnerOf(c, pod) == Done(Owner(ref)) && BuildPod(c, ref) == Some(template) ==>
        match InjectionAt(h, h.trueCreation(pod), template, selection)
        case Mutated(containers, initContainers) =>
          ProxyImage(containers, initContainers) == ProxyImage(pod.containers, pod.initContainers)
        case Failed => true
  }

  /** A workload that owns the pod asks for this revision or tag now. */
  ghost predicate Asks(c: Cluster, pod: Pod, selection: string) {
    exists ref :: OwnerOf(c, pod) == Done(Owner(ref)) && IstioRev(c, ref) == Some(selection)
  }

  /** The config that a pass builds from the lists. */
  ghost predicate BuiltFrom(c: Cluster, cfg: IstioConfig) {
    && NewestByKey(CM.Changes(c.configMaps), cfg.lastModifiedByRevision)
    && cfg.tagToRevision == TW.Revisions(TW.TagTable(c.webhookConfigs))
    && cfg.lastModifiedByTag == TW.Times(TW.TagTable(c.webhookConfigs))
  }

  /** A scan with everything behind it: `latency` is how long a change may take to be served. */
  datatype World = World(
    h: History, c: Cluster, webhook: Webhook, cfg: IstioConfig, opts: ScanOptions, pods: seq<Pod>,
    latency: nat, now: Instant)

  /**
   What the cluster tells of the history: tags, creations, the config that a pass builds, and the webhook's
   answers.
   */
  ghost predicate Recorded(w: World) {
    && BuiltFrom(w.c, w.cfg) && TagsRecorded(w.h, w.c) && WebhookServes(w.h, w.webhook, w.now)
    && (forall pod :: pod in w.pods ==> CreationRecorded(w.h, pod, w.now))
    && ServedWithin(w.h, w.latency)
  }

  /** The skip test is put to this pod, with what its workload selects. */
  ghost predicate Tested(w: World, pod: Pod, selection: string) {
    pod in w.pods && !Skipped(w.opts, pod.ns) && selection != "" && Asks(w.c, pod, selection)
  }

  function EffectiveOf(w: World, selection: string): Instant {
    EffectiveLastModified(RevisionOf(w.cfg, selection), selection, w.cfg)
  }

  /** The change is served before any pod can be created that is skipped for this selection. */
  ghost predicate ServedInTime(w: World, selection: string, change: Instant) {
    EffectiveOf(w, selection) != 0 ==>
      change + w.latency <= CeilSeconds(EffectiveOf(w, selection) + w.opts.istiodConfigReadDelay)
  }

  /** Every change of what a tested pod selects is served in time: of the tag, and of its revision. */
  ghost predicate Covered(w: World) {
    forall pod, selection | Tested(w, pod, selection) ::
      && (forall x: Instant :: x in w.h.configChanges(RevisionOf(w.cfg, selection)) ==> ServedInTime(w, selection, x))
      && (forall x: Instant :: x in w.h.tagChanges(selection) ==> ServedInTime(w, selection, x))
  }

  /** The assumptions of the refinement about everything but the pods' images. */
  ghost predicate Faithful(w: World) {
    Recorded(w) && Covered(w)
  }

  /** Every tested pod still has the image of what its workload selects. */
  ghost predicate Kept(w: World) {
    forall pod, selection :: Tested(w, pod, selection) ==> KeepsInjectionOf(w.h, w.c, pod, selection)
  }

  /** Every tested pod was injected for the selection `was`, and its workload asks for `selected` now. */
  ghost predicate Moved(w: World, was: string, selected: string) {
    forall pod, selection :: Tested(w, pod, selection) ==>
      selection == selected && KeepsInjectionOf(w.h, w.c, pod, was)
  }

  ghost predicate SkipAgrees(w: World) {
    ScanResult(w.c, w.webhook, w.cfg, w.opts, w.pods) == ScanResult(w.c, w.webhook, WithoutTimes(w.cfg), w.opts, w.pods)
  }

  // ---- the refinement

  /** The table tells the last target of a tag, and a time no older than any of its changes. */
  lemma TableTellsTag(h: History, c: Cluster, tag: string)
    requires TagsRecorded(h, c)
    ensures h.tagChanges(tag) == [] ==> tag !in TW.TagTable(c.webhookConfigs)
    ensures h.tagChanges(tag) != [] ==>
              && tag in TW.TagTable(c.webhookConfigs)
              && TW.TagTable(c.webhookConfigs)[tag].revision == h.tagTarget(tag, |h.tagChanges(tag)|)
    ensures forall x: Instant :: x in h.tagChanges(tag) ==>
              Trunc(x) <= OrZero(TW.Times(TW.TagTable(c.webhookConfigs)), tag)
  {
    TW.TableComesFromList(c.webhookConfigs, tag);
    if h.tagChanges(tag) != [] {
      assert h.tagChanges(tag)[0] in h.tagChanges(tag);
    }
    forall x: Instant | x in h.tagChanges(tag)
      ensures tag in TW.TagTable(c.webhookConfigs)
      ensures TW.TagTable(c.webhookConfigs)[tag].revision == h.tagTarget(tag, |h.tagChanges(tag)|)
      ensures Trunc(x) <= TW.TagTable(c.webhookConfigs)[tag].at
    {
      var w :| w in c.webhookConfigs && TagRecorded(h, w, tag, x);
    }
  }

  /** The effective time is no older than any change of the tag, nor, where it is recorded, of the revision. */
  lemma EffectiveCoversChanges(w: World, selection: string)
    requires BuiltFrom(w.c, w.cfg) && TagsRecorded(w.h, w.c)
    ensures forall x: Instant :: x in w.h.tagChanges(selection) ==> Trunc(x) <= EffectiveOf(w, selection)
    ensures forall x: Instant :: ChangeRecorded(w.c, RevisionOf(w.cfg, selection), x) ==>
              Trunc(x) <= EffectiveOf(w, selection)
  {
    TableTellsTag(w.h, w.c, selection);
  }

  /** Within the safe latency, changes of the tag are served in time, and those of the revision that are recorded. */
  lemma RecordedIsServedInTime(w: World, selection: string)
    requires BuiltFrom(w.c, w.cfg) && TagsRecorded(w.h, w.c)
    requires w.latency <= SafeLatency(w.opts.istiodConfigReadDelay)
    ensures forall x: Instant :: x in w.h.tagChanges(selection) ==> ServedInTime(w, selection, x)
    ensures forall x: Instant :: ChangeRecorded(w.c, RevisionOf(w.cfg, selection), x) ==> ServedInTime(w, selection, x)
  {
    EffectiveCoversChanges(w, selection);
    forall x: Instant | x in w.h.tagChanges(selection) ensures ServedInTime(w, selection, x) {
      ToldIsServedInTime(w, selection, x);
    }
    forall x: Instant | ChangeRecorded(w.c, RevisionOf(w.cfg, selection), x) ensures ServedInTime(w, selection, x) {
      ToldIsServedInTime(w, selection, x);
    }
  }

  lemma ToldIsServedInTime(w: World, selection: string, x: Instant)
    requires Trunc(x) <= EffectiveOf(w, selection) && w.latency <= SafeLatency(w.opts.istiodConfigReadDelay)
    ensures ServedInTime(w, selection, x)
  {
    SafeLatencyCovers(x, EffectiveOf(w, selection), w.opts.istiodConfigReadDelay, w.latency);
  }

  /** So a world is faithful when its ConfigMaps record every change, and the latency is safe. */
  lemma RecordedIsFaithful(w: World)
    requires Recorded(w) && ConfigRecorded(w.h, w.c) && w.latency <= SafeLatency(w.opts.istiodConfigReadDelay)
    ensures Faithful(w)
  {
    forall pod, selection | Tested(w, pod, selection)
      ensures forall x: Instant :: x in w.h.configChanges(RevisionOf(w.cfg, selection)) ==>
                ServedInTime(w, selection, x)
      ensures forall x: Instant :: x in w.h.tagChanges(selection) ==> ServedInTime(w, selection, x)
    {
      RecordedIsServedInTime(w, selection);
      forall x: Instant | x in w.h.configChanges(RevisionOf(w.cfg, selection)) ensures ServedInTime(w, selection, x) {
        assert ChangeRecorded(w.c, RevisionOf(w.cfg, selection), x);
      }
    }
  }

  /** Once all changes are older than the latency, the last version is served. */
  lemma LastVersionServed(h: History, latency: nat, r: string, t: Instant)
    requires ServedWithin(h, latency)
    ensures (forall x: Instant :: x in h.configChanges(r) ==> x + latency <= t) ==>
              h.servedConfig(r, t) == |h.configChanges(r)|
    ensures (forall x: Instant :: x in h.tagChanges(r) ==> x + latency <= t) ==> h.servedTag(r, t) == |h.tagChanges(r)|
  {
    assert CountUpTo(h.configChanges(r), t - latency) <= h.servedConfig(r, t);
    assert CountUpTo(h.tagChanges(r), t - latency) <= h.servedTag(r, t);
    if forall x: Instant :: x in h.configChanges(r) ==> x + latency <= t {
      AllCounted(h.configChanges(r), t - latency);
    }
    if forall x: Instant :: x in h.tagChanges(r) ==> x + latency <= t {
      AllCounted(h.tagChanges(r), t - latency);
    }
  }

  /** The tested pod is skipped. */
  ghost predicate Skips(w: World, pod: Pod, selection: string) {
    && Tested(w, pod, selection)
    && ShouldSkip(pod.created, RevisionOf(w.cfg, selection), selection, w.cfg, w.opts.istiodConfigReadDelay)
  }

  /** A skipped pod was created after every change of what its workload selects was served. */
  lemma SkippedIsServed(w: World, pod: Pod, selection: string)
    requires Faithful(w) && Skips(w, pod, selection)
    ensures forall x: Instant :: x in w.h.configChanges(RevisionOf(w.cfg, selection)) ==>
              x + w.latency <= w.h.trueCreation(pod)
    ensures forall x: Instant :: x in w.h.tagChanges(selection) ==> x + w.latency <= w.h.trueCreation(pod)
  {
    forall x: Instant | x in w.h.configChanges(RevisionOf(w.cfg, selection))
      ensures x + w.latency <= w.h.trueCreation(pod)
    {
      SkippedAfter(w, pod, selection, x);
    }
    forall x: Instant | x in w.h.tagChanges(selection) ensures x + w.latency <= w.h.trueCreation(pod) {
      SkippedAfter(w, pod, selection, x);
    }
  }

  lemma SkippedAfter(w: World, pod: Pod, selection: string, x: Instant)
    requires CreationRecorded(w.h, pod, w.now) && ServedInTime(w, selection, x)
    requires ShouldSkip(pod.created, RevisionOf(w.cfg, selection), selection, w.cfg, w.opts.istiodConfigReadDelay)
    ensures x + w.latency <= w.h.trueCreation(pod)
  {
    SkippedIsInTime(w.h.trueCreation(pod), EffectiveOf(w, selection) + w.opts.istiodConfigReadDelay);
  }

  /** What the webhook injects now is what it injected at the creation of a skipped pod. */
  lemma InjectionUnchanged(w: World, pod: Pod, selection: string)
    requires Faithful(w) && Skips(w, pod, selection)
    ensures var t := w.h.trueCreation(pod);
            var revision := RevisionOf(w.cfg, selection);
            && RevisionAt(w.h, t, selection) == revision
            && w.h.servedConfig(revision, t) == w.h.servedConfig(revision, w.now)
  {
    var h, t, revision := w.h, w.h.trueCreation(pod), RevisionOf(w.cfg, selection);
    SkippedIsServed(w, pod, selection);
    TableTellsTag(h, w.c, selection);
    LastVersionServed(h, w.latency, selection, t);
    LastVersionServed(h, w.latency, revision, t);
    LastVersionServed(h, w.latency, revision, w.now);
  }

  /** So for a skipped pod the webhook expects the image it has, or none. */
  lemma SkippedPodIsUpToDate(w: World, pod: Pod, ref: ObjRef, selection: string)
    requires Faithful(w) && Skips(w, pod, selection) && KeepsInjectionOf(w.h, w.c, pod, selection)
    requires OwnerOf(w.c, pod) == Done(Owner(ref))
    ensures var expected := ExpectedImage(w.c, w.webhook, ref, RevisionOf(w.cfg, selection), selection);
            expected == "" || expected == ProxyImage(pod.containers, pod.initContainers)
  {
    InjectionUnchanged(w, pod, selection);
    match BuildPod(w.c, ref)
    case None =>
    case Some(template) =>
      var reply := InjectionAt(w.h, w.h.trueCreation(pod), template, selection);
      assert w.webhook(template, RevisionOf(w.cfg, selection), selection == "default") == reply;
  }

  lemma SameReport(w: World, pod: Pod)
    requires Faithful(w) && Kept(w) && pod in w.pods
    ensures Report(w.c, w.webhook, w.cfg, w.opts, pod) == Report(w.c, w.webhook, WithoutTimes(w.cfg), w.opts, pod)
  {
    if !Skipped(w.opts, pod.ns) && OwnerOf(w.c, pod).Done? && OwnerOf(w.c, pod).result.Owner? {
      var ref := OwnerOf(w.c, pod).result.ref;
      if IstioRev(w.c, ref).Some? && IstioRev(w.c, ref).value != "" {
        var selection := IstioRev(w.c, ref).value;
        assert Tested(w, pod, selection);
        if Skips(w, pod, selection) {
          SkippedPodIsUpToDate(w, pod, ref, selection);
        }
      }
    }
  }

  lemma {:induction false} SameHits(c: Cluster, webhook: Webhook, cfg: IstioConfig, cfg': IstioConfig,
                                    opts: ScanOptions, pods: seq<Pod>)
    requires forall pod :: pod in pods ==> Report(c, webhook, cfg, opts, pod) == Report(c, webhook, cfg', opts, pod)
    ensures Hits(c, webhook, cfg, opts, pods) == Hits(c, webhook, cfg', opts, pods)
  {
    if pods != [] {
      SameHits(c, webhook, cfg, cfg', opts, pods[..|pods| - 1]);
    }
  }

  /**
   The skip test refines the full scan: in a faithful world whose pods keep the injection of what their
   workloads select, the scan returns the same list with and without the skip test.
   */
  lemma SkipRefinesFullScan(w: World)
    requires Faithful(w) && Kept(w)
    ensures SkipAgrees(w)
  {
    forall pod | pod in w.pods
      ensures Report(w.c, w.webhook, w.cfg, w.opts, pod) == Report(w.c, w.webhook, WithoutTimes(w.cfg), w.opts, pod)
    {
      SameReport(w, pod);
    }
    SameHits(w.c, w.webhook, w.cfg, WithoutTimes(w.cfg), w.opts, w.pods);
  }

  /** Without any assumption the skip test can only hide: what it reports, the full scan reports as well. */
  lemma SkipOnlyHides(c: Cluster, webhook: Webhook, cfg: IstioConfig, opts: ScanOptions, pods: seq<Pod>)
    ensures Names(ScanResult(c, webhook, cfg, opts, pods))
         <= Names(ScanResult(c, webhook, WithoutTimes(cfg), opts, pods))
  {
    NamesFollowReports(c, webhook, cfg, opts, pods, WithoutTimes(cfg), opts, pods);
  }

  // ---- what the full scan reports

  /** The revision that a revision or tag stands for after all changes. */
  function LastRevision(h: History, selection: string): string {
    if h.tagChanges(selection) == [] then selection else h.tagTarget(selection, |h.tagChanges(selection)|)
  }

  /** What the last version of the config injects. */
  function LastInjection(h: History, template: TemplatePod, selection: string): WebhookReply {
    var revision := LastRevision(h, selection);
    h.inject(template, revision, selection == "default", |h.configChanges(revision)|)
  }

  /** The sidecar of the pod is not the one that the last config injects into its workload's template. */
  ghost predicate RunsOutdated(w: World, pod: Pod, ref: ObjRef) {
    && pod in w.pods && !Skipped(w.opts, pod.ns) && OwnerOf(w.c, pod) == Done(Owner(ref))
    && exists selection, template ::
         && IstioRev(w.c, ref) == Some(selection) && selection != "" && BuildPod(w.c, ref) == Some(template)
         && Differs(LastInjection(w.h, template, selection), pod, w.opts.compareHub)
  }

  predicate Differs(reply: WebhookReply, pod: Pod, compareHub: bool) {
    && reply.Mutated? && ProxyImage(reply.containers, reply.initContainers) != ""
    && !ImagesMatch(ProxyImage(pod.containers, pod.initContainers),
                    ProxyImage(reply.containers, reply.initContainers), compareHub)
  }

  /** The scan comes after all changes of what the pods select, by the latency at least. */
  ghost predicate Settled(w: World) {
    forall pod, selection | Tested(w, pod, selection) ::
      forall x: Instant :: x in w.h.configChanges(LastRevision(w.h, selection)) ==> x + w.latency <= w.now
  }

  ghost predicate OutdatedName(w: World, name: (string, string)) {
    exists pod, ref :: RunsOutdated(w, pod, ref) && NameOf(ref) == name
  }

  /** The webhook answers with what the last config injects. */
  lemma WebhookIsLast(w: World, pod: Pod, selection: string)
    requires Recorded(w) && Settled(w) && Tested(w, pod, selection)
    ensures RevisionOf(w.cfg, selection) == LastRevision(w.h, selection)
    ensures forall template ::
              w.webhook(template, LastRevision(w.h, selection), selection == "default")
              == LastInjection(w.h, template, selection)
  {
    TableTellsTag(w.h, w.c, selection);
    LastVersionServed(w.h, w.latency, LastRevision(w.h, selection), w.now);
  }

  /** The pod is outdated by what the webhook answers for its workload now. */
  predicate OutdatedNow(w: World, pod: Pod, ref: ObjRef, selection: string) {
    Outdated(ExpectedImage(w.c, w.webhook, ref, RevisionOf(w.cfg, selection), selection),
             ProxyImage(pod.containers, pod.initContainers), w.opts.compareHub)
  }

  /** What the full scan reports for a pod that is not passed over. */
  lemma FullReport(w: World, pod: Pod, ref: ObjRef, selection: string)
    requires !Skipped(w.opts, pod.ns) && OwnerOf(w.c, pod) == Done(Owner(ref))
    requires IstioRev(w.c, ref) == Some(selection) && selection != ""
    ensures Report(w.c, w.webhook, WithoutTimes(w.cfg), w.opts, pod)
         == if OutdatedNow(w, pod, ref, selection) then Some(ref) else None
  {
  }

  lemma OutdatedIffDiffers(w: World, pod: Pod, ref: ObjRef, selection: string)
    requires Recorded(w) && Settled(w) && Tested(w, pod, selection)
    ensures OutdatedNow(w, pod, ref, selection)
       <==> BuildPod(w.c, ref).Some?
            && Differs(LastInjection(w.h, BuildPod(w.c, ref).value, selection), pod, w.opts.compareHub)
  {
    WebhookIsLast(w, pod, selection);
    if BuildPod(w.c, ref).Some? {
      var template := BuildPod(w.c, ref).value;
      assert w.webhook(template, LastRevision(w.h, selection), selection == "default")
          == LastInjection(w.h, template, selection);
    }
  }

  lemma ReportedIffOutdated(w: World, pod: Pod, ref: ObjRef)
    requires Recorded(w) && Settled(w) && pod in w.pods
    ensures Report(w.c, w.webhook, WithoutTimes(w.cfg), w.opts, pod) == Some(ref) <==> RunsOutdated(w, pod, ref)
  {
    if Report(w.c, w.webhook, WithoutTimes(w.cfg), w.opts, pod) == Some(ref) || RunsOutdated(w, pod, ref) {
      OnlyOwnersReported(w, pod, ref);
      var selection := IstioRev(w.c, ref).value;
      assert Tested(w, pod, selection);
      FullReport(w, pod, ref, selection);
      OutdatedIffDiffers(w, pod, ref, selection);
    }
  }

  lemma OnlyOwnersReported(w: World, pod: Pod, ref: ObjRef)
    requires Report(w.c, w.webhook, WithoutTimes(w.cfg), w.opts, pod) == Some(ref) || RunsOutdated(w, pod, ref)
    ensures !Skipped(w.opts, pod.ns) && OwnerOf(w.c, pod) == Done(Owner(ref))
    ensures IstioRev(w.c, ref).Some? && IstioRev(w.c, ref).value != ""
  {
  }

  /**
   Once every change had its latency, the full scan reports a namespace and name exactly when some pod of a
   workload with it runs another sidecar than the last config injects.
   */
  lemma FullScanReportsOutdated(w: World)
    requires Recorded(w) && Settled(w)
    ensures forall name ::
              name in Names(ScanResult(w.c, w.webhook, WithoutTimes(w.cfg), w.opts, w.pods)) <==> OutdatedName(w, name)
  {
    var cfg := WithoutTimes(w.cfg);
    ScanSpecification(w.c, w.webhook, cfg, w.opts, w.pods);
    forall ref
      ensures Reportable(w.c, w.webhook, cfg, w.opts, w.pods, ref) <==> exists pod :: RunsOutdated(w, pod, ref)
    {
      forall pod | pod in w.pods
        ensures Report(w.c, w.webhook, cfg, w.opts, pod) == Some(ref) <==> RunsOutdated(w, pod, ref)
      {
        ReportedIffOutdated(w, pod, ref);
      }
    }
  }

  // ---- more and newer config

  /** A ConfigMap that comes, anywhere in the list, only adds changes. */
  lemma NewConfigMapGrows(cms: seq<ConfigMap>, cms': seq<ConfigMap>)
    requires forall cm :: cm in cms ==> cm in cms'
    ensures Grows(CM.Changes(cms), CM.Changes(cms'))
  {
    forall c | c in CM.Changes(cms) ensures c in CM.Changes(cms') {
      var cm :| cm in cms && CM.Watched(cm) && CM.Parses(cm) && CM.ChangeOf(cm) == c;
      assert cm in cms';
    }
  }

  /** What is written to a ConfigMap that keeps its revision: times are added, none is lost. */
  ghost predicate Rewritten(cm: ConfigMap, cm': ConfigMap) {
    && (CM.Watched(cm) && CM.Parses(cm) ==>
          CM.Watched(cm') && CM.Parses(cm') && CM.Revision(cm') == CM.Revision(cm))
    && forall t: Instant :: IsTime(cm.created, cm.managed, t) ==> IsTime(cm'.created, cm'.managed, t)
  }

  lemma AddedTimeRewrites(cm: ConfigMap, t: Instant)
    ensures Rewritten(cm, cm.(managed := cm.managed + [Some(t)]))
  {
    var cm' := cm.(managed := cm.managed + [Some(t)]);
    forall u: Instant | IsTime(cm.created, cm.managed, u) ensures IsTime(cm'.created, cm'.managed, u) {
      if Some(u) in cm.managed {
        var i :| 0 <= i < |cm.managed| && cm.managed[i] == Some(u);
        assert cm'.managed[i] == Some(u);
      }
    }
  }

  /** A ConfigMap that is written to without changing its revision only moves its change forward. */
  lemma RewrittenConfigMapGrows(cms: seq<ConfigMap>, i: nat, cm': ConfigMap)
    requires i < |cms| && Rewritten(cms[i], cm')
    ensures Grows(CM.Changes(cms), CM.Changes(cms[i := cm']))
  {
    forall c | c in CM.Changes(cms)
      ensures exists c' :: c' in CM.Changes(cms[i := cm']) && c'.key == c.key && c.at <= c'.at
    {
      var cm :| cm in cms && CM.Watched(cm) && CM.Parses(cm) && CM.ChangeOf(cm) == c;
      var k :| 0 <= k < |cms| && cms[k] == cm;
      assert cms[i := cm'][k] in cms[i := cm'];
      assert IsTime(cm.created, cm.managed, c.at);
      assert CM.ChangeOf(if k == i then cm' else cm) in CM.Changes(cms[i := cm']);
    }
  }

  /** The threshold of the skip test moves forward: or there is none any more. */
  predicate MovesForward(effective: Instant, effective': Instant) {
    effective' == 0 || (effective != 0 && effective <= effective')
  }

  /**
   Between two configs, no creation time comes to be skipped that was not exactly when the effective
   time moves forward.
   */
  lemma NothingNewlySkippedIffMovesForward(revision: string, revOrTag: string, cfg: IstioConfig, cfg': IstioConfig,
                                           delay: nat)
    ensures (forall created: Instant ::
               ShouldSkip(created, revision, revOrTag, cfg', delay) ==>
                 ShouldSkip(created, revision, revOrTag, cfg, delay))
       <==> MovesForward(EffectiveLastModified(revision, revOrTag, cfg),
                         EffectiveLastModified(revision, revOrTag, cfg'))
  {
    var effective' := EffectiveLastModified(revision, revOrTag, cfg');
    var created: Instant := effective' + delay;
    assert effective' != 0 ==> ShouldSkip(created, revision, revOrTag, cfg', delay);
  }

  /** The revision or tag that the pod's workload selects has a change time. */
  ghost predicate SelectionHasTime(c: Cluster, cfg: IstioConfig, pod: Pod) {
    forall selection :: selection != "" && Asks(c, pod, selection) ==>
      EffectiveLastModified(RevisionOf(cfg, selection), selection, cfg) != 0
  }

  /**
   When the changes of the ConfigMaps only grow, and what each pod's workload selects had a change time before, the
   scan reports at least the namespaces and names that it reported before.
   */
  lemma GrownConfigNeverHides(c: Cluster, webhook: Webhook, cms: seq<ConfigMap>, cms': seq<ConfigMap>,
                              cfg: IstioConfig, cfg': IstioConfig, opts: ScanOptions, pods: seq<Pod>)
    requires Grows(CM.Changes(cms), CM.Changes(cms'))
    requires NewestByKey(CM.Changes(cms), cfg.lastModifiedByRevision)
    requires NewestByKey(CM.Changes(cms'), cfg'.lastModifiedByRevision)
    requires cfg'.tagToRevision == cfg.tagToRevision && cfg'.lastModifiedByTag == cfg.lastModifiedByTag
    requires forall pod :: pod in pods ==> SelectionHasTime(c, cfg, pod)
    ensures Names(ScanResult(c, webhook, cfg, opts, pods)) <= Names(ScanResult(c, webhook, cfg', opts, pods))
  {
    NewestGrows(CM.Changes(cms), CM.Changes(cms'), cfg.lastModifiedByRevision, cfg'.lastModifiedByRevision);
    forall pod | pod in pods && Report(c, webhook, cfg, opts, pod).Some?
      ensures Report(c, webhook, cfg', opts, pod) == Report(c, webhook, cfg, opts, pod)
    {
      StillScanned(c, webhook, cfg, cfg', opts, pod);
    }
    NamesFollowReports(c, webhook, cfg, opts, pods, cfg', opts, pods);
  }

  lemma StillScanned(c: Cluster, webhook: Webhook, cfg: IstioConfig, cfg': IstioConfig, opts: ScanOptions, pod: Pod)
    requires forall k :: k in cfg.lastModifiedByRevision ==>
               k in cfg'.lastModifiedByRevision && cfg.lastModifiedByRevision[k] <= cfg'.lastModifiedByRevision[k]
    requires cfg'.tagToRevision == cfg.tagToRevision && cfg'.lastModifiedByTag == cfg.lastModifiedByTag
    requires SelectionHasTime(c, cfg, pod) && ProcessPod(c, webhook, cfg, opts, pod).Some?
    ensures ProcessPod(c, webhook, cfg', opts, pod) == ProcessPod(c, webhook, cfg, opts, pod)
  {
    var ref := OwnerOf(c, pod).result.ref;
    var revOrTag := IstioRev(c, ref).value;
    assert Asks(c, pod, revOrTag);
  }
}
