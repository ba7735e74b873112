/**
 Stamping a workload's pod template so that it restarts: the cooldown check, the merge patch and
 its bounded retry. What the API server answers and how long things take comes in as parameters.
 */
module Annotator {
  import opened Prelude
  import opened Json
  import opened Cluster
  import opened Scanner

  const RESTARTED_AT := "fortsa.scaffidi.net/restartedAt"
  const ANNOTATIONS := ["spec", "template", "metadata", "annotations"]
  const RESTARTED_AT_PATH := ANNOTATIONS + [RESTARTED_AT]
  const PATCH_MAX_ATTEMPTS: nat := 3

  /** A signed 64-bit count of nanoseconds. */
  type Duration = d: int | -0x8000_0000_0000_0000 <= d < 0x8000_0000_0000_0000

  /** `time.Since`: the difference, saturated to what a duration holds. */
  function Since(now: Instant, t: Instant): Duration {
    var d := now - t;
    if d < -0x8000_0000_0000_0000 then -0x8000_0000_0000_0000
    else if d >= 0x8000_0000_0000_0000 then 0x7fff_ffff_ffff_ffff
    else d
  }

  /** Saturation never changes the cooldown decision. */
  lemma SaturationIsHarmless(now: Instant, t: Instant, cooldown: Duration)
    requires cooldown > 0
    ensures Since(now, t) < cooldown <==> now - t < cooldown
  {
  }

  // ---- the stamp and the patch

  /** Timestamps of section 5.6 of RFC 3339, in UTC and whole seconds. */
  datatype Rfc3339 = Rfc3339(format: nat -> string, parse: string -> Option<Instant>)

  /** The last second of the year 9999, the last one that the format can spell. */
  const LAST_SECOND: nat := 315_537_897_599

  predicate Formattable(t: Instant) {
    SECOND <= t && t / SECOND <= LAST_SECOND
  }

  /** Parsing a formatted second gives it back. */
  ghost predicate RoundTrips(codec: Rfc3339) {
    forall s :: 1 <= s <= LAST_SECOND ==> codec.format(s) != "" && codec.parse(codec.format(s)) == Some(s * SECOND)
  }

  function RestartPatch(value: string): Json {
    JObject(map["spec" := JObject(map["template" := JObject(map["metadata" := JObject(map["annotations" :=
      JObject(map[RESTARTED_AT := JString(value)])])])])])
  }

  /** The stored restart time, zero when there is none that parses. */
  function RestartedAt(codec: Rfc3339, doc: Json): Instant {
    match At(doc, RESTARTED_AT_PATH)
    case Some(JString(s)) => if s == "" then 0 else (match codec.parse(s) case Some(t) => t case None => 0)
    case _ => 0
  }

  lemma PatchIsForPath(value: string)
    ensures RestartPatch(value) == PatchFor(RESTARTED_AT_PATH, JString(value))
  {
    var v := JString(value);
    assert RESTARTED_AT_PATH == ["spec"] + ["template", "metadata", "annotations", RESTARTED_AT];
    PatchForStep("spec", ["template", "metadata", "annotations", RESTARTED_AT], v);
    PatchForStep("template", ["metadata", "annotations", RESTARTED_AT], v);
    PatchForStep("metadata", ["annotations", RESTARTED_AT], v);
    PatchForStep("annotations", [RESTARTED_AT], v);
    PatchForStep(RESTARTED_AT, [], v);
  }

  lemma PatchSetsPath(doc: Json, value: string)
    ensures MergePatch(doc, RestartPatch(value)) == SetAt(doc, RESTARTED_AT_PATH, JString(value))
  {
    PatchIsForPath(value);
    MergeIsSetAt(doc, RESTARTED_AT_PATH, value);
  }

  /**
   The patch, applied to any document, sets the annotation, and leaves every path alone that is
   neither above nor below it; a later patch overrides an earlier one.
   */
  lemma PatchFrame(doc: Json, value: string, other: string, q: seq<string>)
    ensures At(MergePatch(doc, RestartPatch(value)), RESTARTED_AT_PATH) == Some(JString(value))
    ensures Diverge(RESTARTED_AT_PATH, q) ==> At(MergePatch(doc, RestartPatch(value)), q) == At(doc, q)
    ensures MergePatch(MergePatch(doc, RestartPatch(value)), RestartPatch(other))
         == MergePatch(doc, RestartPatch(other))
  {
    PatchSetsPath(doc, value);
    PatchSetsPath(doc, other);
    PatchSetsPath(MergePatch(doc, RestartPatch(value)), other);
    SetAtHits(doc, RESTARTED_AT_PATH, JString(value));
    SetAtOverrides(doc, RESTARTED_AT_PATH, JString(value), JString(other));
    if Diverge(RESTARTED_AT_PATH, q) {
      SetAtFrame(doc, RESTARTED_AT_PATH, JString(value), q);
    }
  }

  /** Above the annotation: an object keeps its members and gains at most the next one; anything else is replaced. */
  lemma PatchKeepsAncestors(doc: Json, value: string, k: nat)
    requires k < |RESTARTED_AT_PATH|
    ensures var before := At(doc, RESTARTED_AT_PATH[..k]);
            var after := At(MergePatch(doc, RestartPatch(value)), RESTARTED_AT_PATH[..k]);
            var members := if before.Some? then Members(before.value) else map[];
            && after.Some? && after.value.JObject?
            && Members(after.value).Keys == members.Keys + {RESTARTED_AT_PATH[k]}
            && (forall key :: key in members && key != RESTARTED_AT_PATH[k] ==>
                  Members(after.value)[key] == members[key])
  {
    PatchSetsPath(doc, value);
    SetAtAncestor(doc, RESTARTED_AT_PATH, JString(value), k);
  }

  /** Whatever stands on the path to the annotation is an object. */
  ghost predicate ObjectsOnPath(doc: Json) {
    forall k: nat :: k < |RESTARTED_AT_PATH| ==> ObjectAt(doc, k)
  }

  predicate ObjectAt(doc: Json, k: nat)
    requires k < |RESTARTED_AT_PATH|
  {
    match At(doc, RESTARTED_AT_PATH[..k])
    case Some(j) => j.JObject?
    case None => true
  }

  /** Every string, number, array and so on stays where it was, but for the annotation itself. */
  ghost predicate LosesNothing(doc: Json, doc': Json) {
    forall q :: At(doc, q).Some? && !At(doc, q).value.JObject? && !(RESTARTED_AT_PATH <= q) ==>
      At(doc', q) == At(doc, q)
  }

  lemma {:induction false} DivergeOrPrefix(p: seq<string>, q: seq<string>)
    ensures Diverge(p, q) || p <= q || (|q| < |p| && q == p[..|q|])
  {
    if p != [] && q != [] && p[0] == q[0] {
      DivergeOrPrefix(p[1..], q[1..]);
      assert p == [p[0]] + p[1..] && q == [q[0]] + q[1..];
    }
  }

  /** The patch loses nothing of a document exactly when the path to the annotation runs over objects. */
  lemma PatchLosesNothingIffObjectsOnPath(doc: Json, value: string)
    ensures LosesNothing(doc, MergePatch(doc, RestartPatch(value))) <==> ObjectsOnPath(doc)
  {
    var doc' := MergePatch(doc, RestartPatch(value));
    if ObjectsOnPath(doc) {
      forall q | At(doc, q).Some? && !At(doc, q).value.JObject? && !(RESTARTED_AT_PATH <= q)
        ensures At(doc', q) == At(doc, q)
      {
        DivergeOrPrefix(RESTARTED_AT_PATH, q);
        PatchFrame(doc, value, value, q);
        assert |q| < |RESTARTED_AT_PATH| ==> ObjectAt(doc, |q|);
      }
    }
    if LosesNothing(doc, doc') {
      forall k: nat | k < |RESTARTED_AT_PATH| ensures ObjectAt(doc, k) {
        PatchKeepsAncestors(doc, value, k);
        assert !(RESTARTED_AT_PATH <= RESTARTED_AT_PATH[..k]);
      }
    }
  }

  /** The documents differ at most by a restart stamp. */
  ghost predicate SameButStamp(doc: Json, doc': Json) {
    exists value :: doc' == SetAt(doc, RESTARTED_AT_PATH, JString(value))
  }

  lemma StampStaysStamp(doc: Json, doc': Json, value: string)
    requires doc' == doc || SameButStamp(doc, doc')
    ensures SameButStamp(doc, MergePatch(doc', RestartPatch(value)))
  {
    PatchSetsPath(doc', value);
    if doc' != doc {
      var v :| doc' == SetAt(doc, RESTARTED_AT_PATH, JString(v));
      SetAtOverrides(doc, RESTARTED_AT_PATH, JString(v), JString(value));
    }
  }

  lemma StampIsRead(codec: Rfc3339, doc: Json, at: Instant)
    requires RoundTrips(codec) && Formattable(at)
    ensures RestartedAt(codec, MergePatch(doc, RestartPatch(codec.format(at / SECOND)))) == Trunc(at)
  {
    PatchFrame(doc, codec.format(at / SECOND), "", []);
  }

  /** On any document, the patch puts its value where Kubernetes keeps the annotations of the pod template. */
  lemma StampIsInTemplate(doc: Json, value: string)
    ensures At(MergePatch(doc, RestartPatch(value)),
               ["spec", "template", "metadata", "annotations", "fortsa.scaffidi.net/restartedAt"])
         == Some(JString(value))
  {
    PatchFrame(doc, value, value, []);
    assert RESTARTED_AT_PATH == ["spec", "template", "metadata", "annotations", "fortsa.scaffidi.net/restartedAt"];
  }

  /** The annotation is one of those of the pod that is built from the template. */
  lemma TemplateHoldsStamp(c: Cluster, ref: ObjRef)
    requires ref in c.workloads && ref !in c.unreadable
    ensures var pod := BuildPod(c, ref);
            && pod.Some?
            && At(c.workloads[ref], ["spec", "template", "metadata", "annotations", "fortsa.scaffidi.net/restartedAt"])
               == if pod.value.annotations.Some?
                  then At(pod.value.annotations.value, ["fortsa.scaffidi.net/restartedAt"])
                  else None
  {
    var annotations, key := ["spec", "template"] + ["metadata", "annotations"], ["fortsa.scaffidi.net/restartedAt"];
    AtOfConcat(c.workloads[ref], annotations, key);
    assert annotations + key
        == ["spec", "template", "metadata", "annotations", "fortsa.scaffidi.net/restartedAt"];
  }

  /** What a stamp makes of the cluster. */
  function StampedCluster(c: Cluster, ref: ObjRef, value: string): Cluster
    requires ref in c.workloads
  {
    c.(workloads := c.workloads[ref := MergePatch(c.workloads[ref], RestartPatch(value))])
  }

  /**
   A stamp restarts its workload: the pod built from the template carries the value as its annotation, and
   differs from the one before exactly when the workload did not store this value already.
   */
  lemma StampRollsTemplate(c: Cluster, ref: ObjRef, value: string)
    requires ref in c.workloads && ref !in c.unreadable
    ensures var pod := BuildPod(StampedCluster(c, ref, value), ref);
            && pod.Some? && pod.value.annotations.Some?
            && At(pod.value.annotations.value, ["fortsa.scaffidi.net/restartedAt"]) == Some(JString(value))
    ensures BuildPod(StampedCluster(c, ref, value), ref) == BuildPod(c, ref)
       <==> At(c.workloads[ref], ["spec", "template", "metadata", "annotations", "fortsa.scaffidi.net/restartedAt"])
            == Some(JString(value))
  {
    var doc := c.workloads[ref];
    StampIsInTemplate(doc, value);
    TemplateHoldsStamp(c, ref);
    TemplateHoldsStamp(StampedCluster(c, ref, value), ref);
    var path := ["spec", "template", "metadata", "annotations", "fortsa.scaffidi.net/restartedAt"];
    if At(doc, path) == Some(JString(value)) {
      PatchSetsPath(doc, value);
      assert RESTARTED_AT_PATH == path;
      SetAtSame(doc, path, JString(value));
      assert StampedCluster(c, ref, value).workloads == c.workloads;
    }
  }

  lemma StampKeepsTemplate(doc: Json, value: string, path: seq<string>)
    requires path != [] && (path[0] == "spec" || (|path| >= 2 && path[0] == "metadata" && path[1] == "labels"))
    ensures TemplateAt(MergePatch(doc, RestartPatch(value)), path) == TemplateAt(doc, path)
  {
    var q := ["spec", "template"] + path;
    assert "annotations"[0] != "labels"[0] && "metadata"[0] != "spec"[0];
    if path[0] == "spec" {
      DivergeFrom(RESTARTED_AT_PATH, q, 2);
    } else {
      DivergeFrom(RESTARTED_AT_PATH, q, 3);
    }
    PatchFrame(doc, value, value, q);
  }

  /**
   A stamp changes neither the revision that a workload asks for nor anything else of the pod that is
   built from its template but the annotations.
   */
  lemma StampKeepsSelection(c: Cluster, stamped: ObjRef, value: string, ref: ObjRef)
    requires stamped in c.workloads
    ensures var c' := c.(workloads := c.workloads[stamped := MergePatch(c.workloads[stamped], RestartPatch(value))]);
            && IstioRev(c', ref) == IstioRev(c, ref)
            && BuildPod(c', ref).Some? == BuildPod(c, ref).Some?
            && (BuildPod(c, ref).Some? ==>
                  BuildPod(c', ref).value
                  == BuildPod(c, ref).value.(annotations := BuildPod(c', ref).value.annotations))
  {
    var doc := c.workloads[stamped];
    StampKeepsTemplate(doc, value, ["metadata", "labels", LABEL_REV]);
    StampKeepsTemplate(doc, value, ["metadata", "labels"]);
    StampKeepsTemplate(doc, value, ["spec"]);
  }

  // ---- one attempt

  datatype PatchReply = Accept | Conflict | Refuse

  /** How one call of `Annotate` fares: reads, times, the server's replies, cancellation during backoffs. */
  datatype AnnotateEnv = AnnotateEnv(
    readFails: bool, readTook: nat, stampTook: nat,
    replies: nat -> PatchReply, cancelled: nat -> bool, patchTook: nat)

  datatype Store = Store(workloads: map<ObjRef, Json>, clock: Instant)

  datatype Outcome = Stamped(at: Instant) | CoolingDown(last: Instant, at: Instant) | Unsupported | Failed

  /** Some attempt within the bound is accepted, after conflicts only and without cancellation in between. */
  ghost predicate Commits(present: bool, env: AnnotateEnv) {
    present && exists k: nat :: k < PATCH_MAX_ATTEMPTS && AcceptedAt(env, k)
  }

  ghost predicate AcceptedAt(env: AnnotateEnv, k: nat) {
    env.replies(k).Accept? && forall j: nat :: j < k ==> env.replies(j).Conflict? && !env.cancelled(j)
  }

  /** What the cooldown check decides without patching: nothing when the patch is to go ahead. */
  function Check(codec: Rfc3339, cooldown: Duration, workloads: map<ObjRef, Json>, ref: ObjRef, env: AnnotateEnv,
                 now: Instant): Option<Outcome> {
    if cooldown <= 0 || ref.kind !in WORKLOAD_KINDS then None
    else if env.readFails || ref !in workloads then Some(Outcome.Failed)
    else
      var last := RestartedAt(codec, workloads[ref]);
      if last != 0 && Since(now, last) < cooldown then Some(CoolingDown(last, now)) else None
  }

  /** The patch with its retries, once the cooldown check lets it through. */
  ghost function PatchStep(codec: Rfc3339, st: Store, ref: ObjRef, env: AnnotateEnv): (Store, Outcome) {
    var at := st.clock + env.stampTook;
    if ref.kind !in WORKLOAD_KINDS then (st.(clock := at), Unsupported)
    else if !Commits(ref in st.workloads, env) then (st.(clock := at + env.patchTook), Outcome.Failed)
    else
      (Store(st.workloads[ref := MergePatch(st.workloads[ref], RestartPatch(codec.format(at / SECOND)))],
             at + env.patchTook),
       Stamped(at))
  }

  /** One call of `Annotate` on the store. */
  ghost function AnnotateStep(codec: Rfc3339, cooldown: Duration, st: Store, ref: ObjRef, env: AnnotateEnv)
    : (Store, Outcome)
  {
    var checked := st.(clock := st.clock + env.readTook);
    match Check(codec, cooldown, st.workloads, ref, env, checked.clock)
    case Some(outcome) => (checked, outcome)
    case None => PatchStep(codec, checked, ref, env)
  }

  /** The template's annotation holds text that parses as this time. */
  ghost predicate StoresTime(codec: Rfc3339, doc: Json, t: Instant) {
    exists text ::
      && At(doc, ["spec", "template", "metadata", "annotations", "fortsa.scaffidi.net/restartedAt"])
         == Some(JString(text))
      && text != "" && codec.parse(text) == Some(t)
  }

  lemma RestartedAtIsStored(codec: Rfc3339, doc: Json, t: Instant)
    requires t != 0
    ensures RestartedAt(codec, doc) == t <==> StoresTime(codec, doc, t)
  {
    assert RESTARTED_AT_PATH == ["spec", "template", "metadata", "annotations", "fortsa.scaffidi.net/restartedAt"];
  }

  /** The cooldown, if there is one, lets a workload pass that can be read and stores no time younger than it. */
  ghost predicate CooldownPasses(codec: Rfc3339, cooldown: Duration, doc: Json, readFails: bool, now: Instant) {
    cooldown > 0 ==> !readFails && forall t: Instant :: t != 0 && StoresTime(codec, doc, t) ==> now - t >= cooldown
  }

  lemma CheckPassesIff(codec: Rfc3339, cooldown: Duration, workloads: map<ObjRef, Json>, ref: ObjRef, env: AnnotateEnv,
                       now: Instant)
    requires ref in workloads && ref.kind in WORKLOAD_KINDS
    ensures Check(codec, cooldown, workloads, ref, env, now).None?
       <==> CooldownPasses(codec, cooldown, workloads[ref], env.readFails, now)
  {
    var last := RestartedAt(codec, workloads[ref]);
    forall t: Instant | t != 0 ensures StoresTime(codec, workloads[ref], t) <==> last == t {
      RestartedAtIsStored(codec, workloads[ref], t);
    }
    if cooldown > 0 {
      SaturationIsHarmless(now, last, cooldown);
      assert last != 0 ==> StoresTime(codec, workloads[ref], last);
    }
  }

  /**
   An attempt stamps exactly when its workload is of a known kind and exists, the cooldown lets it pass, and one of
   three replies accepts after conflicts only. It is no error for an unknown kind, nor when the cooldown holds it.
   */
  lemma StampsIff(codec: Rfc3339, cooldown: Duration, st: Store, ref: ObjRef, env: AnnotateEnv)
    ensures AnnotateStep(codec, cooldown, st, ref, env).1.Stamped?
       <==> && ref.kind in {"Deployment", "StatefulSet", "DaemonSet"} && ref in st.workloads
            && CooldownPasses(codec, cooldown, st.workloads[ref], env.readFails, st.clock + env.readTook)
            && exists k: nat :: k < 3 && AcceptedAt(env, k)
    ensures AnnotateStep(codec, cooldown, st, ref, env).1.Unsupported?
       <==> ref.kind !in {"Deployment", "StatefulSet", "DaemonSet"}
    ensures AnnotateStep(codec, cooldown, st, ref, env).1.CoolingDown?
       <==> && ref.kind in {"Deployment", "StatefulSet", "DaemonSet"} && ref in st.workloads && !env.readFails
            && !CooldownPasses(codec, cooldown, st.workloads[ref], env.readFails, st.clock + env.readTook)
  {
    if ref in st.workloads && ref.kind in WORKLOAD_KINDS {
      CheckPassesIff(codec, cooldown, st.workloads, ref, env, st.clock + env.readTook);
    }
  }

  /** The pod template of the workload holds this restart time. */
  ghost predicate Holds(codec: Rfc3339, workloads: map<ObjRef, Json>, ref: ObjRef, second: nat) {
    && ref in workloads
    && At(workloads[ref], ["spec", "template", "metadata", "annotations", "fortsa.scaffidi.net/restartedAt"])
       == Some(JString(codec.format(second)))
  }

  ghost predicate HoldsStamp(codec: Rfc3339, workloads: map<ObjRef, Json>, ref: ObjRef) {
    exists second: nat :: Holds(codec, workloads, ref, second)
  }

  /** A stamp leaves its time in the pod template. */
  lemma StampedHolds(codec: Rfc3339, cooldown: Duration, st: Store, ref: ObjRef, env: AnnotateEnv)
    ensures var (st', o) := AnnotateStep(codec, cooldown, st, ref, env);
            o.Stamped? ==> HoldsStamp(codec, st'.workloads, ref) && Holds(codec, st'.workloads, ref, o.at / SECOND)
  {
    var (st', o) := AnnotateStep(codec, cooldown, st, ref, env);
    if o.Stamped? {
      StampIsInTemplate(st.workloads[ref], codec.format(o.at / SECOND));
      assert Holds(codec, st'.workloads, ref, o.at / SECOND);
    }
  }

  class ApiServer {
    var cluster: Cluster
    var clock: Instant

    ghost function View(): Store
      reads this
    {
      Store(cluster.workloads, clock)
    }

    method Elapse(d: nat)
      modifies this`clock
      ensures clock == old(clock) + d
    {
      clock := clock + d;
    }

    /** One merge patch: a missing object is refused, and only an accepted patch is committed. */
    method Patch(ref: ObjRef, patch: Json, reply: PatchReply) returns (r: PatchReply)
      modifies this`cluster
      ensures r == if ref in old(cluster).workloads then reply else Refuse
      ensures !r.Accept? ==> cluster == old(cluster)
      ensures r.Accept? ==>
                cluster == old(cluster).(
                  workloads := old(cluster).workloads[ref := MergePatch(old(cluster).workloads[ref], patch)])
    {
      if ref !in cluster.workloads {
        return Refuse;
      }
      if reply.Accept? {
        cluster := cluster.(workloads := cluster.workloads[ref := MergePatch(cluster.workloads[ref], patch)]);
      }
      r := reply;
    }
  }

  class WorkloadAnnotator {
    const client: ApiServer
    const annotationCooldown: Duration
    const codec: Rfc3339

    constructor (client: ApiServer, annotationCooldown: Duration, codec: Rfc3339)
      ensures this.client == client && this.annotationCooldown == annotationCooldown && this.codec == codec
    {
      this.client := client;
      this.annotationCooldown := annotationCooldown;
      this.codec := codec;
    }

    /**
     At most three attempts, each but the last answered by a conflict; success exactly when one is
     accepted, and then it is the only one that changed the store.
     */
    method PatchWithRetry(ref: ObjRef, patch: Json, env: AnnotateEnv)
      returns (ok: bool, ghost attempts: nat, ghost commits: nat)
      modifies client`cluster
      ensures 1 <= attempts <= PATCH_MAX_ATTEMPTS
      ensures forall j: nat :: j < attempts - 1 ==>
                ref in old(client.cluster).workloads && env.replies(j).Conflict? && !env.cancelled(j)
      ensures ok <==> Commits(ref in old(client.cluster).workloads, env)
      ensures commits == if ok then 1 else 0
      ensures client.cluster ==
              if ok then old(client.cluster).(workloads :=
                           old(client.cluster).workloads[ref := MergePatch(old(client.cluster).workloads[ref], patch)])
              else old(client.cluster)
    {
      attempts, commits := 0, 0;
      for attempt := 0 to PATCH_MAX_ATTEMPTS
        invariant attempts == attempt && commits == 0 && client.cluster == old(client.cluster)
        invariant attempt > 0 ==> ref in client.cluster.workloads
        invariant forall j: nat :: j < attempt ==> env.replies(j).Conflict?
        invariant forall j: nat :: j < attempt && j < PATCH_MAX_ATTEMPTS - 1 ==> !env.cancelled(j)
      {
        var reply := client.Patch(ref, patch, env.replies(attempt));
        attempts := attempts + 1;
        if reply.Accept? {
          commits := commits + 1;
          assert AcceptedAt(env, attempt);
          return true, attempts, commits;
        }
        if !reply.Conflict? {
          return false, attempts, commits;
        }
        if attempt < PATCH_MAX_ATTEMPTS - 1 {
          if env.cancelled(attempt) {
            return false, attempts, commits;
          }
        }
      }
      ok := false;
    }

    /** The stored restart time; a workload that cannot be read is an error, an unknown kind has none. */
    method GetRestartedAt(ref: ObjRef, env: AnnotateEnv) returns (r: Result<Instant>)
      ensures r.Err? <==> ref.kind in WORKLOAD_KINDS && (env.readFails || ref !in client.cluster.workloads)
      ensures r.Ok? ==> r.value ==
                        if ref.kind in WORKLOAD_KINDS then RestartedAt(codec, client.cluster.workloads[ref]) else 0
    {
      if ref.kind !in WORKLOAD_KINDS {
        return Ok(0);
      }
      if env.readFails || ref !in client.cluster.workloads {
        return Err;
      }
      r := Ok(RestartedAt(codec, client.cluster.workloads[ref]));
    }

    /** The second half of `Annotate`: build the patch from the clock and send it. */
    method PatchNow(ref: ObjRef, env: AnnotateEnv) returns (ok: bool, failed: bool)
      modifies client
      ensures var (st, outcome) := PatchStep(codec, old(client.View()), ref, env);
              client.View() == st && (ok <==> outcome.Stamped?) && (failed <==> outcome.Failed?)
      ensures client.cluster == old(client.cluster).(workloads := client.cluster.workloads)
    {
      client.Elapse(env.stampTook);
      if ref.kind !in WORKLOAD_KINDS {
        return false, false;
      }
      var patch := RestartPatch(codec.format(client.clock / SECOND));
      var patched, _, _ := PatchWithRetry(ref, patch, env);
      client.Elapse(env.patchTook);
      return patched, !patched;
    }

    /** The first half of `Annotate`: the verdict of the cooldown check, if there is one. */
    method CheckCooldown(ref: ObjRef, env: AnnotateEnv) returns (stop: bool, failed: bool)
      ensures var verdict := Check(codec, annotationCooldown, client.cluster.workloads, ref, env, client.clock);
              (stop <==> verdict.Some?) && (stop ==> (failed <==> verdict.value.Failed?))
      ensures !stop ==> !failed
    {
      if annotationCooldown > 0 {
        var annotatedAt := GetRestartedAt(ref, env);
        if annotatedAt.Err? {
          return true, true;
        }
        if annotatedAt.value != 0 && Since(client.clock, annotatedAt.value) < annotationCooldown {
          return true, false;
        }
      }
      return false, false;
    }

    method Annotate(ref: ObjRef, env: AnnotateEnv) returns (annotated: bool, failed: bool)
      modifies client
      ensures var (st, outcome) := AnnotateStep(codec, annotationCooldown, old(client.View()), ref, env);
              client.View() == st && (annotated <==> outcome.Stamped?) && (failed <==> outcome.Failed?)
      ensures client.cluster == old(client.cluster).(workloads := client.cluster.workloads)
      ensures annotated ==> HoldsStamp(codec, client.cluster.workloads, ref)
    {
      StampedHolds(codec, annotationCooldown, client.View(), ref, env);
      client.Elapse(env.readTook);
      var stop, readFailed := CheckCooldown(ref, env);
      if stop {
        return false, readFailed;
      }
      annotated, failed := PatchNow(ref, env);
    }
  }
}
