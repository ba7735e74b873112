/**
 One reconciliation: wait for istiod, list the config, scan, and annotate what is outdated with a
 delay in between. The cluster does not change during a pass but for the pass's own patches.
 */
module Reconciler {
  import opened Prelude
  import opened Json
  import opened Cluster
  import opened Scanner
  import opened Annotator
  import opened Runs
  import opened Triggers
  import opened SkipRefinement
  import opened LastModified
  import CM = ConfigMaps
  import TW = TagWebhooks
  import TriggerQueue

  /** How a wait ends: after its duration and a little more, or early because the context is done. */
  datatype WaitResult = Elapsed(extra: nat) | Cancelled(after: nat)

  /** How one pass fares: the first wait, the wait before each workload, and each attempt. */
  datatype PassEnv = PassEnv(await: WaitResult, waits: nat -> WaitResult, attempts: nat -> AnnotateEnv)

  // ---- what a pass over a list of workloads does

  /** A pass over a list of workloads, and what happened before it. */
  datatype Pass = Pass(before: Trace, dryRun: bool, restartDelay: Duration, workloads: seq<ObjRef>, env: PassEnv)

  predicate Waits(p: Pass, i: nat) {
    i > 0 && p.restartDelay > 0
  }

  /** Then the wait before the turn of workload `i`, when it is not cancelled. */
  function Wait(p: Pass, trace: Trace, i: nat): Trace {
    if Waits(p, i) && p.env.waits(i).Elapsed? then Then(trace, Pause(p.restartDelay + p.env.waits(i).extra)) else trace
  }

  /** Then the turn of workload `i`: an attempt, or nothing in a dry run. */
  function Turn(p: Pass, trace: Trace, i: nat): Trace
    requires i < |p.workloads|
  {
    if p.dryRun then trace else Then(trace, Attempt(p.workloads[i], p.env.attempts(i)))
  }

  /** What happened before, and then the first `n` turns of a pass. */
  function PassTrace(p: Pass, n: nat): Trace
    requires n <= |p.workloads|
    decreases n
  {
    if n == 0 then p.before else Turn(p, Wait(p, PassTrace(p, n - 1), n - 1), n - 1)
  }

  /** A pass ends after `turns` turns: after all of them, or at the first cancelled wait. */
  ghost predicate EndsAfter(p: Pass, turns: nat, trace: Trace) {
    && turns <= |p.workloads|
    && (forall i: nat :: i < turns && Waits(p, i) ==> p.env.waits(i).Elapsed?)
    && (turns < |p.workloads| ==> Waits(p, turns) && p.env.waits(turns).Cancelled?)
    && var done := PassTrace(p, turns);
    trace == if turns < |p.workloads| then Then(done, Pause(p.env.waits(turns).after)) else done
  }

  /** The workloads that a trace attempts, in order. */
  function Attempted(trace: Trace): seq<ObjRef> {
    match trace
    case Start => []
    case Then(before, Attempt(ref, _)) => Attempted(before) + [ref]
    case Then(before, Pause(_)) => Attempted(before)
  }

  /** When each attempt of a run begins. */
  ghost function AttemptTimes(codec: Rfc3339, cooldown: Duration, st: Store, trace: Trace): (r: seq<Instant>)
    ensures |r| == |Attempted(trace)|
  {
    match trace
    case Start => []
    case Then(before, Attempt(_, _)) =>
      AttemptTimes(codec, cooldown, st, before) + [Run(codec, cooldown, st, before).clock]
    case Then(before, Pause(_)) => AttemptTimes(codec, cooldown, st, before)
  }

  /** How each attempt of a run ends. */
  ghost function Outcomes(codec: Rfc3339, cooldown: Duration, st: Store, trace: Trace): (r: seq<Outcome>)
    ensures |r| == |Attempted(trace)|
  {
    match trace
    case Start => []
    case Then(before, Attempt(ref, env)) =>
      Outcomes(codec, cooldown, st, before)
      + [AnnotateStep(codec, cooldown, Run(codec, cooldown, st, before), ref, env).1]
    case Then(before, Pause(_)) => Outcomes(codec, cooldown, st, before)
  }

  /** A live pass attempts a prefix of its workloads, each once and in order; a dry run attempts nothing. */
  lemma {:induction false} PassAttemptsPrefix(p: Pass, n: nat)
    requires n <= |p.workloads|
    ensures Attempted(PassTrace(p, n)) == Attempted(p.before) + if p.dryRun then [] else p.workloads[..n]
    decreases n
  {
    if n > 0 {
      PassAttemptsPrefix(p, n - 1);
      TakeOneMore(p.workloads, n - 1);
    }
  }

  /** The store when it is the turn of workload `i`, after the wait before it. */
  ghost function AtTurn(codec: Rfc3339, cooldown: Duration, p: Pass, st: Store, i: nat): Store
    requires i <= |p.workloads|
  {
    Run(codec, cooldown, st, Wait(p, PassTrace(p, i), i))
  }

  /** Turns are at least the restart delay apart: so `k` turns take at least `(k - 1) * restartDelay`. */
  lemma {:induction false} TurnsAreDelayed(codec: Rfc3339, cooldown: Duration, p: Pass, st: Store, i: nat, j: nat)
    requires i <= j <= |p.workloads|
    requires forall k: nat :: i < k <= j && Waits(p, k) ==> p.env.waits(k).Elapsed?
    ensures AtTurn(codec, cooldown, p, st, j).clock
         >= AtTurn(codec, cooldown, p, st, i).clock + (j - i) * p.restartDelay
    decreases j
  {
    if i < j {
      TurnsAreDelayed(codec, cooldown, p, st, i, j - 1);
      TurnThenWait(codec, cooldown, p, st, j - 1);
      OneMoreDelay(j - i, p.restartDelay);
    }
  }

  lemma TurnThenWait(codec: Rfc3339, cooldown: Duration, p: Pass, st: Store, i: nat)
    requires i < |p.workloads| && (Waits(p, i + 1) ==> p.env.waits(i + 1).Elapsed?)
    ensures AtTurn(codec, cooldown, p, st, i + 1).clock >= AtTurn(codec, cooldown, p, st, i).clock + p.restartDelay
  {
    var waited := Wait(p, PassTrace(p, i), i);
    var turned := Turn(p, waited, i);
    assert PassTrace(p, i + 1) == turned;
    AttemptFrame(codec, cooldown, Run(codec, cooldown, st, waited), p.workloads[i], p.env.attempts(i));
    assert Run(codec, cooldown, st, turned).clock >= Run(codec, cooldown, st, waited).clock;
    assert Run(codec, cooldown, st, Wait(p, turned, i + 1)).clock
        >= Run(codec, cooldown, st, turned).clock + p.restartDelay;
  }

  lemma OneMoreDelay(k: nat, delay: int)
    requires k > 0
    ensures k * delay == (k - 1) * delay + delay
  {
  }

  /**
   Waits stand between turns only: when each lasts just the delay, the turns of a dry run are exactly as far
   apart.
   */
  lemma {:induction false} DryTurnsAreExact(codec: Rfc3339, cooldown: Duration, p: Pass, st: Store, i: nat)
    requires i <= |p.workloads| && p.dryRun && forall k: nat :: p.env.waits(k) == Elapsed(0)
    ensures AtTurn(codec, cooldown, p, st, i)
         == var start := Run(codec, cooldown, st, p.before);
            start.(clock := start.clock + i * if p.restartDelay > 0 then p.restartDelay else 0)
    decreases i
  {
    if i > 0 {
      var delay := if p.restartDelay > 0 then p.restartDelay else 0;
      DryTurnsAreExact(codec, cooldown, p, st, i - 1);
      OneMoreDelay(i, delay);
      assert PassTrace(p, i) == Wait(p, PassTrace(p, i - 1), i - 1);
    }
  }

  /** The attempts of a live pass begin at its turns. */
  lemma {:induction false} AttemptsBeginAtTurns(codec: Rfc3339, cooldown: Duration, p: Pass, st: Store, n: nat)
    requires n <= |p.workloads| && !p.dryRun && Attempted(p.before) == []
    ensures |AttemptTimes(codec, cooldown, st, PassTrace(p, n))| == n
    ensures forall i: nat :: i < n ==>
              AttemptTimes(codec, cooldown, st, PassTrace(p, n))[i] == AtTurn(codec, cooldown, p, st, i).clock
    decreases n
  {
    if n > 0 {
      AttemptsBeginAtTurns(codec, cooldown, p, st, n - 1);
      var done := PassTrace(p, n - 1);
      assert AttemptTimes(codec, cooldown, st, Wait(p, done, n - 1)) == AttemptTimes(codec, cooldown, st, done);
    }
  }

  /** Attempts begin at least the delay apart, for each one in between. */
  ghost predicate Delayed(times: seq<Instant>, delay: Duration) {
    forall i, j :: 0 <= i <= j < |times| ==> times[j] >= times[i] + (j - i) * delay
  }

  lemma AttemptsAreDelayed(codec: Rfc3339, cooldown: Duration, p: Pass, st: Store, turns: nat, trace: Trace)
    requires EndsAfter(p, turns, trace) && Attempted(p.before) == []
    ensures Delayed(AttemptTimes(codec, cooldown, st, trace), p.restartDelay)
    ensures forall t :: t in AttemptTimes(codec, cooldown, st, trace) ==> t >= Run(codec, cooldown, st, p.before).clock
  {
    var done := PassTrace(p, turns);
    PassAttemptsPrefix(p, turns);
    assert AttemptTimes(codec, cooldown, st, trace) == AttemptTimes(codec, cooldown, st, done);
    if !p.dryRun {
      var times := AttemptTimes(codec, cooldown, st, done);
      AttemptsBeginAtTurns(codec, cooldown, p, st, turns);
      forall i: nat, j: nat | i <= j < turns ensures times[j] >= times[i] + (j - i) * p.restartDelay {
        TurnsAreDelayed(codec, cooldown, p, st, i, j);
      }
      forall i: nat | i < turns ensures times[i] >= Run(codec, cooldown, st, p.before).clock {
        ClockMovesOn(codec, cooldown, p, st, i);
      }
    }
  }

  lemma {:induction false} ClockMovesOn(codec: Rfc3339, cooldown: Duration, p: Pass, st: Store, i: nat)
    requires i < |p.workloads|
    ensures AtTurn(codec, cooldown, p, st, i).clock >= Run(codec, cooldown, st, p.before).clock
    decreases i
  {
    if i > 0 {
      ClockMovesOn(codec, cooldown, p, st, i - 1);
      var waited := Wait(p, PassTrace(p, i - 1), i - 1);
      var turned := Turn(p, waited, i - 1);
      assert PassTrace(p, i) == turned;
      AttemptFrame(codec, cooldown, AtTurn(codec, cooldown, p, st, i - 1), p.workloads[i - 1], p.env.attempts(i - 1));
      assert Run(codec, cooldown, st, turned).clock >= Run(codec, cooldown, st, waited).clock;
      assert Run(codec, cooldown, st, Wait(p, turned, i)).clock >= Run(codec, cooldown, st, turned).clock;
    }
  }

  /** What a run may do to workloads: those it attempts get at most a new stamp, all others nothing. */
  ghost predicate OnlyStamps(before: map<ObjRef, Json>, after: map<ObjRef, Json>, attempted: seq<ObjRef>) {
    && after.Keys == before.Keys
    && forall ref :: ref in before ==>
         after[ref] == before[ref] || (ref in attempted && SameButStamp(before[ref], after[ref]))
  }

  lemma {:induction false} RunOnlyStamps(codec: Rfc3339, cooldown: Duration, st: Store, trace: Trace)
    ensures OnlyStamps(st.workloads, Run(codec, cooldown, st, trace).workloads, Attempted(trace))
    decreases trace
  {
    if trace.Then? {
      var mid := Run(codec, cooldown, st, trace.before);
      RunOnlyStamps(codec, cooldown, st, trace.before);
      if trace.action.Attempt? {
        var ref := trace.action.ref;
        AttemptFrame(codec, cooldown, mid, ref, trace.action.env);
        var o := AnnotateStep(codec, cooldown, mid, ref, trace.action.env).1;
        if o.Stamped? {
          StampStaysStamp(st.workloads[ref], mid.workloads[ref], codec.format(o.at / SECOND));
        }
      }
    }
  }

  /** The stored restart time that an error-free outcome leaves behind. */
  function StoredBy(o: Outcome): Instant {
    match o
    case Stamped(at) => Trunc(at)
    case CoolingDown(last, _) => last
    case _ => 0
  }

  /** The outcome is no error, and a stamp in it can be spelled. */
  predicate Fine(o: Outcome) {
    o != Outcome.Failed && (o.Stamped? ==> Formattable(o.at))
  }

  lemma FineStepLeavesStamp(codec: Rfc3339, cooldown: Duration, st: Store, ref: ObjRef, env: AnnotateEnv)
    requires RoundTrips(codec) && ref.kind in WORKLOAD_KINDS && Fine(AnnotateStep(codec, cooldown, st, ref, env).1)
    ensures var (st', o) := AnnotateStep(codec, cooldown, st, ref, env);
            && ref in st'.workloads && RestartedAt(codec, st'.workloads[ref]) == StoredBy(o) != 0
            && StampsOrIsFresh(cooldown, o)
            && forall other :: other != ref && other in st.workloads ==>
                 other in st'.workloads && st'.workloads[other] == st.workloads[other]
  {
    AttemptFrame(codec, cooldown, st, ref, env);
    var o := AnnotateStep(codec, cooldown, st, ref, env).1;
    if o.Stamped? {
      StampIsRead(codec, st.workloads[ref], o.at);
    } else {
      SaturationIsHarmless(o.at, o.last, cooldown);
    }
  }

  /** A stamp was written, or one younger than the cooldown was found. */
  predicate StampsOrIsFresh(cooldown: Duration, o: Outcome) {
    o.Stamped? || (o.CoolingDown? && o.last != 0 && o.at - o.last < cooldown)
  }

  /** Each workload was stamped or fresh at its attempt, and carries the stamp that its outcome tells. */
  ghost predicate AllCarry(codec: Rfc3339, cooldown: Duration, docs: map<ObjRef, Json>, workloads: seq<ObjRef>,
                           outcomes: seq<Outcome>)
    requires |outcomes| == |workloads|
  {
    forall i :: 0 <= i < |outcomes| ==>
      && StampsOrIsFresh(cooldown, outcomes[i])
      && workloads[i] in docs && StoredBy(outcomes[i]) != 0
      && RestartedAt(codec, docs[workloads[i]]) == StoredBy(outcomes[i])
  }

  lemma OneMoreCarries(codec: Rfc3339, cooldown: Duration, docs: map<ObjRef, Json>, docs': map<ObjRef, Json>,
                       workloads: seq<ObjRef>, outcomes: seq<Outcome>, ref: ObjRef, o: Outcome)
    requires |outcomes| == |workloads| && ref !in workloads
    requires AllCarry(codec, cooldown, docs, workloads, outcomes) && StampsOrIsFresh(cooldown, o)
    requires forall other :: other != ref && other in docs ==> other in docs' && docs'[other] == docs[other]
    requires ref in docs' && RestartedAt(codec, docs'[ref]) == StoredBy(o) != 0
    ensures AllCarry(codec, cooldown, docs', workloads + [ref], outcomes + [o])
  {
  }

  ghost predicate AllFine(outcomes: seq<Outcome>) {
    forall i :: 0 <= i < |outcomes| ==> Fine(outcomes[i])
  }

  lemma AllFineParts(outcomes: seq<Outcome>, o: Outcome)
    requires AllFine(outcomes + [o])
    ensures AllFine(outcomes) && Fine(o)
  {
    assert (outcomes + [o])[|outcomes|] == o;
    assert forall i :: 0 <= i < |outcomes| ==> (outcomes + [o])[i] == outcomes[i];
  }

  ghost predicate OnceEach(workloads: seq<ObjRef>) {
    Distinct(workloads) && forall ref :: ref in workloads ==> ref.kind in WORKLOAD_KINDS
  }

  lemma OnceEachParts(workloads: seq<ObjRef>, ref: ObjRef)
    requires OnceEach(workloads + [ref])
    ensures OnceEach(workloads) && ref !in workloads && ref.kind in WORKLOAD_KINDS
  {
    var all := workloads + [ref];
    assert all[|workloads|] == ref;
    assert forall i :: 0 <= i < |workloads| ==> all[i] == workloads[i];
  }

  /**
   After a run that attempts each workload at most once and without an error, each was stamped at its
   attempt or had a stamp younger than the cooldown then, and still carries that stamp.
   */
  lemma {:induction false} RunLeavesStamps(codec: Rfc3339, cooldown: Duration, st: Store, trace: Trace)
    requires RoundTrips(codec) && OnceEach(Attempted(trace)) && AllFine(Outcomes(codec, cooldown, st, trace))
    ensures AllCarry(codec, cooldown, Run(codec, cooldown, st, trace).workloads, Attempted(trace),
                     Outcomes(codec, cooldown, st, trace))
    decreases trace
  {
    match trace
    case Start =>
    case Then(before, Pause(_)) =>
      RunLeavesStamps(codec, cooldown, st, before);
    case Then(before, Attempt(ref, env)) =>
      var mid, outcomes := Run(codec, cooldown, st, before), Outcomes(codec, cooldown, st, before);
      var o := AnnotateStep(codec, cooldown, mid, ref, env).1;
      OnceEachParts(Attempted(before), ref);
      AllFineParts(outcomes, o);
      RunLeavesStamps(codec, cooldown, st, before);
      FineStepLeavesStamp(codec, cooldown, mid, ref, env);
      OneMoreCarries(codec, cooldown, mid.workloads, Run(codec, cooldown, st, trace).workloads, Attempted(before),
                     outcomes, ref, o);
  }

  // ---- the reconciler

  class IstioChangeReconciler {
    const client: ApiServer
    const annotator: WorkloadAnnotator
    const webhookCaller: Option<Webhook>
    const dryRun: bool
    const compareHub: bool
    const restartDelay: Duration
    const istiodConfigReadDelay: Duration
    const skipNamespaces: seq<string>

    constructor (client: ApiServer, webhookCaller: Option<Webhook>, codec: Rfc3339, dryRun: bool, compareHub: bool,
                 restartDelay: Duration, istiodConfigReadDelay: Duration, annotationCooldown: Duration,
                 skipNamespaces: seq<string>)
      ensures this.client == client && Valid()
      ensures this.webhookCaller == webhookCaller && this.dryRun == dryRun && this.compareHub == compareHub
      ensures this.restartDelay == restartDelay && this.istiodConfigReadDelay == istiodConfigReadDelay
      ensures this.skipNamespaces == skipNamespaces
      ensures annotator.annotationCooldown == annotationCooldown && annotator.codec == codec
    {
      this.client := client;
      this.annotator := new WorkloadAnnotator(client, annotationCooldown, codec);
      this.webhookCaller := webhookCaller;
      this.dryRun := dryRun;
      this.compareHub := compareHub;
      this.restartDelay := restartDelay;
      this.istiodConfigReadDelay := istiodConfigReadDelay;
      this.skipNamespaces := skipNamespaces;
    }

    ghost predicate Valid() {
      annotator.client == client
    }

    ghost function RunFrom(st: Store, trace: Trace): Store {
      Run(annotator.codec, annotator.annotationCooldown, st, trace)
    }

    method WaitOrContextDone(d: nat, w: WaitResult) returns (err: bool)
      modifies client`clock
      ensures err <==> w.Cancelled?
      ensures client.clock == old(client.clock) + if err then w.after else d + w.extra
    {
      match w
      case Elapsed(extra) =>
        client.Elapse(d + extra);
        err := false;
      case Cancelled(after) =>
        client.Elapse(after);
        err := true;
    }

    method AwaitIstiodConfigReadDelay(w: WaitResult) returns (err: bool)
      modifies client`clock
      ensures err <==> istiodConfigReadDelay > 0 && w.Cancelled?
      ensures client.clock >= old(client.clock)
      ensures !err ==> TriggerQueue.Waited(old(client.clock), client.clock, istiodConfigReadDelay)
      ensures istiodConfigReadDelay <= 0 ==> client.clock == old(client.clock)
    {
      if istiodConfigReadDelay <= 0 {
        return false;
      }
      err := WaitOrContextDone(istiodConfigReadDelay, w);
    }

    /**
     `turns` workloads are attempted, or only logged in a dry run; fewer than all only when a wait is
     cancelled. `before` is what happened since the store was `st`.
     */
    method AnnotateWorkloadsWithDelay(workloads: seq<ObjRef>, env: PassEnv, ghost st: Store, ghost before: Trace)
      returns (ghost turns: nat, ghost trace: Trace)
      requires Valid() && client.View() == RunFrom(st, before)
      modifies client
      ensures EndsAfter(Pass(before, dryRun, restartDelay, workloads, env), turns, trace)
      ensures client.View() == RunFrom(st, trace)
      ensures client.cluster == old(client.cluster).(workloads := client.cluster.workloads)
    {
      turns, trace := 0, before;
      ghost var p := Pass(before, dryRun, restartDelay, workloads, env);
      for i := 0 to |workloads|
        invariant turns == i && trace == PassTrace(p, i)
        invariant forall k: nat :: k < i && Waits(p, k) ==> env.waits(k).Elapsed?
        invariant client.View() == RunFrom(st, trace)
        invariant client.cluster == old(client.cluster).(workloads := client.cluster.workloads)
      {
        if i > 0 && restartDelay > 0 {
          var err := WaitOrContextDone(restartDelay, env.waits(i));
          if err {
            trace := Then(trace, Pause(env.waits(i).after));
            return;
          }
        }
        trace := Wait(p, trace, i);
        assert client.View() == RunFrom(st, trace);
        if !dryRun {
          var annotated, failed := annotator.Annotate(workloads[i], env.attempts(i));
        }
        trace := Turn(p, trace, i);
        assert client.View() == RunFrom(st, trace);
        turns := i + 1;
      }
    }

    /** `reconcileAll` up to the annotations: wait, list, scan. */
    method Scan(limit: seq<string>, env: PassEnv) returns (r: Result<seq<ObjRef>>)
      requires webhookCaller.Some? ==> TraversalsEnd(client.cluster, Options(limit))
      modifies client`clock
      ensures client.clock >= old(client.clock)
      ensures r.Err? <==> Fails(client.cluster, limit, env)
      ensures r.Ok? ==> TriggerQueue.Waited(old(client.clock), client.clock, istiodConfigReadDelay)
      ensures r.Ok? ==>
                ScansTo(client.cluster, webhookCaller,
                        ScanOptions(compareHub, istiodConfigReadDelay, skipNamespaces, limit), r.value)
    {
      var err := AwaitIstiodConfigReadDelay(env.await);
      if err {
        return Err;
      }
      var lastModifiedByRevision := CM.BuildLastModifiedByRevision(client.cluster);
      if lastModifiedByRevision.Err? {
        return Err;
      }
      var tags := TW.FetchTagToRevisionAndLastModified(client.cluster);
      if tags.Err? {
        return Err;
      }
      var cfg := IstioConfig(lastModifiedByRevision.value, tags.value.0, tags.value.1);
      ghost var listed;
      r, listed := ScanOutdatedPods(client.cluster, webhookCaller, cfg, Options(limit));
      assert r.Ok? ==> Scanned(client.cluster, webhookCaller, cfg, Options(limit), listed, r.value);
    }

    function Options(limit: seq<string>): ScanOptions {
      ScanOptions(compareHub, istiodConfigReadDelay, skipNamespaces, limit)
    }

    /** A pass fails when its first wait is cancelled, or when a list does. */
    ghost predicate Fails(c: Cluster, limit: seq<string>, env: PassEnv) {
      || (istiodConfigReadDelay > 0 && env.await.Cancelled?)
      || ConfigMapList in c.failing || WebhookConfigList in c.failing
      || (webhookCaller.Some? && exists ns :: ns in Listed(limit) && PodList(ns) in c.failing)
    }

    /** The turns of a pass over what was scanned, after a first wait. */
    function PassOver(waited: nat, scanned: seq<ObjRef>, env: PassEnv): Pass {
      Pass(Then(Start, Pause(waited)), dryRun, restartDelay, scanned, env)
    }

    /**
     A whole pass: wait at least the istiod delay, scan with the config of the lists, then the turns over what
     was found.
     */
    ghost predicate IsPassOver(c: Cluster, limit: seq<string>, env: PassEnv, waited: nat, scanned: seq<ObjRef>,
                               turns: nat, trace: Trace) {
      && waited >= istiodConfigReadDelay
      && ScansTo(c, webhookCaller, Options(limit), scanned)
      && EndsAfter(PassOver(waited, scanned, env), turns, trace)
    }

    ghost predicate IsPass(c: Cluster, limit: seq<string>, env: PassEnv, trace: Trace) {
      exists waited: nat, scanned, turns: nat :: IsPassOver(c, limit, env, waited, scanned, turns, trace)
    }

    lemma PassIsConfined(c: Cluster, limit: seq<string>, env: PassEnv, trace: Trace)
      requires IsPass(c, limit, env, trace)
      ensures OnceEach(Attempted(trace)) && (dryRun ==> Attempted(trace) == [])
      ensures forall ref :: ref in Attempted(trace) ==> Confined(c, Options(limit), ref)
    {
      var waited: nat, scanned, turns: nat :| IsPassOver(c, limit, env, waited, scanned, turns, trace);
      var p := PassOver(waited, scanned, env);
      assert Attempted(p.before) == [];
      var cfg, listed :| Scanned(c, webhookCaller, cfg, Options(limit), listed, scanned);
      PassStaysConfined(c, webhookCaller, cfg, Options(limit), listed, p, turns, trace);
    }

    /** Every attempt of a pass begins after the istiod delay, and they are at least the restart delay apart. */
    lemma PassIsDelayed(c: Cluster, limit: seq<string>, env: PassEnv, st: Store, trace: Trace)
      requires IsPass(c, limit, env, trace)
      ensures Delayed(AttemptTimes(annotator.codec, annotator.annotationCooldown, st, trace), restartDelay)
      ensures forall t :: t in AttemptTimes(annotator.codec, annotator.annotationCooldown, st, trace) ==>
                TriggerQueue.Waited(st.clock, t, istiodConfigReadDelay)
    {
      var waited: nat, scanned, turns: nat :| IsPassOver(c, limit, env, waited, scanned, turns, trace);
      var p := PassOver(waited, scanned, env);
      RunOfPause(annotator.codec, annotator.annotationCooldown, st, waited);
      AttemptsAreDelayed(annotator.codec, annotator.annotationCooldown, p, st, turns, trace);
    }

    /**
     After a pass without errors, every workload that it attempted carries a stamp, written or younger than
     the cooldown at its turn.
     */
    lemma PassLeavesStamps(c: Cluster, limit: seq<string>, env: PassEnv, st: Store, trace: Trace)
      requires IsPass(c, limit, env, trace) && RoundTrips(annotator.codec)
      requires AllFine(Outcomes(annotator.codec, annotator.annotationCooldown, st, trace))
      ensures AllCarry(annotator.codec, annotator.annotationCooldown, RunFrom(st, trace).workloads, Attempted(trace),
                       Outcomes(annotator.codec, annotator.annotationCooldown, st, trace))
    {
      PassIsConfined(c, limit, env, trace);
      RunLeavesStamps(annotator.codec, annotator.annotationCooldown, st, trace);
    }

    /**
     All parts together: in a faithful world whose pods keep the injection of what their workloads select, a live pass
     that is not cancelled attempts exactly the namespaces and names that the full scan reports, and after it without
     errors each carries a stamp, written or younger than the cooldown at its turn. When every change had its latency,
     these are exactly the names of workloads with a pod that runs another sidecar than the last config injects.
     */
    lemma PassServesFullScan(w: World, limit: seq<string>, env: PassEnv, st: Store, trace: Trace)
      requires webhookCaller == Some(w.webhook) && w.opts == Options(limit) && !dryRun
      requires Faithful(w) && Kept(w) && IsListing(w.c, w.opts.limitToNamespaces, w.pods)
      requires IsPass(w.c, limit, env, trace) && forall i: nat :: env.waits(i).Elapsed?
      requires RoundTrips(annotator.codec)
      requires AllFine(Outcomes(annotator.codec, annotator.annotationCooldown, st, trace))
      ensures Names(Attempted(trace)) == Names(ScanResult(w.c, w.webhook, WithoutTimes(w.cfg), w.opts, w.pods))
      ensures Settled(w) ==> forall name :: name in Names(Attempted(trace)) <==> OutdatedName(w, name)
      ensures AllCarry(annotator.codec, annotator.annotationCooldown, RunFrom(st, trace).workloads, Attempted(trace),
                       Outcomes(annotator.codec, annotator.annotationCooldown, st, trace))
    {
      var waited: nat, scanned, turns: nat :| IsPassOver(w.c, limit, env, waited, scanned, turns, trace);
      var p := PassOver(waited, scanned, env);
      assert Attempted(p.before) == [];
      PassAttemptsPrefix(p, turns);
      assert scanned[..|scanned|] == scanned;
      assert Attempted(trace) == scanned;
      ScansAgree(w, scanned);
      SkipRefinesFullScan(w);
      if Settled(w) {
        FullScanReportsOutdated(w);
      }
      PassLeavesStamps(w.c, limit, env, st, trace);
    }

    lemma FinishPass(c: Cluster, c': Cluster, limit: seq<string>, env: PassEnv, st: Store, trace: Trace)
      requires IsPass(c, limit, env, trace)
      requires c' == c.(workloads := c'.workloads) && st.workloads == c.workloads
      requires c'.workloads == RunFrom(st, trace).workloads
      ensures OnlyConfinedStamps(c, c', Options(limit))
      ensures Distinct(Attempted(trace)) && (dryRun ==> Attempted(trace) == [])
    {
      PassIsConfined(c, limit, env, trace);
      RunIsConfined(annotator.codec, annotator.annotationCooldown, st, trace, c, c', Options(limit));
    }

    /** One full or limited pass. An error means that nothing was annotated. */
    method ReconcileAll(limit: seq<string>, env: PassEnv) returns (err: bool, ghost trace: Trace)
      requires Valid() && (webhookCaller.Some? ==> TraversalsEnd(client.cluster, Options(limit)))
      modifies client
      ensures client.View() == RunFrom(old(client.View()), trace)
      ensures err <==> Fails(old(client.cluster), limit, env)
      ensures !err ==> IsPass(old(client.cluster), limit, env, trace)
      ensures err || dryRun ==> Attempted(trace) == []
      ensures Distinct(Attempted(trace))
      ensures OnlyConfinedStamps(old(client.cluster), client.cluster, Options(limit))
    {
      ghost var st, c := client.View(), client.cluster;
      var scanned := Scan(limit, env);
      trace := Then(Start, Pause(client.clock - st.clock));
      RunOfPause(annotator.codec, annotator.annotationCooldown, st, client.clock - st.clock);
      if scanned.Err? {
        err := true;
      } else {
        ghost var turns;
        ghost var waited, before := client.clock - st.clock, trace;
        turns, trace := AnnotateWorkloadsWithDelay(scanned.value, env, st, before);
        assert IsPassOver(c, limit, env, waited, scanned.value, turns, trace);
        FinishPass(c, client.cluster, limit, env, st, trace);
        err := false;
      }
    }

    /** Routing: a namespace request touches only its namespace, an unhandled one nothing. */
    method Reconcile(req: Request, env: PassEnv) returns (err: bool, ghost trace: Trace)
      requires Valid()
      requires !Route(req).Unhandled? && webhookCaller.Some? ==>
                TraversalsEnd(client.cluster, Options(Limit(Route(req))))
      modifies client
      ensures client.View() == RunFrom(old(client.View()), trace)
      ensures Route(req).Unhandled? ==> !err && trace == Start
      ensures !Route(req).Unhandled? ==>
                && (err <==> Fails(old(client.cluster), Limit(Route(req)), env))
                && (!err ==> IsPass(old(client.cluster), Limit(Route(req)), env, trace))
      ensures Touches(old(client.cluster), client.cluster, skipNamespaces, Route(req))
    {
      ghost var c := client.cluster;
      match Route(req)
      case AllNamespaces =>
        err, trace := ReconcileAll([], env);
        ConfinedTouches(c, client.cluster, Options([]), Route(req));
      case OneNamespace(ns) =>
        err, trace := ReconcileAll([ns], env);
        ConfinedTouches(c, client.cluster, Options([ns]), Route(req));
      case Unhandled =>
        err, trace := false, Start;
    }
  }

  lemma RunOfPause(codec: Rfc3339, cooldown: Duration, st: Store, took: nat)
    ensures Run(codec, cooldown, st, Then(Start, Pause(took))) == st.(clock := st.clock + took)
    ensures Attempted(Then(Start, Pause(took))) == []
  {
    assert Run(codec, cooldown, st, Start) == st;
  }

  // ---- confinement

  /** What a scan returns, the config it used, and the pods it saw. */
  ghost predicate Scanned(c: Cluster, webhookCaller: Option<Webhook>, cfg: IstioConfig, opts: ScanOptions,
                          listed: seq<Pod>, r: seq<ObjRef>) {
    && BuiltFrom(c, cfg)
    && (webhookCaller.None? ==> r == [])
    && (webhookCaller.Some? ==> ScannedWith(c, webhookCaller.value, cfg, opts, listed, r))
  }

  ghost predicate ScansTo(c: Cluster, webhookCaller: Option<Webhook>, opts: ScanOptions, r: seq<ObjRef>) {
    exists cfg, listed :: Scanned(c, webhookCaller, cfg, opts, listed, r)
  }

  ghost predicate ScannedWith(c: Cluster, webhook: Webhook, cfg: IstioConfig, opts: ScanOptions, listed: seq<Pod>,
                              r: seq<ObjRef>) {
    IsListing(c, opts.limitToNamespaces, listed) && r == ScanResult(c, webhook, cfg, opts, listed)
  }

  /** The lists determine the config of a scan, and the names that it reports. */
  lemma ScansAgree(w: World, scanned: seq<ObjRef>)
    requires ScansTo(w.c, Some(w.webhook), w.opts, scanned) && BuiltFrom(w.c, w.cfg)
    requires IsListing(w.c, w.opts.limitToNamespaces, w.pods)
    ensures Names(scanned) == Names(ScanResult(w.c, w.webhook, w.cfg, w.opts, w.pods))
  {
    var cfg, listed :| Scanned(w.c, Some(w.webhook), cfg, w.opts, listed, scanned);
    NewestIsUnique(CM.Changes(w.c.configMaps), cfg.lastModifiedByRevision, w.cfg.lastModifiedByRevision);
    assert cfg == w.cfg;
    assert multiset(listed) == multiset(w.pods);
    NamesIgnoreOrder(w.c, w.webhook, w.cfg, w.opts, listed, w.pods);
  }

  /** The workload shares its namespace with a pod, is in scope, and is not in a skipped namespace. */
  ghost predicate Confined(c: Cluster, opts: ScanOptions, ref: ObjRef) {
    && (exists pod :: pod in c.pods && pod.ns == ref.ns)
    && InScope(opts.limitToNamespaces, ref.ns) && !Skipped(opts, ref.ns)
    && ref in c.workloads && ref.kind in WORKLOAD_KINDS
  }

  lemma ScannedIsConfined(c: Cluster, webhook: Webhook, cfg: IstioConfig, opts: ScanOptions, listed: seq<Pod>,
                          r: seq<ObjRef>)
    requires ScannedWith(c, webhook, cfg, opts, listed, r)
    ensures Distinct(r)
    ensures forall ref :: ref in r ==> Confined(c, opts, ref)
  {
    ScanSpecification(c, webhook, cfg, opts, listed);
    forall ref | ref in r ensures Confined(c, opts, ref) {
      ScanStaysInNamespaces(c, webhook, cfg, opts, listed, ref);
      var pod :| pod in listed && pod.ns == ref.ns;
      assert multiset(listed)[pod] > 0;
      assert multiset(c.pods)[pod] > 0;
    }
  }

  lemma PassStaysConfined(c: Cluster, webhookCaller: Option<Webhook>, cfg: IstioConfig, opts: ScanOptions,
                          listed: seq<Pod>, p: Pass, turns: nat, trace: Trace)
    requires Scanned(c, webhookCaller, cfg, opts, listed, p.workloads)
    requires Attempted(p.before) == [] && EndsAfter(p, turns, trace)
    ensures OnceEach(Attempted(trace)) && (p.dryRun ==> Attempted(trace) == [])
    ensures forall ref :: ref in Attempted(trace) ==> Confined(c, opts, ref)
  {
    if webhookCaller.Some? {
      ScannedIsConfined(c, webhookCaller.value, cfg, opts, listed, p.workloads);
    }
    PassAttemptsPrefix(p, turns);
    assert Attempted(trace) == if p.dryRun then [] else p.workloads[..turns];
    assert OnceEach(p.workloads);
    OnceEachPrefix(p.workloads, turns);
  }

  lemma OnceEachPrefix(workloads: seq<ObjRef>, n: nat)
    requires OnceEach(workloads) && n <= |workloads|
    ensures OnceEach(workloads[..n])
  {
  }

  /** A cluster changes only by restart stamps on confined workloads. */
  ghost predicate OnlyConfinedStamps(c: Cluster, c': Cluster, opts: ScanOptions) {
    && c' == c.(workloads := c'.workloads) && c'.workloads.Keys == c.workloads.Keys
    && forall ref :: ref in c.workloads && c'.workloads[ref] != c.workloads[ref] ==>
         SameButStamp(c.workloads[ref], c'.workloads[ref]) && Confined(c, opts, ref)
  }

  lemma RunIsConfined(codec: Rfc3339, cooldown: Duration, st: Store, trace: Trace, c: Cluster, c': Cluster,
                      opts: ScanOptions)
    requires st.workloads == c.workloads && c'.workloads == Run(codec, cooldown, st, trace).workloads
    requires c' == c.(workloads := c'.workloads)
    requires forall ref :: ref in Attempted(trace) ==> Confined(c, opts, ref)
    ensures OnlyConfinedStamps(c, c', opts)
  {
    RunOnlyStamps(codec, cooldown, st, trace);
  }

  /**
   What a reconciliation may touch: restart stamps of workloads that share their namespace with a
   pod, outside the skipped namespaces, and inside the namespace of the request if it has one.
   */
  ghost predicate Touches(c: Cluster, c': Cluster, skipNamespaces: seq<string>, scope: Scope) {
    && c' == c.(workloads := c'.workloads) && c'.workloads.Keys == c.workloads.Keys
    && forall ref :: ref in c.workloads && c'.workloads[ref] != c.workloads[ref] ==>
         && SameButStamp(c.workloads[ref], c'.workloads[ref])
         && !(ref.ns != "" && ref.ns in skipNamespaces)
         && (exists pod :: pod in c.pods && pod.ns == ref.ns)
         && !scope.Unhandled? && (scope.OneNamespace? ==> ref.ns == scope.ns)
  }

  lemma ConfinedTouches(c: Cluster, c': Cluster, opts: ScanOptions, scope: Scope)
    requires OnlyConfinedStamps(c, c', opts) && !scope.Unhandled?
    requires scope.OneNamespace? ==> opts.limitToNamespaces == [scope.ns] && scope.ns != ""
    ensures Touches(c, c', opts.skipNamespaces, scope)
  {
  }
}
