/**
 Whole runs of the annotator: any sequence of pauses and attempts, on any workloads, with any
 outcomes. No one else writes the store, and reads see the last patch. How often a workload restarts.
 */
module Runs {
  import opened Prelude
  import opened Json
  import opened Cluster
  import opened Annotator

  datatype Action = Pause(took: nat) | Attempt(ref: ObjRef, env: AnnotateEnv)

  ghost function Step(codec: Rfc3339, cooldown: Duration, st: Store, a: Action): Store {
    match a
    case Pause(took) => st.(clock := st.clock + took)
    case Attempt(ref, env) => AnnotateStep(codec, cooldown, st, ref, env).0
  }

  /** A run, latest action last. */
  datatype Trace = Start | Then(before: Trace, action: Action)

  ghost function Run(codec: Rfc3339, cooldown: Duration, st: Store, trace: Trace): Store {
    match trace
    case Start => st
    case Then(before, a) => Step(codec, cooldown, Run(codec, cooldown, st, before), a)
  }

  function Concat(a: Trace, b: Trace): Trace {
    match b
    case Start => a
    case Then(before, action) => Then(Concat(a, before), action)
  }

  /** Runs compose: what holds of every run holds of any number of passes, one after the other. */
  lemma {:induction false} RunOfConcat(codec: Rfc3339, cooldown: Duration, st: Store, a: Trace, b: Trace)
    ensures Run(codec, cooldown, st, Concat(a, b)) == Run(codec, cooldown, Run(codec, cooldown, st, a), b)
    decreases b
  {
    if b.Then? {
      RunOfConcat(codec, cooldown, st, a, b.before);
    }
  }

  /** The stamp, if any, that an action writes to the workload `ref`. */
  ghost function NewStamps(codec: Rfc3339, cooldown: Duration, st: Store, a: Action, ref: ObjRef): seq<Instant> {
    if a.Attempt? && a.ref == ref then
      match AnnotateStep(codec, cooldown, st, ref, a.env).1
      case Stamped(at) => [at]
      case _ => []
    else []
  }

  /** The instants at which a run stamps a workload. */
  ghost function StampsOf(codec: Rfc3339, cooldown: Duration, st: Store, trace: Trace, ref: ObjRef): seq<Instant> {
    match trace
    case Start => []
    case Then(before, a) =>
      StampsOf(codec, cooldown, st, before, ref) + NewStamps(codec, cooldown, Run(codec, cooldown, st, before), a, ref)
  }

  // ---- one step

  /** What an attempt does: the clock never goes back, and only its workload's document may change, by a stamp. */
  lemma AttemptFrame(codec: Rfc3339, cooldown: Duration, st: Store, ref: ObjRef, env: AnnotateEnv)
    ensures var (st', o) := AnnotateStep(codec, cooldown, st, ref, env);
            && st.clock <= st'.clock
            && (o.Stamped? ==>
                  && ref in st.workloads && st.clock <= o.at <= st'.clock
                  && st'.workloads
                     == st.workloads[ref := MergePatch(st.workloads[ref], RestartPatch(codec.format(o.at / SECOND)))])
            && (!o.Stamped? ==> st'.workloads == st.workloads)
  {
  }

  /** A stamp is written only when the stored one is older than the cooldown. */
  lemma StampAfterCooldown(codec: Rfc3339, cooldown: Duration, st: Store, ref: ObjRef, env: AnnotateEnv)
    requires cooldown > 0 && AnnotateStep(codec, cooldown, st, ref, env).1.Stamped?
    requires RestartedAt(codec, st.workloads[ref]) != 0
    ensures RestartedAt(codec, st.workloads[ref]) + cooldown <= AnnotateStep(codec, cooldown, st, ref, env).1.at
  {
    SaturationIsHarmless(st.clock + env.readTook, RestartedAt(codec, st.workloads[ref]), cooldown);
  }

  // ---- spacing

  ghost predicate AllFormattable(stamps: seq<Instant>) {
    forall x: Instant :: x in stamps ==> Formattable(x)
  }

  /** After its first stamp of the run, a workload carries its latest stamp, to the second. */
  ghost predicate CarriesLastStamp(codec: Rfc3339, st: Store, ref: ObjRef, stamps: seq<Instant>) {
    stamps != [] ==>
      && ref in st.workloads && RestartedAt(codec, st.workloads[ref]) == Trunc(stamps[|stamps| - 1])
      && stamps[|stamps| - 1] <= st.clock
  }

  /**
   Consecutive stamps are in order, at least the whole seconds of the cooldown apart, and really less than a
   second short of it.
   */
  ghost predicate Spaced(stamps: seq<Instant>, cooldown: Duration) {
    forall i, j :: 0 <= i && j == i + 1 && j < |stamps| ==>
      && stamps[i] <= stamps[j]
      && stamps[j] / SECOND - stamps[i] / SECOND >= cooldown / SECOND
      && stamps[j] - stamps[i] > cooldown - SECOND
  }

  lemma NextStampIsSpaced(codec: Rfc3339, cooldown: Duration, st: Store, a: Action, ref: ObjRef, stamps: seq<Instant>)
    requires CarriesLastStamp(codec, st, ref, stamps) && Spaced(stamps, cooldown) && AllFormattable(stamps)
    ensures Spaced(stamps + NewStamps(codec, cooldown, st, a, ref), cooldown)
  {
    if stamps != [] && NewStamps(codec, cooldown, st, a, ref) != [] {
      var at := NewStamps(codec, cooldown, st, a, ref)[0];
      AttemptFrame(codec, cooldown, st, ref, a.env);
      var last := stamps[|stamps| - 1];
      assert last in stamps;
      if cooldown > 0 {
        StampAfterCooldown(codec, cooldown, st, ref, a.env);
      }
      OneMoreSpaced(stamps, at, cooldown);
    }
  }

  lemma OneMoreSpaced(stamps: seq<Instant>, at: Instant, cooldown: Duration)
    requires Spaced(stamps, cooldown) && stamps != [] && stamps[|stamps| - 1] <= at
    requires cooldown > 0 ==> Trunc(stamps[|stamps| - 1]) + cooldown <= at
    ensures Spaced(stamps + [at], cooldown)
  {
    WholeSecondsApart(stamps[|stamps| - 1], at, cooldown);
  }

  /** A step either adds a stamp, which is then the one carried, or leaves the carried one alone. */
  lemma StepCarries(codec: Rfc3339, cooldown: Duration, st: Store, a: Action, ref: ObjRef, stamps: seq<Instant>)
    requires RoundTrips(codec) && CarriesLastStamp(codec, st, ref, stamps)
    requires AllFormattable(NewStamps(codec, cooldown, st, a, ref))
    ensures CarriesLastStamp(codec, Step(codec, cooldown, st, a), ref, stamps + NewStamps(codec, cooldown, st, a, ref))
  {
    if a.Attempt? {
      AttemptFrame(codec, cooldown, st, a.ref, a.env);
      if NewStamps(codec, cooldown, st, a, ref) != [] {
        var at := NewStamps(codec, cooldown, st, a, ref)[0];
        assert at in NewStamps(codec, cooldown, st, a, ref);
        StampIsRead(codec, st.workloads[ref], at);
      }
    }
  }

  lemma WholeSecondsApart(last: Instant, at: Instant, cooldown: Duration)
    requires last <= at && (cooldown > 0 ==> Trunc(last) + cooldown <= at)
    ensures at / SECOND - last / SECOND >= cooldown / SECOND
    ensures at - last > cooldown - SECOND
  {
  }

  /**
   Restart spacing over every run and for every cooldown: with a round-tripping timestamp format,
   consecutive stamps of a workload are in order, at least floor(cooldown) whole seconds apart, and more
   than the cooldown less one second of real time.
   */
  lemma {:induction false} StampsAreSpaced(codec: Rfc3339, cooldown: Duration, st: Store, trace: Trace, ref: ObjRef)
    requires RoundTrips(codec)
    requires AllFormattable(StampsOf(codec, cooldown, st, trace, ref))
    ensures Spaced(StampsOf(codec, cooldown, st, trace, ref), cooldown)
    ensures CarriesLastStamp(codec, Run(codec, cooldown, st, trace), ref, StampsOf(codec, cooldown, st, trace, ref))
    decreases trace
  {
    match trace
    case Start =>
    case Then(before, a) =>
      var mid := Run(codec, cooldown, st, before);
      var stamps, more := StampsOf(codec, cooldown, st, before, ref), NewStamps(codec, cooldown, mid, a, ref);
      assert forall x: Instant :: x in stamps || x in more ==> x in stamps + more;
      StampsAreSpaced(codec, cooldown, st, before, ref);
      StepCarries(codec, cooldown, mid, a, ref, stamps);
      NextStampIsSpaced(codec, cooldown, mid, a, ref, stamps);
  }

  // ---- rate

  /** The whole seconds of stamps, as they are written. */
  function Seconds(stamps: seq<Instant>): seq<int> {
    seq(|stamps|, i requires 0 <= i < |stamps| => stamps[i] / SECOND)
  }

  /** How many of the seconds lie between `from` and `to`. */
  function CountIn(seconds: seq<int>, from: int, to: int): nat {
    if seconds == [] then 0
    else
      CountIn(seconds[..|seconds| - 1], from, to) + if from <= seconds[|seconds| - 1] <= to then 1 else 0
  }

  /** The positions of the seconds that lie between `from` and `to`. */
  function Within(seconds: seq<int>, from: int, to: int): set<int> {
    set i | 0 <= i < |seconds| && from <= seconds[i] <= to
  }

  lemma {:induction false} CountIsCardinality(seconds: seq<int>, from: int, to: int)
    ensures CountIn(seconds, from, to) == |Within(seconds, from, to)|
  {
    if seconds != [] {
      var k := |seconds| - 1;
      CountIsCardinality(seconds[..k], from, to);
      assert Within(seconds, from, to) == Within(seconds[..k], from, to) + if from <= seconds[k] <= to then {k} else {};
    }
  }

  ghost predicate Apart(seconds: seq<int>, gap: nat) {
    forall i, j :: 0 <= i && j == i + 1 && j < |seconds| ==> seconds[j] - seconds[i] >= gap
  }

  lemma {:induction false} ApartFromLast(seconds: seq<int>, gap: nat)
    requires Apart(seconds, gap) && |seconds| >= 1
    ensures forall i :: 0 <= i < |seconds| - 1 ==> seconds[i] <= seconds[|seconds| - 1] - gap
    decreases |seconds|
  {
    if |seconds| >= 2 {
      ApartFromLast(seconds[..|seconds| - 1], gap);
      assert seconds[|seconds| - 1] - seconds[|seconds| - 2] >= gap;
    }
  }

  lemma {:induction false} CountUpToBound(seconds: seq<int>, from: int, to: int, bound: int)
    requires forall i :: 0 <= i < |seconds| ==> seconds[i] <= bound
    requires bound <= to
    ensures CountIn(seconds, from, to) == CountIn(seconds, from, bound)
  {
    if seconds != [] {
      CountUpToBound(seconds[..|seconds| - 1], from, to, bound);
    }
  }

  lemma {:induction false} CountBelow(seconds: seq<int>, gap: nat, from: int, to: int)
    requires Apart(seconds, gap) && gap >= 1
    ensures CountIn(seconds, from, to) >= 1 ==> (CountIn(seconds, from, to) - 1) * gap <= to - from
    decreases |seconds|
  {
    if seconds != [] {
      var front, last := seconds[..|seconds| - 1], seconds[|seconds| - 1];
      if from <= last <= to {
        ApartFromLast(seconds, gap);
        CountUpToBound(front, from, to, last - gap);
        CountBelow(front, gap, from, last - gap);
        OneMoreGap(CountIn(front, from, to), gap, last - from);
      } else {
        CountBelow(front, gap, from, to);
      }
    }
  }

  lemma OneMoreGap(n: nat, gap: nat, span: int)
    requires n >= 1 ==> (n - 1) * gap <= span - gap
    ensures n >= 1 ==> n * gap <= span
  {
    assert n * gap == (n - 1) * gap + gap;
  }

  lemma CancelFactor(a: int, b: int, factor: nat)
    requires a * factor < b * factor
    ensures a < b
  {
  }

  lemma QuotientBound(n: nat, gap: nat, window: nat)
    requires gap >= 1 && (n >= 1 ==> (n - 1) * gap <= window)
    ensures n <= window / gap + 1
  {
    assert window < (window / gap + 1) * gap;
    if n >= 1 {
      CancelFactor(n - 1, window / gap + 1, gap);
    }
  }

  lemma FewWithin(seconds: seq<int>, gap: nat, from: int, window: nat)
    requires Apart(seconds, gap) && gap >= 1
    ensures |Within(seconds, from, from + window)| <= window / gap + 1
  {
    CountIsCardinality(seconds, from, from + window);
    CountBelow(seconds, gap, from, from + window);
    QuotientBound(CountIn(seconds, from, from + window), gap, window);
  }

  /**
   Restart rate over every run: a window of `window` seconds holds at most window / floor(cooldown) + 1 stamps
   of a workload.
   */
  lemma RestartRate(codec: Rfc3339, cooldown: Duration, st: Store, trace: Trace, ref: ObjRef, from: int, window: nat)
    requires RoundTrips(codec) && cooldown >= SECOND
    requires AllFormattable(StampsOf(codec, cooldown, st, trace, ref))
    ensures |Within(Seconds(StampsOf(codec, cooldown, st, trace, ref)), from, from + window)|
         <= window / (cooldown / SECOND) + 1
  {
    StampsAreSpaced(codec, cooldown, st, trace, ref);
    FewWithin(Seconds(StampsOf(codec, cooldown, st, trace, ref)), cooldown / SECOND, from, window);
  }

  // ---- the bound in real time is sharp

  const ACCEPTING := AnnotateEnv(false, 0, 0, k => Accept, k => false, 0)

  lemma AcceptedStep(codec: Rfc3339, cooldown: Duration, st: Store, ref: ObjRef)
    requires ref in st.workloads && ref.kind in WORKLOAD_KINDS
    requires var last := RestartedAt(codec, st.workloads[ref]);
             cooldown <= 0 || last == 0 || Since(st.clock, last) >= cooldown
    ensures NewStamps(codec, cooldown, st, Attempt(ref, ACCEPTING), ref) == [st.clock]
    ensures Step(codec, cooldown, st, Attempt(ref, ACCEPTING)).clock == st.clock
  {
    assert AcceptedAt(ACCEPTING, 0);
  }

  /** The closest that two stamps of a workload can come in real time. */
  function LeastDistance(cooldown: Duration): nat {
    if cooldown >= SECOND then cooldown - SECOND + 1 else 0
  }

  /** That distance after a stamp in the last nanosecond of its second, the cooldown lets another stamp pass. */
  lemma AcceptedAgain(codec: Rfc3339, cooldown: Duration, st: Store, ref: ObjRef)
    requires ref in st.workloads && ref.kind in WORKLOAD_KINDS
    requires RestartedAt(codec, st.workloads[ref]) == SECOND && st.clock == 2 * SECOND - 1 + LeastDistance(cooldown)
    ensures NewStamps(codec, cooldown, st, Attempt(ref, ACCEPTING), ref) == [st.clock]
  {
    if cooldown > 0 {
      SaturationIsHarmless(st.clock, SECOND, cooldown);
    }
    AcceptedStep(codec, cooldown, st, ref);
  }

  /** For every cooldown some run stamps a workload twice at the closest distance that spacing allows. */
  lemma SpacingIsSharp(codec: Rfc3339, cooldown: Duration, ref: ObjRef) returns (st: Store, trace: Trace)
    requires RoundTrips(codec) && ref.kind in WORKLOAD_KINDS
    ensures AllFormattable(StampsOf(codec, cooldown, st, trace, ref))
    ensures exists first: Instant, second: Instant ::
              StampsOf(codec, cooldown, st, trace, ref) == [first, second] && second - first == LeastDistance(cooldown)
  {
    var first, gap := 2 * SECOND - 1, LeastDistance(cooldown);
    var attempt := Attempt(ref, ACCEPTING);
    st := Store(map[ref := JNull], first);
    assert RestartedAt(codec, JNull) == 0 by {
      NothingBelowNull(RESTARTED_AT_PATH);
    }
    AcceptedStep(codec, cooldown, st, ref);
    StepCarries(codec, cooldown, st, attempt, ref, []);
    var stamped := Then(Start, attempt);
    var waited := Then(stamped, Pause(gap));
    var st' := Run(codec, cooldown, st, waited);
    assert Run(codec, cooldown, st, Start) == st;
    assert Run(codec, cooldown, st, stamped) == Step(codec, cooldown, st, attempt);
    assert st' == Step(codec, cooldown, Step(codec, cooldown, st, attempt), Pause(gap));
    assert RestartedAt(codec, st'.workloads[ref]) == Trunc(first) == SECOND;
    AcceptedAgain(codec, cooldown, st', ref);
    trace := Then(waited, attempt);
    assert StampsOf(codec, cooldown, st, stamped, ref) == [first];
    assert StampsOf(codec, cooldown, st, waited, ref) == [first];
    assert StampsOf(codec, cooldown, st, trace, ref) == [first, first + gap];
  }

  /** Consecutive stamps are really `distance` apart. */
  ghost predicate ReallyApart(stamps: seq<Instant>, distance: int) {
    forall i, j :: 0 <= i && j == i + 1 && j < |stamps| ==> stamps[j] - stamps[i] >= distance
  }

  /** In every run, with stamps that can be spelled, those of the workload are really `distance` apart. */
  ghost predicate AlwaysApart(codec: Rfc3339, cooldown: Duration, ref: ObjRef, distance: int) {
    forall st: Store, trace: Trace :: AllFormattable(StampsOf(codec, cooldown, st, trace, ref)) ==>
      ReallyApart(StampsOf(codec, cooldown, st, trace, ref), distance)
  }

  /** The distances that all runs keep in real time are exactly those up to the least one. */
  lemma AlwaysApartIffLeast(codec: Rfc3339, cooldown: Duration, ref: ObjRef, distance: int)
    requires RoundTrips(codec) && ref.kind in WORKLOAD_KINDS
    ensures AlwaysApart(codec, cooldown, ref, distance) <==> distance <= LeastDistance(cooldown)
  {
    if distance <= LeastDistance(cooldown) {
      forall st: Store, trace: Trace | AllFormattable(StampsOf(codec, cooldown, st, trace, ref))
        ensures ReallyApart(StampsOf(codec, cooldown, st, trace, ref), distance)
      {
        StampsAreSpaced(codec, cooldown, st, trace, ref);
      }
    } else {
      var st, trace := SpacingIsSharp(codec, cooldown, ref);
      var stamps := StampsOf(codec, cooldown, st, trace, ref);
      assert stamps[1] - stamps[0] < distance;
    }
  }

  /** So the cooldown itself is kept in real time exactly when there is none. */
  lemma CooldownIsKeptIffNone(codec: Rfc3339, cooldown: Duration, ref: ObjRef)
    requires RoundTrips(codec) && ref.kind in WORKLOAD_KINDS
    ensures AlwaysApart(codec, cooldown, ref, cooldown) <==> cooldown <= 0
  {
    AlwaysApartIffLeast(codec, cooldown, ref, cooldown);
  }
}
