/**
 From a pod to the workload that restarts it: the recursion over controller references. The
 source recurses without a visited set, so the model counts nested calls: `OutOfDepth` means
 that more than the allowed number of calls would have to be nested.
 */
module Owners {
  import opened Prelude
  import opened Cluster

  datatype OwnerResult = NoOwner | Owner(ref: ObjRef) | ReadError

  datatype Walk = OutOfDepth | Done(result: OwnerResult)

  predicate IsController(o: OwnerRef) {
    o.controller == Some(true)
  }

  function GetWorkloadRef(c: Cluster, ref: ObjRef): OwnerResult {
    match Get(c, c.workloads, ref)
    case Found(_) => Owner(ref)
    case NotFound => NoOwner
    case Unreadable => ReadError
  }

  function FindWorkloadOwner(c: Cluster, ns: string, owners: seq<OwnerRef>, depth: nat): Walk
    decreases depth, |owners|, 2
  {
    if depth == 0 then OutOfDepth else FirstOwner(c, ns, owners, 0, depth)
  }

  /** The loop of `findWorkloadOwner` from index `k` on. */
  function FirstOwner(c: Cluster, ns: string, owners: seq<OwnerRef>, k: nat, depth: nat): Walk
    requires k <= |owners| && depth > 0
    decreases depth, |owners| - k, 1
  {
    if k == |owners| then Done(NoOwner)
    else if !IsController(owners[k]) then FirstOwner(c, ns, owners, k + 1, depth)
    else
      var w := ResolveOwner(c, ns, owners[k], depth);
      if w == Done(NoOwner) then FirstOwner(c, ns, owners, k + 1, depth) else w
  }

  function ResolveOwner(c: Cluster, ns: string, o: OwnerRef, depth: nat): Walk
    requires depth > 0
    decreases depth, 0, 0
  {
    var ref := ObjRef(ns, o.name, o.kind);
    if o.kind in WORKLOAD_KINDS then Done(GetWorkloadRef(c, ref))
    else if o.kind in INTERMEDIATE_KINDS then
      match Get(c, c.intermediates, ref)
      case Found(next) => FindWorkloadOwner(c, ns, next, depth - 1)
      case NotFound => Done(NoOwner)
      case Unreadable => Done(ReadError)
    else Done(NoOwner)
  }

  /** The traversal of the source, which `NestingBound` and `TraversalEnds` justify. */
  function OwnerOf(c: Cluster, pod: Pod): Walk {
    FindWorkloadOwner(c, pod.ns, pod.owners, |c.intermediates| + 1)
  }

  // ---- what is found: the first hit in depth-first order

  /**
   An address is a list of indices into owner lists, from a pod upwards. It hits what stands
   there: an existing workload, or an object that cannot be read.
   */
  function Hit(c: Cluster, ns: string, owners: seq<OwnerRef>, address: seq<nat>): OwnerResult
    decreases |address|
  {
    if address == [] || address[0] >= |owners| || !IsController(owners[address[0]]) then NoOwner
    else
      var o := owners[address[0]];
      var ref := ObjRef(ns, o.name, o.kind);
      if o.kind in WORKLOAD_KINDS then
        if |address| == 1 then GetWorkloadRef(c, ref) else NoOwner
      else if o.kind in INTERMEDIATE_KINDS then
        match Get(c, c.intermediates, ref)
        case Found(next) => Hit(c, ns, next, address[1..])
        case NotFound => NoOwner
        case Unreadable => if |address| == 1 then ReadError else NoOwner
      else NoOwner
  }

  /** Depth-first order of addresses. */
  predicate Before(a: seq<nat>, b: seq<nat>) {
    b != [] && (a == [] || a[0] < b[0] || (a[0] == b[0] && Before(a[1..], b[1..])))
  }

  /** `address` is the first hit among the addresses that start at index `k` or later. */
  ghost predicate FirstHit(c: Cluster, ns: string, owners: seq<OwnerRef>, k: nat, address: seq<nat>, r: OwnerResult) {
    && address != [] && address[0] >= k
    && r != NoOwner && Hit(c, ns, owners, address) == r
    && forall b: seq<nat> :: b != [] && b[0] >= k && Before(b, address) ==> Hit(c, ns, owners, b) == NoOwner
  }

  ghost predicate NoHit(c: Cluster, ns: string, owners: seq<OwnerRef>, k: nat) {
    forall b: seq<nat> :: b != [] && b[0] >= k ==> Hit(c, ns, owners, b) == NoOwner
  }

  ghost predicate Explains(c: Cluster, ns: string, owners: seq<OwnerRef>, k: nat, r: OwnerResult) {
    if r == NoOwner then NoHit(c, ns, owners, k)
    else exists address: seq<nat> :: FirstHit(c, ns, owners, k, address, r)
  }

  lemma {:induction false} WalkIsExplained(c: Cluster, ns: string, owners: seq<OwnerRef>, depth: nat)
    requires FindWorkloadOwner(c, ns, owners, depth).Done?
    ensures Explains(c, ns, owners, 0, FindWorkloadOwner(c, ns, owners, depth).result)
    decreases depth, |owners|, 2
  {
    LoopIsExplained(c, ns, owners, 0, depth);
  }

  lemma {:induction false} LoopIsExplained(c: Cluster, ns: string, owners: seq<OwnerRef>, k: nat, depth: nat)
    requires k <= |owners| && depth > 0 && FirstOwner(c, ns, owners, k, depth).Done?
    ensures Explains(c, ns, owners, k, FirstOwner(c, ns, owners, k, depth).result)
    decreases depth, |owners| - k, 1
  {
    if k < |owners| {
      var r := if IsController(owners[k]) then ResolveOwner(c, ns, owners[k], depth) else Done(NoOwner);
      ReferenceIsExplained(c, ns, owners, k, depth);
      if r == Done(NoOwner) {
        LoopIsExplained(c, ns, owners, k + 1, depth);
        var rest := FirstOwner(c, ns, owners, k + 1, depth).result;
        if rest != NoOwner {
          var a: seq<nat> :| FirstHit(c, ns, owners, k + 1, a, rest);
          assert FirstHit(c, ns, owners, k, a, rest);
        }
      }
    }
  }

  /** Every hit below the reference at index `k` is explained by what that reference resolves to. */
  lemma {:induction false} ReferenceIsExplained(c: Cluster, ns: string, owners: seq<OwnerRef>, k: nat, depth: nat)
    requires k < |owners| && depth > 0
    requires IsController(owners[k]) ==> ResolveOwner(c, ns, owners[k], depth).Done?
    ensures var r := if IsController(owners[k]) then ResolveOwner(c, ns, owners[k], depth).result else NoOwner;
            if r == NoOwner then forall b: seq<nat> :: b != [] && b[0] == k ==> Hit(c, ns, owners, b) == NoOwner
            else exists a: seq<nat> :: FirstHit(c, ns, owners, k, a, r) && a[0] == k
    decreases depth, 0, 0
  {
    var o := owners[k];
    var ref := ObjRef(ns, o.name, o.kind);
    if IsController(o) {
      var r := ResolveOwner(c, ns, o, depth).result;
      if o.kind !in WORKLOAD_KINDS && o.kind in INTERMEDIATE_KINDS && Get(c, c.intermediates, ref).Found? {
        var next := c.intermediates[ref];
        WalkIsExplained(c, ns, next, depth - 1);
        if r == NoOwner {
          forall b: seq<nat> | b != [] && b[0] == k ensures Hit(c, ns, owners, b) == NoOwner {
            assert b[1..] == [] || Hit(c, ns, next, b[1..]) == NoOwner;
          }
        } else {
          var a: seq<nat> :| FirstHit(c, ns, next, 0, a, r);
          assert ([k] + a)[1..] == a;
          assert FirstHit(c, ns, owners, k, [k] + a, r);
        }
      } else if r != NoOwner {
        assert FirstHit(c, ns, owners, k, [k], r);
      }
    }
  }

  ghost predicate NothingReachable(c: Cluster, ns: string, owners: seq<OwnerRef>) {
    forall address: seq<nat> :: Hit(c, ns, owners, address) == NoOwner
  }

  ghost predicate IsFirst(c: Cluster, ns: string, owners: seq<OwnerRef>, address: seq<nat>, r: OwnerResult) {
    && Hit(c, ns, owners, address) == r
    && forall b: seq<nat> :: Before(b, address) ==> Hit(c, ns, owners, b) == NoOwner
  }

  /**
   A traversal that ends returns what stands at the first address, in depth-first order, that
   holds an existing workload or an unreadable object; it returns nothing exactly when no address does.
   */
  lemma FirstInDepthFirstOrder(c: Cluster, ns: string, owners: seq<OwnerRef>, depth: nat)
    requires FindWorkloadOwner(c, ns, owners, depth).Done?
    ensures var r := FindWorkloadOwner(c, ns, owners, depth).result;
            && (r == NoOwner <==> NothingReachable(c, ns, owners))
            && (r != NoOwner ==> exists a: seq<nat> :: IsFirst(c, ns, owners, a, r))
  {
    WalkIsExplained(c, ns, owners, depth);
    var r := FindWorkloadOwner(c, ns, owners, depth).result;
    assert Hit(c, ns, owners, []) == NoOwner;
    if r == NoOwner {
      forall a: seq<nat> ensures Hit(c, ns, owners, a) == NoOwner {
        assert a == [] || a[0] >= 0;
      }
    } else {
      var a: seq<nat> :| FirstHit(c, ns, owners, 0, a, r);
      forall b: seq<nat> | Before(b, a) ensures Hit(c, ns, owners, b) == NoOwner {
        assert b == [] || b[0] >= 0;
      }
      assert IsFirst(c, ns, owners, a, r);
    }
  }

  /** What is found lives in the namespace where the traversal started, exists, and is a workload. */
  lemma OwnerStaysInNamespace(c: Cluster, ns: string, owners: seq<OwnerRef>, depth: nat)
    requires FindWorkloadOwner(c, ns, owners, depth).Done? && FindWorkloadOwner(c, ns, owners, depth).result.Owner?
    ensures var ref := FindWorkloadOwner(c, ns, owners, depth).result.ref;
            ref.ns == ns && ref.kind in WORKLOAD_KINDS && ref in c.workloads && ref !in c.unreadable
  {
    WalkIsExplained(c, ns, owners, depth);
    var r := FindWorkloadOwner(c, ns, owners, depth).result;
    var a: seq<nat> :| FirstHit(c, ns, owners, 0, a, r);
    HitStaysInNamespace(c, ns, owners, a);
  }

  lemma {:induction false} HitStaysInNamespace(c: Cluster, ns: string, owners: seq<OwnerRef>, a: seq<nat>)
    requires Hit(c, ns, owners, a).Owner?
    ensures var ref := Hit(c, ns, owners, a).ref;
            ref.ns == ns && ref.kind in WORKLOAD_KINDS && ref in c.workloads && ref !in c.unreadable
    decreases |a|
  {
    var o := owners[a[0]];
    if o.kind !in WORKLOAD_KINDS {
      HitStaysInNamespace(c, ns, c.intermediates[ObjRef(ns, o.name, o.kind)], a[1..]);
    }
  }

  // ---- which references count

  /** The references that say they are the controller, in order. */
  function Controllers(owners: seq<OwnerRef>): seq<OwnerRef> {
    if owners == [] then []
    else (if owners[0].controller == Some(true) then [owners[0]] else []) + Controllers(owners[1..])
  }

  /** The cluster without any other reference at any intermediate. */
  function OnlyControllers(c: Cluster): Cluster {
    c.(intermediates := map ref | ref in c.intermediates :: Controllers(c.intermediates[ref]))
  }

  /** The loop does not look back. */
  lemma {:induction false} LoopFromSuffix(c: Cluster, ns: string, a: seq<OwnerRef>, b: seq<OwnerRef>,
                                          k: nat, depth: nat)
    requires k <= |b| && depth > 0
    ensures FirstOwner(c, ns, a + b, |a| + k, depth) == FirstOwner(c, ns, b, k, depth)
    decreases |b| - k
  {
    if k < |b| {
      LoopFromSuffix(c, ns, a, b, k + 1, depth);
    }
  }

  lemma FirstThenRest(c: Cluster, ns: string, o: OwnerRef, rest: seq<OwnerRef>, depth: nat)
    requires depth > 0
    ensures FindWorkloadOwner(c, ns, [o] + rest, depth)
         == if o.controller != Some(true) || ResolveOwner(c, ns, o, depth) == Done(NoOwner)
            then FindWorkloadOwner(c, ns, rest, depth)
            else ResolveOwner(c, ns, o, depth)
  {
    LoopFromSuffix(c, ns, [o], rest, 0, depth);
  }

  /** References that are not the controller never count: neither at the start nor at any intermediate. */
  lemma {:induction false} OnlyControllersCount(c: Cluster, ns: string, owners: seq<OwnerRef>, depth: nat)
    ensures FindWorkloadOwner(OnlyControllers(c), ns, Controllers(owners), depth)
         == FindWorkloadOwner(c, ns, owners, depth)
    decreases depth, |owners|
  {
    if depth > 0 && owners != [] {
      var o, rest := owners[0], owners[1..];
      assert owners == [o] + rest;
      OnlyControllersCount(c, ns, rest, depth);
      FirstThenRest(c, ns, o, rest, depth);
      if o.controller == Some(true) {
        assert Controllers(owners) == [o] + Controllers(rest);
        FirstThenRest(OnlyControllers(c), ns, o, Controllers(rest), depth);
        var ref := ObjRef(ns, o.name, o.kind);
        if ref in c.intermediates {
          OnlyControllersCount(c, ns, c.intermediates[ref], depth - 1);
        }
        assert ResolveOwner(OnlyControllers(c), ns, o, depth) == ResolveOwner(c, ns, o, depth);
      } else {
        assert Controllers(owners) == Controllers(rest);
      }
    }
  }

  /** So a pod has the same owner when all other references are removed from the cluster. */
  lemma OwnerIgnoresOtherReferences(c: Cluster, pod: Pod)
    ensures OwnerOf(OnlyControllers(c), pod.(owners := Controllers(pod.owners))) == OwnerOf(c, pod)
  {
    assert OnlyControllers(c).intermediates.Keys == c.intermediates.Keys;
    OnlyControllersCount(c, pod.ns, pod.owners, |c.intermediates| + 1);
  }

  lemma {:induction false} OthersArePassed(c: Cluster, ns: string, others: seq<OwnerRef>, rest: seq<OwnerRef>,
                                           depth: nat)
    requires forall o :: o in others ==> o.controller != Some(true)
    requires depth > 0
    ensures FindWorkloadOwner(c, ns, others + rest, depth) == FindWorkloadOwner(c, ns, rest, depth)
  {
    if others == [] {
      assert others + rest == rest;
    } else {
      var tail := others[1..];
      assert others + rest == [others[0]] + (tail + rest);
      FirstThenRest(c, ns, others[0], tail + rest, depth);
      OthersArePassed(c, ns, tail, rest, depth);
    }
  }

  /** What the controller reference `o` stands for decides, unless it leads nowhere; then the rest does. */
  lemma FirstControllerDecides(c: Cluster, ns: string, others: seq<OwnerRef>, o: OwnerRef, rest: seq<OwnerRef>,
                               depth: nat)
    requires forall p :: p in others ==> p.controller != Some(true)
    requires o.controller == Some(true) && depth > 0
    ensures var ref := ObjRef(ns, o.name, o.kind);
            var found := FindWorkloadOwner(c, ns, others + [o] + rest, depth);
            var after := FindWorkloadOwner(c, ns, rest, depth);
            && (o.kind in {"Deployment", "StatefulSet", "DaemonSet"} ==>
                  && (ref in c.unreadable ==> found == Done(ReadError))
                  && (ref !in c.unreadable && ref in c.workloads ==> found == Done(Owner(ref)))
                  && (ref !in c.unreadable && ref !in c.workloads ==> found == after))
            && (o.kind in {"ReplicaSet", "ControllerRevision"} ==>
                  && (ref in c.unreadable ==> found == Done(ReadError))
                  && (ref !in c.unreadable && ref !in c.intermediates ==> found == after)
                  && (ref !in c.unreadable && ref in c.intermediates ==>
                        var above := FindWorkloadOwner(c, ns, c.intermediates[ref], depth - 1);
                        found == if above == Done(NoOwner) then after else above))
            && (o.kind !in {"Deployment", "StatefulSet", "DaemonSet", "ReplicaSet", "ControllerRevision"} ==>
                  found == after)
  {
    assert others + [o] + rest == others + ([o] + rest);
    OthersArePassed(c, ns, others, [o] + rest, depth);
    FirstThenRest(c, ns, o, rest, depth);
  }

  // ---- when the recursion ends, and how deep it nests

  /** The readable intermediate that the reference at index `k` leads to, if it is a controller reference to one. */
  function Below(c: Cluster, ns: string, owners: seq<OwnerRef>, k: nat): (child: Option<ObjRef>)
    ensures child.Some? ==> child.value in c.intermediates && child.value !in c.unreadable && child.value.ns == ns
  {
    if k >= |owners| || !IsController(owners[k]) then None
    else
      var ref := ObjRef(ns, owners[k].name, owners[k].kind);
      if ref.kind !in WORKLOAD_KINDS && ref.kind in INTERMEDIATE_KINDS && Get(c, c.intermediates, ref).Found?
      then Some(ref)
      else None
  }

  /** Every index of the address leads to a readable intermediate. */
  predicate Descends(c: Cluster, ns: string, owners: seq<OwnerRef>, a: seq<nat>)
    decreases |a|
  {
    a != [] ==>
      var child := Below(c, ns, owners, a[0]);
      child.Some? && Descends(c, ns, c.intermediates[child.value], a[1..])
  }

  /** The intermediates along an address. */
  function Nodes(c: Cluster, ns: string, owners: seq<OwnerRef>, a: seq<nat>): (nodes: seq<ObjRef>)
    requires Descends(c, ns, owners, a)
    ensures |nodes| == |a|
    ensures forall x :: x in nodes ==> x in c.intermediates
    decreases |a|
  {
    if a == [] then []
    else
      var child := Below(c, ns, owners, a[0]).value;
      [child] + Nodes(c, ns, c.intermediates[child], a[1..])
  }

  /** The traversal must go down this address: nothing is hit before it. */
  ghost predicate Deep(c: Cluster, ns: string, owners: seq<OwnerRef>, a: seq<nat>) {
    && Descends(c, ns, owners, a)
    && forall b: seq<nat> :: Before(b, a) ==> Hit(c, ns, owners, b) == NoOwner
  }

  /** Before anything is hit, the traversal comes to an intermediate that it is already inside of. */
  ghost predicate RunsIntoCycle(c: Cluster, ns: string, owners: seq<OwnerRef>) {
    exists a: seq<nat> :: Deep(c, ns, owners, a) && !Distinct(Nodes(c, ns, owners, a))
  }

  /** An address below index `k` that is missed by all addresses before it which start at `k` or later. */
  ghost predicate DeepFrom(c: Cluster, ns: string, owners: seq<OwnerRef>, k: nat, a: seq<nat>) {
    && a != [] && a[0] >= k && Descends(c, ns, owners, a)
    && forall b: seq<nat> :: b != [] && b[0] >= k && Before(b, a) ==> Hit(c, ns, owners, b) == NoOwner
  }

  /** A traversal that needs more calls than it may nest is as many calls down a deep address. */
  lemma {:induction false} WalkDeep(c: Cluster, ns: string, owners: seq<OwnerRef>, depth: nat) returns (a: seq<nat>)
    requires FindWorkloadOwner(c, ns, owners, depth) == OutOfDepth
    ensures |a| == depth && Deep(c, ns, owners, a)
    decreases depth, |owners|, 2
  {
    a := [];
    if depth > 0 {
      a := LoopDeep(c, ns, owners, 0, depth);
      forall b: seq<nat> | Before(b, a) ensures Hit(c, ns, owners, b) == NoOwner {
        assert b == [] || b[0] >= 0;
      }
    }
  }

  lemma {:induction false} LoopDeep(c: Cluster, ns: string, owners: seq<OwnerRef>, k: nat, depth: nat)
    returns (a: seq<nat>)
    requires k <= |owners| && depth > 0 && FirstOwner(c, ns, owners, k, depth) == OutOfDepth
    ensures |a| == depth && DeepFrom(c, ns, owners, k, a)
    decreases depth, |owners| - k, 1
  {
    var o := owners[k];
    if IsController(o) && ResolveOwner(c, ns, o, depth) == OutOfDepth {
      var child := Below(c, ns, owners, k).value;
      var rest := WalkDeep(c, ns, c.intermediates[child], depth - 1);
      a := [k] + rest;
      assert a[1..] == rest;
    } else {
      ReferenceIsExplained(c, ns, owners, k, depth);
      a := LoopDeep(c, ns, owners, k + 1, depth);
    }
  }

  /**
   A traversal that ends passes the references before a deep address and ends, with one call less, below its
   first index.
   */
  lemma {:induction false} DeepLoop(c: Cluster, ns: string, owners: seq<OwnerRef>, k: nat, d: nat, a: seq<nat>)
    requires d > 0 && Deep(c, ns, owners, a) && a != [] && k <= a[0] && FirstOwner(c, ns, owners, k, d).Done?
    ensures FindWorkloadOwner(c, ns, c.intermediates[Below(c, ns, owners, a[0]).value], d - 1).Done?
    decreases a[0] - k
  {
    if k < a[0] {
      ReferenceIsExplained(c, ns, owners, k, d);
      forall b: seq<nat> | b != [] && b[0] == k ensures Hit(c, ns, owners, b) == NoOwner {
        assert Before(b, a);
      }
      DeepLoop(c, ns, owners, k + 1, d, a);
    }
  }

  lemma DeepBelow(c: Cluster, ns: string, owners: seq<OwnerRef>, a: seq<nat>)
    requires Deep(c, ns, owners, a) && a != []
    ensures var child := Below(c, ns, owners, a[0]).value;
            && Deep(c, ns, c.intermediates[child], a[1..])
            && Nodes(c, ns, owners, a) == [child] + Nodes(c, ns, c.intermediates[child], a[1..])
  {
    var child := Below(c, ns, owners, a[0]).value;
    forall b: seq<nat> | Before(b, a[1..]) ensures Hit(c, ns, c.intermediates[child], b) == NoOwner {
      assert ([a[0]] + b)[1..] == b;
      assert Before([a[0]] + b, a);
    }
  }

  /** A traversal that ends also ends from every intermediate of a deep address, with as many calls less. */
  lemma {:induction false} EndsBelow(c: Cluster, ns: string, owners: seq<OwnerRef>, a: seq<nat>, d: nat, i: nat)
    requires Deep(c, ns, owners, a) && i < |a| && FindWorkloadOwner(c, ns, owners, d).Done?
    ensures d > i + 1
    ensures var node := Nodes(c, ns, owners, a)[i];
            && FindWorkloadOwner(c, ns, c.intermediates[node], d - 1 - i).Done?
            && Deep(c, ns, c.intermediates[node], a[i + 1..])
            && Nodes(c, ns, c.intermediates[node], a[i + 1..]) == Nodes(c, ns, owners, a)[i + 1..]
    decreases i
  {
    DeepLoop(c, ns, owners, 0, d, a);
    DeepBelow(c, ns, owners, a);
    if i > 0 {
      var child := Below(c, ns, owners, a[0]).value;
      EndsBelow(c, ns, c.intermediates[child], a[1..], d - 1, i - 1);
      assert a[1..][i..] == a[i + 1..];
    }
  }

  /** From an intermediate that a deep address comes back to, no traversal ends. */
  lemma {:induction false} NoEndFromCycle(c: Cluster, ns: string, x: ObjRef, a: seq<nat>, m: nat, d: nat)
    requires x in c.intermediates && Deep(c, ns, c.intermediates[x], a) && m < |a|
    requires Nodes(c, ns, c.intermediates[x], a)[m] == x
    ensures !FindWorkloadOwner(c, ns, c.intermediates[x], d).Done?
    decreases d
  {
    if FindWorkloadOwner(c, ns, c.intermediates[x], d).Done? {
      EndsBelow(c, ns, c.intermediates[x], a, d, m);
      NoEndFromCycle(c, ns, x, a, m, d - 1 - m);
    }
  }

  lemma RepeatNeverEnds(c: Cluster, ns: string, owners: seq<OwnerRef>, a: seq<nat>, i: nat, j: nat, d: nat)
    requires Deep(c, ns, owners, a) && i < j < |a| && Nodes(c, ns, owners, a)[i] == Nodes(c, ns, owners, a)[j]
    ensures FindWorkloadOwner(c, ns, owners, d) == OutOfDepth
  {
    if FindWorkloadOwner(c, ns, owners, d).Done? {
      var nodes := Nodes(c, ns, owners, a);
      EndsBelow(c, ns, owners, a, d, i);
      assert nodes[i + 1..][j - i - 1] == nodes[j];
      NoEndFromCycle(c, ns, nodes[i], a[i + 1..], j - i - 1, d - 1 - i);
    }
  }

  lemma CycleNeverEnds(c: Cluster, ns: string, owners: seq<OwnerRef>, d: nat)
    requires RunsIntoCycle(c, ns, owners)
    ensures FindWorkloadOwner(c, ns, owners, d) == OutOfDepth
  {
    var a: seq<nat> :| Deep(c, ns, owners, a) && !Distinct(Nodes(c, ns, owners, a));
    var i, j :| 0 <= i < j < |a| && Nodes(c, ns, owners, a)[i] == Nodes(c, ns, owners, a)[j];
    RepeatNeverEnds(c, ns, owners, a, i, j, d);
  }

  /** Some number of nested calls is enough. */
  ghost predicate Ends(c: Cluster, ns: string, owners: seq<OwnerRef>) {
    exists d: nat :: FindWorkloadOwner(c, ns, owners, d).Done?
  }

  /**
   The traversal ends exactly when it does not run into a cycle before its first hit; and if it ends,
   it does so within one nested call per intermediate and one for the pod.
   */
  lemma EndsIffNoCycleIsMet(c: Cluster, ns: string, owners: seq<OwnerRef>)
    ensures Ends(c, ns, owners) <==> !RunsIntoCycle(c, ns, owners)
    ensures FindWorkloadOwner(c, ns, owners, |c.intermediates| + 1).Done? <==> Ends(c, ns, owners)
  {
    var bound := |c.intermediates| + 1;
    if RunsIntoCycle(c, ns, owners) {
      forall d: nat ensures FindWorkloadOwner(c, ns, owners, d) == OutOfDepth {
        CycleNeverEnds(c, ns, owners, d);
      }
    } else {
      if FindWorkloadOwner(c, ns, owners, bound) == OutOfDepth {
        var a := WalkDeep(c, ns, owners, bound);
        assert Distinct(Nodes(c, ns, owners, a));
        DistinctFits(Nodes(c, ns, owners, a), c.intermediates.Keys);
      }
      assert FindWorkloadOwner(c, ns, owners, bound).Done?;
    }
  }

  lemma {:induction false} MoreDepthSameResult(c: Cluster, ns: string, owners: seq<OwnerRef>, d: nat, e: nat)
    requires d <= e && FindWorkloadOwner(c, ns, owners, d).Done?
    ensures FindWorkloadOwner(c, ns, owners, e) == FindWorkloadOwner(c, ns, owners, d)
    decreases d, |owners|, 2
  {
    MoreDepthSameLoop(c, ns, owners, 0, d, e);
  }

  lemma {:induction false} MoreDepthSameLoop(c: Cluster, ns: string, owners: seq<OwnerRef>, k: nat, d: nat, e: nat)
    requires k <= |owners| && 0 < d <= e && FirstOwner(c, ns, owners, k, d).Done?
    ensures FirstOwner(c, ns, owners, k, e) == FirstOwner(c, ns, owners, k, d)
    decreases d, |owners| - k, 1
  {
    if k < |owners| {
      var o := owners[k];
      var ref := ObjRef(ns, o.name, o.kind);
      if Below(c, ns, owners, k).Some? {
        MoreDepthSameResult(c, ns, c.intermediates[ref], d - 1, e - 1);
      }
      if !IsController(o) || ResolveOwner(c, ns, o, d) == Done(NoOwner) {
        MoreDepthSameLoop(c, ns, owners, k + 1, d, e);
      }
    }
  }

  /** Whatever number of nested calls lets the recursion end, its result is the one within the bound. */
  lemma NestingBound(c: Cluster, ns: string, owners: seq<OwnerRef>, depth: nat)
    requires FindWorkloadOwner(c, ns, owners, depth).Done?
    ensures FindWorkloadOwner(c, ns, owners, |c.intermediates| + 1) == FindWorkloadOwner(c, ns, owners, depth)
  {
    var bound := |c.intermediates| + 1;
    EndsIffNoCycleIsMet(c, ns, owners);
    if depth <= bound {
      MoreDepthSameResult(c, ns, owners, depth, bound);
    } else {
      MoreDepthSameResult(c, ns, owners, bound, depth);
    }
  }

  // ---- two corollaries

  /** A controller reference of the owner list leads to the readable intermediate `child`. */
  ghost predicate LeadsTo(c: Cluster, ns: string, owners: seq<OwnerRef>, child: ObjRef) {
    exists k: nat :: k < |owners| && Below(c, ns, owners, k) == Some(child)
  }

  ghost predicate IsPath(c: Cluster, path: seq<ObjRef>) {
    && (forall i :: 0 <= i < |path| ==> path[i] in c.intermediates)
    && forall i, j :: 0 <= i && j == i + 1 && j < |path| ==> LeadsTo(c, path[i].ns, c.intermediates[path[i]], path[j])
  }

  ghost predicate IsCycle(c: Cluster, path: seq<ObjRef>) {
    IsPath(c, path) && |path| >= 2 && path[0] == path[|path| - 1]
  }

  /** No intermediate reaches itself over controller references. */
  ghost predicate Acyclic(c: Cluster) {
    forall path :: !IsCycle(c, path)
  }

  lemma {:induction false} NodesArePath(c: Cluster, ns: string, owners: seq<OwnerRef>, a: seq<nat>)
    requires Descends(c, ns, owners, a)
    ensures IsPath(c, Nodes(c, ns, owners, a))
    ensures a != [] ==> LeadsTo(c, ns, owners, Nodes(c, ns, owners, a)[0])
    decreases |a|
  {
    if a != [] {
      var child := Below(c, ns, owners, a[0]).value;
      NodesArePath(c, ns, c.intermediates[child], a[1..]);
    }
  }

  lemma PartOfPath(c: Cluster, path: seq<ObjRef>, i: nat, j: nat)
    requires IsPath(c, path) && i <= j <= |path|
    ensures IsPath(c, path[i..j])
  {
    var part := path[i..j];
    forall k | 0 <= k < |part| ensures part[k] in c.intermediates {
      assert part[k] == path[i + k];
    }
    forall k, l | 0 <= k && l == k + 1 && l < |part| ensures LeadsTo(c, part[k].ns, c.intermediates[part[k]], part[l]) {
      assert part[k] == path[i + k] && part[l] == path[i + l];
    }
  }

  /** On a graph without any cycle of controller references every traversal ends. */
  lemma TraversalEnds(c: Cluster, ns: string, owners: seq<OwnerRef>)
    requires Acyclic(c)
    ensures FindWorkloadOwner(c, ns, owners, |c.intermediates| + 1).Done?
  {
    EndsIffNoCycleIsMet(c, ns, owners);
    if RunsIntoCycle(c, ns, owners) {
      var a: seq<nat> :| Deep(c, ns, owners, a) && !Distinct(Nodes(c, ns, owners, a));
      var nodes := Nodes(c, ns, owners, a);
      var i, j :| 0 <= i < j < |nodes| && nodes[i] == nodes[j];
      NodesArePath(c, ns, owners, a);
      PartOfPath(c, nodes, i, j + 1);
      assert IsCycle(c, nodes[i..j + 1]);
    }
  }

  /**
   A ReplicaSet whose first reference is a controller reference to itself keeps the recursion going, whatever
   other references it has.
   */
  lemma SelfOwnerNeverEnds(c: Cluster, rs: ObjRef, depth: nat)
    requires rs.kind == "ReplicaSet" && rs in c.intermediates && rs !in c.unreadable
    requires c.intermediates[rs] != [] && c.intermediates[rs][0] == OwnerRef("ReplicaSet", rs.name, Some(true))
    ensures FindWorkloadOwner(c, rs.ns, c.intermediates[rs], depth) == OutOfDepth
  {
    var owners := c.intermediates[rs];
    assert ObjRef(rs.ns, owners[0].name, owners[0].kind) == rs;
    assert Below(c, rs.ns, owners, 0) == Some(rs);
    var a: seq<nat> := [0];
    assert a[1..] == [];
    forall b: seq<nat> | Before(b, a) ensures Hit(c, rs.ns, owners, b) == NoOwner {
      assert b == [] || (b[0] == 0 && Before(b[1..], []));
    }
    assert Nodes(c, rs.ns, owners, a) == [rs] + Nodes(c, rs.ns, owners, []);
    NoEndFromCycle(c, rs.ns, rs, a, 0, depth);
  }
}
