/** Small shared vocabulary: options, instants and a few facts about sequences and sets. */
module Prelude {

  datatype Option<+T> = None | Some(value: T)

  datatype Result<+T> = Ok(value: T) | Err

  /** Nanoseconds since Go's zero time (year 1); `IsZero` of the source is `== 0`. */
  type Instant = nat

  const SECOND: nat := 1_000_000_000

  /** What Kubernetes stores of an instant: its whole seconds. */
  function Trunc(t: Instant): Instant {
    t / SECOND * SECOND
  }

  predicate HasPrefix(s: string, prefix: string) {
    prefix <= s
  }

  /** The value Go reads from a `map[string]string`: the empty string when the key is absent. */
  function Label(labels: map<string, string>, key: string): string {
    if key in labels then labels[key] else ""
  }

  function Filter<T(!new)>(s: seq<T>, keep: T -> bool): (r: seq<T>)
    ensures forall x :: x in r <==> x in s && keep(x)
  {
    if s == [] then [] else (if keep(s[0]) then [s[0]] else []) + Filter(s[1..], keep)
  }

  lemma TakeOneMore<T>(s: seq<T>, i: nat)
    requires i < |s|
    ensures s[..i + 1] == s[..i] + [s[i]]
  {
  }

  ghost predicate Distinct<T>(s: seq<T>) {
    forall i, j :: 0 <= i < j < |s| ==> s[i] != s[j]
  }

  /** A sequence without repetition is no longer than the set it draws from. */
  lemma {:induction false} DistinctFits<T>(s: seq<T>, universe: set<T>)
    requires Distinct(s)
    requires forall x :: x in s ==> x in universe
    ensures |s| <= |universe|
  {
    if s != [] {
      var last := s[|s| - 1];
      forall x | x in s[..|s| - 1] ensures x in universe - {last} {
        var i :| 0 <= i < |s| - 1 && s[i] == x;
      }
      DistinctFits(s[..|s| - 1], universe - {last});
    }
  }

  // ---- searching a string

  function IndexOf(s: string, c: char): (i: int)
    ensures i < 0 <==> c !in s
    ensures 0 <= i ==> i < |s| && s[i] == c && forall k :: 0 <= k < i ==> s[k] != c
  {
    if s == [] then -1
    else if s[0] == c then 0
    else
      var i := IndexOf(s[1..], c);
      if i < 0 then -1 else i + 1
  }

  function LastIndexOf(s: string, c: char): (i: int)
    ensures i < 0 <==> c !in s
    ensures 0 <= i ==> i < |s| && s[i] == c && forall k :: i < k < |s| ==> s[k] != c
  {
    if s == [] then -1
    else if s[|s| - 1] == c then |s| - 1
    else LastIndexOf(s[..|s| - 1], c)
  }

  lemma FirstIndexOfSplit(a: string, c: char, b: string)
    requires c !in a
    ensures IndexOf(a + [c] + b, c) == |a|
  {
    FirstIndexIs(a + [c] + b, c, |a|);
  }

  lemma FirstIndexIs(s: string, c: char, i: nat)
    requires i < |s| && s[i] == c && forall k :: 0 <= k < i ==> s[k] != c
    ensures IndexOf(s, c) == i
  {
    assert s[i] in s;
  }

  lemma LastIndexOfSplit(a: string, c: char, b: string)
    requires c !in b
    ensures LastIndexOf(a + [c] + b, c) == |a|
  {
    LastIndexIs(a + [c] + b, c, |a|);
  }

  lemma LastIndexIs(s: string, c: char, i: nat)
    requires i < |s| && s[i] == c && forall k :: i < k < |s| ==> s[k] != c
    ensures LastIndexOf(s, c) == i
  {
    assert s[i] in s;
  }
}
