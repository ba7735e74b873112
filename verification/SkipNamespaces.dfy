/** The comma-separated list of namespaces to skip. */
module SkipNamespaces {
  import opened Prelude

  /** White space as `unicode.IsSpace` has it. */
  predicate IsSpace(c: char) {
    || '\t' <= c <= '\r' || c == ' ' || c == '\U{0085}' || c == '\U{00A0}' || c == '\U{1680}'
    || '\U{2000}' <= c <= '\U{200A}' || c == '\U{2028}' || c == '\U{2029}' || c == '\U{202F}' || c == '\U{205F}'
    || c == '\U{3000}'
  }

  predicate Trimmed(s: string) {
    s == "" || (!IsSpace(s[0]) && !IsSpace(s[|s| - 1]))
  }

  /** Where the first character stands that is not white space. */
  function TextStart(s: string): (k: nat)
    ensures k <= |s| && (forall i :: 0 <= i < k ==> IsSpace(s[i])) && (k < |s| ==> !IsSpace(s[k]))
  {
    if s == "" || !IsSpace(s[0]) then 0 else TextStart(s[1..]) + 1
  }

  /** Where the white space at the end begins. */
  function TextEnd(s: string): (k: nat)
    ensures k <= |s| && (forall i :: k <= i < |s| ==> IsSpace(s[i])) && (k > 0 ==> !IsSpace(s[k - 1]))
  {
    if s == "" || !IsSpace(s[|s| - 1]) then |s| else TextEnd(s[..|s| - 1])
  }

  predicate AllSpace(s: string) {
    forall i :: 0 <= i < |s| ==> IsSpace(s[i])
  }

  /** What is left without white space at the ends. */
  function TrimSpace(s: string): (r: string)
    ensures Trimmed(r)
    ensures exists from, to :: 0 <= from <= to <= |s| && r == s[from..to] && AllSpace(s[..from]) && AllSpace(s[to..])
    ensures Trimmed(s) ==> r == s
    ensures ',' !in s ==> ',' !in r
  {
    var from, to := TextStart(s), TextEnd(s);
    if from < to then s[from..to]
    else
      assert AllSpace(s[..|s|]) && AllSpace(s[|s|..]);
      ""
  }

  function Split(s: string): (parts: seq<string>)
    ensures |parts| >= 1
    ensures forall p :: p in parts ==> ',' !in p
  {
    var i := IndexOf(s, ',');
    if i < 0 then [s] else [s[..i]] + Split(s[i + 1..])
  }

  function Join(names: seq<string>): string {
    if names == [] then ""
    else if |names| == 1 then names[0]
    else names[0] + "," + Join(names[1..])
  }

  function NameOf(part: string): seq<string> {
    if TrimSpace(part) != "" then [TrimSpace(part)] else []
  }

  /** The trimmed parts that are not empty. */
  function Names(parts: seq<string>): seq<string> {
    if parts == [] then [] else NameOf(parts[0]) + Names(parts[1..])
  }

  function Parsed(s: string): seq<string> {
    Names(Split(s))
  }

  method ParseSkipNamespaces(s: string) returns (out: seq<string>)
    ensures out == Parsed(s)
  {
    out := [];
    if s == "" {
      ParsedOfPart("");
      return;
    }
    var parts := Split(s);
    for i := 0 to |parts|
      invariant out + Names(parts[i..]) == Names(parts)
    {
      NamesOfRest(parts, i, out);
      var trimmed := TrimSpace(parts[i]);
      if trimmed != "" {
        out := out + [trimmed];
      }
    }
  }

  lemma NamesOfRest(parts: seq<string>, i: nat, out: seq<string>)
    requires i < |parts|
    ensures out + Names(parts[i..]) == (out + NameOf(parts[i])) + Names(parts[i + 1..])
    ensures TrimSpace(parts[i]) == "" ==> out + NameOf(parts[i]) == out
  {
    assert parts[i..][1..] == parts[i + 1..];
  }

  /** A name that survives parsing: not empty, no comma, no white space at its ends. */
  predicate IsName(s: string) {
    s != "" && ',' !in s && Trimmed(s)
  }

  predicate AllNames(names: seq<string>) {
    forall n :: n in names ==> IsName(n)
  }

  lemma {:induction false} NamesOfConcat(a: seq<string>, b: seq<string>)
    ensures Names(a + b) == Names(a) + Names(b)
    decreases |a|
  {
    if a == [] {
      assert a + b == b;
    } else {
      assert (a + b)[1..] == a[1..] + b;
      NamesOfConcat(a[1..], b);
    }
  }

  lemma SplitStep(first: string, rest: string)
    requires ',' !in first
    ensures Split(first + "," + rest) == [first] + Split(rest)
  {
    var s := first + [','] + rest;
    FirstIndexOfSplit(first, ',', rest);
    assert s[..|first|] == first && s[|first| + 1..] == rest;
  }

  lemma FirstPart(a: string) returns (first: string, rest: string)
    requires ',' in a
    ensures a == first + "," + rest && ',' !in first && |rest| < |a|
  {
    var i := IndexOf(a, ',');
    first, rest := a[..i], a[i + 1..];
  }

  lemma Regroup(first: string, rest: string, b: string)
    ensures first + "," + rest + "," + b == first + "," + (rest + "," + b)
  {
  }

  lemma PrependConcat<T>(first: T, x: seq<T>, y: seq<T>)
    ensures [first] + (x + y) == ([first] + x) + y
  {
  }

  lemma {:induction false} SplitOfConcat(a: string, b: string)
    ensures Split(a + "," + b) == Split(a) + Split(b)
    decreases |a|
  {
    if ',' !in a {
      SplitStep(a, b);
    } else {
      var first, rest := FirstPart(a);
      Regroup(first, rest, b);
      SplitStep(first, rest + "," + b);
      SplitStep(first, rest);
      SplitOfConcat(rest, b);
      PrependConcat(first, Split(rest), Split(b));
    }
  }

  /** Parsing works comma by comma, from left to right. */
  lemma ParsedOfConcat(a: string, b: string)
    ensures Parsed(a + "," + b) == Parsed(a) + Parsed(b)
  {
    SplitOfConcat(a, b);
    NamesOfConcat(Split(a), Split(b));
  }

  /** A part without a comma gives itself, trimmed, or nothing. */
  lemma ParsedOfPart(p: string)
    requires ',' !in p
    ensures Parsed(p) == NameOf(p)
  {
    assert [p][1..] == [];
    assert Names([p]) == NameOf(p) + Names([]);
  }

  lemma {:induction false} NamesAreNames(parts: seq<string>)
    requires forall p :: p in parts ==> ',' !in p
    ensures AllNames(Names(parts))
    decreases |parts|
  {
    if parts != [] {
      assert forall p :: p in parts[1..] ==> p in parts;
      NamesAreNames(parts[1..]);
      assert parts[0] in parts;
    }
  }

  lemma ParsedOfName(name: string)
    requires IsName(name)
    ensures Parsed(name) == [name]
  {
    ParsedOfPart(name);
  }

  lemma AllNamesParts(names: seq<string>)
    requires AllNames(names) && names != []
    ensures IsName(names[0]) && AllNames(names[1..]) && names == [names[0]] + names[1..]
  {
    assert names[0] in names;
    assert forall n :: n in names[1..] ==> n in names;
  }

  lemma {:induction false} ParseUndoesJoin(names: seq<string>)
    requires AllNames(names)
    ensures Parsed(Join(names)) == names
    decreases |names|
  {
    if names == [] {
      ParsedOfPart("");
    } else {
      var first, rest := names[0], names[1..];
      AllNamesParts(names);
      ParsedOfName(first);
      if rest != [] {
        ParseUndoesJoin(rest);
        ParsedOfConcat(first, Join(rest));
      }
    }
  }

  /** Parsing undoes joining exactly for lists of names. */
  lemma JoinParseRoundTrip(names: seq<string>)
    ensures Parsed(Join(names)) == names <==> AllNames(names)
  {
    if AllNames(names) {
      ParseUndoesJoin(names);
    }
    NamesAreNames(Split(Join(names)));
  }

  /** A parsed list is a normal form: joining and parsing it again changes nothing. */
  lemma ParseNormalises(s: string)
    ensures AllNames(Parsed(s)) && Parsed(Join(Parsed(s))) == Parsed(s)
  {
    NamesAreNames(Split(s));
    ParseUndoesJoin(Parsed(s));
  }
}
