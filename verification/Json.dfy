/**
 JSON trees, and the merge patch of RFC 7396 that the API server applies to a workload.
 A path is a sequence of object member names.
 */
module Json {
  import opened Prelude

  datatype Json =
    | JNull
    | JBool(b: bool)
    | JNumber(n: real)
    | JString(s: string)
    | JArray(items: seq<Json>)
    | JObject(fields: map<string, Json>)

  function Members(j: Json): map<string, Json> {
    if j.JObject? then j.fields else map[]
  }

  function Member(j: Json, key: string): Json {
    if key in Members(j) then Members(j)[key] else JNull
  }

  /** MergePatch of section 2 of RFC 7396; a missing member is merged as if it were null. */
  function MergePatch(target: Json, patch: Json): Json
    decreases patch
  {
    if !patch.JObject? then patch
    else
      JObject(map k |
                k in Members(target).Keys + patch.fields.Keys
                && !(k in patch.fields && patch.fields[k].JNull?)
                :: if k in patch.fields then MergePatch(Member(target, k), patch.fields[k])
                   else Members(target)[k])
  }

  function At(j: Json, path: seq<string>): Option<Json> {
    if path == [] then Some(j)
    else if path[0] in Members(j) then At(Members(j)[path[0]], path[1..])
    else None
  }

  /** The document with `v` at `path`; whatever is not an object on the way becomes one. */
  function SetAt(j: Json, path: seq<string>, v: Json): Json
    decreases |path|
  {
    if path == [] then v
    else JObject(Members(j)[path[0] := SetAt(Member(j, path[0]), path[1..], v)])
  }

  /** Nested one-member objects that lead to `v`. */
  function PatchFor(path: seq<string>, v: Json): Json {
    if path == [] then v else JObject(map[path[0] := PatchFor(path[1..], v)])
  }

  /** Neither path is a prefix of the other. */
  predicate Diverge(p: seq<string>, q: seq<string>) {
    p != [] && q != [] && (p[0] != q[0] || Diverge(p[1..], q[1..]))
  }

  lemma {:induction false} DivergeFrom(p: seq<string>, q: seq<string>, i: nat)
    requires i < |p| && i < |q| && p[..i] == q[..i] && p[i] != q[i]
    ensures Diverge(p, q)
  {
    if i > 0 {
      assert p[1..][..i - 1] == p[..i][1..] == q[..i][1..] == q[1..][..i - 1];
      DivergeFrom(p[1..], q[1..], i - 1);
    }
  }

  /** Diverging paths still do so, either way round, when one goes on. */
  lemma {:induction false} DivergeLonger(p: seq<string>, more: seq<string>, q: seq<string>)
    requires Diverge(p, q)
    ensures Diverge(p + more, q) && Diverge(q, p + more)
  {
    assert (p + more)[1..] == p[1..] + more;
    if p[0] == q[0] {
      DivergeLonger(p[1..], more, q[1..]);
    }
  }

  lemma PatchForStep(key: string, rest: seq<string>, v: Json)
    ensures PatchFor([key] + rest, v) == JObject(map[key := PatchFor(rest, v)])
  {
    assert ([key] + rest)[1..] == rest;
  }

  lemma {:induction false} MergeIsSetAt(j: Json, path: seq<string>, s: string)
    ensures MergePatch(j, PatchFor(path, JString(s))) == SetAt(j, path, JString(s))
    decreases |path|
  {
    if path != [] {
      MergeIsSetAt(Member(j, path[0]), path[1..], s);
      assert MergePatch(j, PatchFor(path, JString(s))).fields == SetAt(j, path, JString(s)).fields;
    }
  }

  /** A null in the patch removes what it leads to. */
  lemma {:induction false} NullRemoves(j: Json, path: seq<string>)
    requires path != []
    ensures At(MergePatch(j, PatchFor(path, JNull)), path) == None
    decreases |path|
  {
    if |path| > 1 {
      NullRemoves(Member(j, path[0]), path[1..]);
      assert MergePatch(j, PatchFor(path, JNull)).fields[path[0]]
          == MergePatch(Member(j, path[0]), PatchFor(path[1..], JNull));
    }
  }

  lemma {:induction false} SetAtHits(j: Json, path: seq<string>, v: Json)
    ensures At(SetAt(j, path, v), path) == Some(v)
    decreases |path|
  {
    if path != [] {
      SetAtHits(Member(j, path[0]), path[1..], v);
    }
  }

  lemma {:induction false} SetAtFrame(j: Json, path: seq<string>, v: Json, q: seq<string>)
    requires Diverge(path, q)
    ensures At(SetAt(j, path, v), q) == At(j, q)
    decreases |path|
  {
    if path[0] == q[0] {
      SetAtFrame(Member(j, path[0]), path[1..], v, q[1..]);
      if q[0] !in Members(j) {
        NothingBelowNull(q[1..]);
      }
    }
  }

  lemma NothingBelowNull(q: seq<string>)
    requires q != []
    ensures At(JNull, q) == None
  {
  }

  lemma {:induction false} AtOfConcat(j: Json, p: seq<string>, q: seq<string>)
    ensures At(j, p + q) == if At(j, p).Some? then At(At(j, p).value, q) else None
  {
    if p == [] {
      assert p + q == q;
    } else {
      assert (p + q)[1..] == p[1..] + q;
      if p[0] in Members(j) {
        AtOfConcat(Members(j)[p[0]], p[1..], q);
      }
    }
  }

  /** Writing what is there changes nothing. */
  lemma {:induction false} SetAtSame(j: Json, path: seq<string>, v: Json)
    requires At(j, path) == Some(v)
    ensures SetAt(j, path, v) == j
    decreases |path|
  {
    if path != [] {
      SetAtSame(Members(j)[path[0]], path[1..], v);
    }
  }

  /** At a proper prefix of the path sits the old subtree, itself updated along the rest of the path. */
  lemma {:induction false} SetAtAncestor(j: Json, path: seq<string>, v: Json, k: nat)
    requires k < |path|
    ensures At(SetAt(j, path, v), path[..k])
         == Some(SetAt(if At(j, path[..k]).Some? then At(j, path[..k]).value else JNull, path[k..], v))
    decreases |path|
  {
    if k > 0 {
      assert path[..k][1..] == path[1..][..k - 1];
      assert path[1..][k - 1..] == path[k..];
      SetAtAncestor(Member(j, path[0]), path[1..], v, k - 1);
      if path[0] !in Members(j) && k > 1 {
        NothingBelowNull(path[1..][..k - 1]);
      }
    }
  }

  lemma {:induction false} SetAtOverrides(j: Json, path: seq<string>, v: Json, w: Json)
    ensures SetAt(SetAt(j, path, v), path, w) == SetAt(j, path, w)
    decreases |path|
  {
    if path != [] {
      SetAtOverrides(Member(j, path[0]), path[1..], v, w);
    }
  }
}
