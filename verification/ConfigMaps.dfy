/** Istio sidecar injector ConfigMaps: their revision, and when each revision last changed. */
module ConfigMaps {
  import opened Prelude
  import opened Json
  import opened Cluster
  import opened LastModified

  /** The watch filter. */
  predicate Watched(cm: ConfigMap) {
    cm.ns == ISTIO_SYSTEM && HasPrefix(cm.name, SIDECAR_INJECTOR)
  }

  datatype IstioValues = IstioValues(revision: string, hub: string, tag: string, image: string)

  /** A type assertion to string: the string at a member, else empty. */
  function StringAt(j: Json, key: string): string {
    match Member(j, key)
    case JString(s) => s
    case _ => ""
  }

  function OrElse(s: string, other: string): string {
    if s != "" then s else other
  }

  /** `json.Unmarshal` into a map accepts an object, and null as an empty one. */
  predicate Parses(cm: ConfigMap) {
    cm.values.Decoded? && (cm.values.json.JObject? || cm.values.json.JNull?)
  }

  /** Top-level revision, then `global.revision`, then the label, then `default`. */
  function Revision(cm: ConfigMap): string
    requires Parses(cm)
  {
    var data := cm.values.json;
    OrElse(StringAt(data, "revision"),
           OrElse(StringAt(Member(data, "global"), "revision"),
                  OrElse(Label(cm.labels, LABEL_REV), "default")))
  }

  /** A string that is not empty stands at the path. */
  predicate HasText(j: Json, path: seq<string>) {
    match At(j, path)
    case Some(JString(s)) => s != ""
    case _ => false
  }

  lemma TextIsRead(j: Json, key: string)
    ensures StringAt(j, key) != "" <==> HasText(j, [key])
    ensures HasText(j, [key]) ==> At(j, [key]) == Some(JString(StringAt(j, key)))
    ensures StringAt(Member(j, "global"), key) != "" <==> HasText(j, ["global", key])
    ensures HasText(j, ["global", key]) ==> At(j, ["global", key]) == Some(JString(StringAt(Member(j, "global"), key)))
  {
    assert ["global", key][1..] == [key];
    assert forall m :: At(m, [key]) == if key in Members(m) then Some(Members(m)[key]) else None;
  }

  /** Where the revision comes from, in the tree of the values: top level, then `global`, then the label. */
  lemma RevisionPrecedence(cm: ConfigMap)
    requires Parses(cm)
    ensures var values, r := cm.values.json, Revision(cm);
            if HasText(values, ["revision"]) then At(values, ["revision"]) == Some(JString(r))
            else if HasText(values, ["global", "revision"]) then At(values, ["global", "revision"]) == Some(JString(r))
            else if "istio.io/rev" in cm.labels && cm.labels["istio.io/rev"] != "" then r == cm.labels["istio.io/rev"]
            else r == "default"
  {
    TextIsRead(cm.values.json, "revision");
  }

  method ParseConfigMapValues(cm: ConfigMap) returns (r: Result<IstioValues>)
    ensures r.Ok? <==> Parses(cm)
    ensures r.Ok? <==> cm.values.Decoded? && (cm.values.json == JNull || cm.values.json.JObject?)
    ensures r.Ok? ==> r.value.revision == Revision(cm) && r.value.revision != ""
    ensures r.Ok? ==>
              var global := Member(cm.values.json, "global");
              && r.value.hub == StringAt(global, "hub")
              && r.value.tag == StringAt(global, "tag")
              && r.value.image == StringAt(Member(global, "proxy"), "image")
  {
    if !cm.values.Decoded? {
      return Err;
    }
    var data := cm.values.json;
    if !data.JObject? && !data.JNull? {
      return Err;
    }
    var vals := IstioValues("", "", "", "");
    var v := Member(data, "revision");
    if v.JString? && v.s != "" {
      vals := vals.(revision := v.s);
    }
    var global := Member(data, "global");
    if vals.revision == "" && global.JObject? {
      v := Member(global, "revision");
      if v.JString? && v.s != "" {
        vals := vals.(revision := v.s);
      }
    }
    if vals.revision == "" && Label(cm.labels, LABEL_REV) != "" {
      vals := vals.(revision := Label(cm.labels, LABEL_REV));
    }
    if vals.revision == "" {
      vals := vals.(revision := "default");
    }
    if global.JObject? {
      var proxy := Member(global, "proxy");
      vals := vals.(hub := StringAt(global, "hub"), tag := StringAt(global, "tag"), image := StringAt(proxy, "image"));
    }
    r := Ok(vals);
  }

  /** What a watched, parseable ConfigMap says: its revision changed when it last changed. */
  function ChangeOf(cm: ConfigMap): Change
    requires Parses(cm)
  {
    Change(Revision(cm), Newest(cm.created, cm.managed))
  }

  ghost function Changes(cms: seq<ConfigMap>): set<Change> {
    set cm | cm in cms && Watched(cm) && Parses(cm) :: ChangeOf(cm)
  }

  /** Only the watched ConfigMaps of a list count, in any order. */
  lemma ChangesOfWatched(cms: seq<ConfigMap>, cms': seq<ConfigMap>)
    requires forall cm :: Watched(cm) ==> (cm in cms <==> cm in cms')
    ensures Changes(cms) == Changes(cms')
  {
  }

  lemma ChangesOfLonger(cms: seq<ConfigMap>, cm: ConfigMap)
    ensures Changes(cms + [cm]) == Changes(cms) + if Watched(cm) && Parses(cm) then {ChangeOf(cm)} else {}
  {
    forall c | c in Changes(cms) ensures c in Changes(cms + [cm]) {
      var cm0 :| cm0 in cms && Watched(cm0) && Parses(cm0) && ChangeOf(cm0) == c;
      assert cm0 in cms + [cm];
    }
    assert cm in cms + [cm];
  }

  /** How the map changes with one more ConfigMap of the list. */
  lemma OneMoreConfigMap(cms: seq<ConfigMap>, i: nat, m: map<string, Instant>)
    requires i < |cms| && NewestByKey(Changes(cms[..i]), m)
    ensures !(Watched(cms[i]) && Parses(cms[i])) ==> NewestByKey(Changes(cms[..i + 1]), m)
    ensures Watched(cms[i]) && Parses(cms[i]) ==>
              var c := ChangeOf(cms[i]);
              NewestByKey(Changes(cms[..i + 1]), if c.key !in m || c.at > m[c.key] then m[c.key := c.at] else m)
  {
    TakeOneMore(cms, i);
    ChangesOfLonger(cms[..i], cms[i]);
    if Watched(cms[i]) && Parses(cms[i]) {
      NewestWith(Changes(cms[..i]), ChangeOf(cms[i]), m);
    }
  }

  method BuildLastModifiedByRevision(c: Cluster) returns (r: Result<map<string, Instant>>)
    ensures r.Err? <==> ConfigMapList in c.failing
    ensures r.Ok? ==> NewestByKey(Changes(c.configMaps), r.value)
  {
    if ConfigMapList in c.failing {
      return Err;
    }
    var items := Filter(c.configMaps, (cm: ConfigMap) => cm.ns == ISTIO_SYSTEM);
    var result: map<string, Instant> := map[];
    for i := 0 to |items|
      invariant NewestByKey(Changes(items[..i]), result)
    {
      var cm := items[i];
      assert cm in items;
      OneMoreConfigMap(items, i, result);
      if !HasPrefix(cm.name, SIDECAR_INJECTOR) {
        continue;
      }
      var vals := ParseConfigMapValues(cm);
      if vals.Err? {
        continue;
      }
      var revision := vals.value.revision;
      var lastModified := GetLastModified(cm.created, cm.managed);
      if revision !in result || lastModified > result[revision] {
        result := result[revision := lastModified];
      }
    }
    assert items[..|items|] == items;
    ChangesOfWatched(items, c.configMaps);
    r := Ok(result);
  }

  /**
   The map holds, for exactly the revisions with a watched, parseable ConfigMap, the maximum of all
   creation and managed-field times of those ConfigMaps.
   */
  lemma LastModifiedIsMaximum(cms: seq<ConfigMap>, m: map<string, Instant>, r: string)
    requires NewestByKey(Changes(cms), m)
    ensures r in m <==> exists cm :: cm in cms && Watched(cm) && Parses(cm) && Revision(cm) == r
    ensures forall cm, t: Instant | cm in cms && Watched(cm) && Parses(cm) && Revision(cm) == r
                                    && IsTime(cm.created, cm.managed, t) :: r in m && t <= m[r]
    ensures r in m ==> exists cm :: cm in cms && Watched(cm) && Parses(cm) && Revision(cm) == r
                                    && IsTime(cm.created, cm.managed, m[r])
  {
    forall cm | cm in cms && Watched(cm) && Parses(cm) && Revision(cm) == r ensures r in m {
      assert ChangeOf(cm) in Changes(cms);
    }
    forall cm, t: Instant
      | cm in cms && Watched(cm) && Parses(cm) && Revision(cm) == r && IsTime(cm.created, cm.managed, t)
      ensures t <= m[r]
    {
      assert ChangeOf(cm) in Changes(cms);
    }
    if r in m {
      var cm :| cm in cms && Watched(cm) && Parses(cm) && ChangeOf(cm) == Change(r, m[r]);
      assert IsTime(cm.created, cm.managed, m[r]);
    }
  }

  /** The map depends neither on the order of the list nor on ConfigMaps that are not watched. */
  lemma LastModifiedIgnoresOrder(cms: seq<ConfigMap>, cms': seq<ConfigMap>,
                                 m: map<string, Instant>, m': map<string, Instant>)
    requires NewestByKey(Changes(cms), m) && NewestByKey(Changes(cms'), m')
    requires forall cm :: Watched(cm) ==> (cm in cms <==> cm in cms')
    ensures m == m'
  {
    ChangesOfWatched(cms, cms');
    NewestIsUnique(Changes(cms), m, m');
  }
}
