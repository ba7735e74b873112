/** Revision tags: the MutatingWebhookConfigurations that map a tag to a revision. */
module TagWebhooks {
  import opened Prelude
  import opened Cluster
  import opened LastModified

  const TAG_PREFIX := "istio-revision-tag-"

  /** The watch filter. */
  predicate Watched(w: WebhookConfig) {
    HasPrefix(w.name, TAG_PREFIX)
  }

  /** What a tag stands for, and when its configuration last changed. */
  datatype Tagged = Tagged(revision: string, at: Instant)

  predicate Tags(w: WebhookConfig, tag: string) {
    Watched(w) && tag != "" && Label(w.labels, LABEL_TAG) == tag && Label(w.labels, LABEL_REV) != ""
  }

  function TaggedBy(w: WebhookConfig): Tagged {
    Tagged(Label(w.labels, LABEL_REV), Newest(w.created, w.managed))
  }

  /** The tag table of one configuration. */
  function Entry(w: WebhookConfig): map<string, Tagged> {
    var tag := Label(w.labels, LABEL_TAG);
    if Tags(w, tag) then map[tag := TaggedBy(w)] else map[]
  }

  /** The tag table of a list: a later entry replaces an earlier one of the same tag. */
  function TagTable(ws: seq<WebhookConfig>): map<string, Tagged> {
    if ws == [] then map[] else TagTable(ws[..|ws| - 1]) + Entry(ws[|ws| - 1])
  }

  lemma TagTableStep(ws: seq<WebhookConfig>, i: nat)
    requires i < |ws|
    ensures TagTable(ws[..i + 1]) == TagTable(ws[..i]) + Entry(ws[i])
  {
    assert ws[..i + 1][..i] == ws[..i];
  }

  function Revisions(table: map<string, Tagged>): map<string, string> {
    map t | t in table :: table[t].revision
  }

  function Times(table: map<string, Tagged>): map<string, Instant> {
    map t | t in table :: table[t].at
  }

  lemma ProjectionsOfUpdate(table: map<string, Tagged>, tag: string, x: Tagged)
    ensures Revisions(table + map[tag := x]) == Revisions(table)[tag := x.revision]
    ensures Times(table + map[tag := x]) == Times(table)[tag := x.at]
  {
  }

  /** How both maps change with one more configuration. */
  lemma MapsStep(ws: seq<WebhookConfig>, i: nat)
    requires i < |ws|
    ensures var before, after, tag := TagTable(ws[..i]), TagTable(ws[..i + 1]), Label(ws[i].labels, LABEL_TAG);
            if Tags(ws[i], tag)
            then && Revisions(after) == Revisions(before)[tag := TaggedBy(ws[i]).revision]
                 && Times(after) == Times(before)[tag := TaggedBy(ws[i]).at]
            else after == before
  {
    var tag := Label(ws[i].labels, LABEL_TAG);
    TagTableStep(ws, i);
    ProjectionsOfUpdate(TagTable(ws[..i]), tag, TaggedBy(ws[i]));
  }

  method FetchTagToRevisionAndLastModified(c: Cluster)
    returns (r: Result<(map<string, string>, map<string, Instant>)>)
    ensures r.Err? <==> WebhookConfigList in c.failing
    ensures r.Ok? ==>
              var table := TagTable(c.webhookConfigs);
              r.value == (Revisions(table), Times(table))
  {
    if WebhookConfigList in c.failing {
      return Err;
    }
    var items := c.webhookConfigs;
    var tagToRevision: map<string, string> := map[];
    var lastModifiedByTag: map<string, Instant> := map[];
    for i := 0 to |items|
      invariant tagToRevision == Revisions(TagTable(items[..i]))
      invariant lastModifiedByTag == Times(TagTable(items[..i]))
    {
      MapsStep(items, i);
      var w := items[i];
      if !HasPrefix(w.name, TAG_PREFIX) {
        continue;
      }
      var tag := Label(w.labels, LABEL_TAG);
      var revision := Label(w.labels, LABEL_REV);
      if tag != "" && revision != "" {
        var lastModified := GetLastModified(w.created, w.managed);
        tagToRevision := tagToRevision[tag := revision];
        lastModifiedByTag := lastModifiedByTag[tag := lastModified];
      }
    }
    assert items[..|items|] == items;
    r := Ok((tagToRevision, lastModifiedByTag));
  }

  lemma {:induction false} TagTableOfConcat(a: seq<WebhookConfig>, b: seq<WebhookConfig>)
    ensures TagTable(a + b) == TagTable(a) + TagTable(b)
  {
    if b == [] {
      assert a + b == a;
    } else {
      var front := b[..|b| - 1];
      assert (a + b)[..|a + b| - 1] == a + front;
      TagTableOfConcat(a, front);
      MergeIsAssociative(TagTable(a), TagTable(front), Entry(b[|b| - 1]));
    }
  }

  lemma MergeIsAssociative<K, V>(x: map<K, V>, y: map<K, V>, z: map<K, V>)
    ensures (x + y) + z == x + (y + z)
  {
  }

  /** For a tag, the last configuration of the list that carries it decides, whatever its time. */
  lemma {:induction false} LastEntryWins(ws: seq<WebhookConfig>, i: nat, tag: string)
    requires i < |ws| && Tags(ws[i], tag)
    requires forall j :: i < j < |ws| ==> !Tags(ws[j], tag)
    ensures tag in TagTable(ws) && TagTable(ws)[tag] == TaggedBy(ws[i])
  {
    if i < |ws| - 1 {
      LastEntryWins(ws[..|ws| - 1], i, tag);
    }
  }

  lemma {:induction false} TableComesFromList(ws: seq<WebhookConfig>, tag: string)
    ensures tag in TagTable(ws) <==> exists w :: w in ws && Tags(w, tag)
    ensures tag in TagTable(ws) ==> exists w :: w in ws && Tags(w, tag) && TagTable(ws)[tag] == TaggedBy(w)
  {
    if ws != [] {
      var front, last := ws[..|ws| - 1], ws[|ws| - 1];
      TableComesFromList(front, tag);
      assert forall w :: w in ws <==> w in front || w == last;
    }
  }

  /** What makes a configuration say that a tag stands for a revision. */
  ghost predicate Carries(w: WebhookConfig, tag: string, revision: string) {
    && "istio-revision-tag-" <= w.name && tag != "" && revision != ""
    && "istio.io/tag" in w.labels && w.labels["istio.io/tag"] == tag
    && "istio.io/rev" in w.labels && w.labels["istio.io/rev"] == revision
  }

  lemma CarriesIffTags(w: WebhookConfig, tag: string)
    ensures Tags(w, tag) <==> exists revision :: Carries(w, tag, revision)
    ensures forall revision :: Carries(w, tag, revision) ==> TaggedBy(w).revision == revision
  {
    assert Tags(w, tag) ==> Carries(w, tag, w.labels["istio.io/rev"]);
  }

  /** The maps know exactly the tags that some configuration carries. */
  lemma MapsKnowCarriedTags(ws: seq<WebhookConfig>, tag: string)
    ensures tag in Revisions(TagTable(ws)) <==> exists w, revision :: w in ws && Carries(w, tag, revision)
    ensures tag in Times(TagTable(ws)) <==> tag in Revisions(TagTable(ws))
  {
    TableComesFromList(ws, tag);
    forall w ensures Tags(w, tag) <==> exists revision :: Carries(w, tag, revision) {
      CarriesIffTags(w, tag);
    }
  }

  /**
   The last configuration that carries a tag gives it its revision, and as its time the maximum of that
   configuration's creation and managed-field times.
   */
  lemma TagTimeIsMaximum(ws: seq<WebhookConfig>, i: nat, tag: string, revision: string)
    requires i < |ws| && Carries(ws[i], tag, revision)
    requires forall j, other :: i < j < |ws| ==> !Carries(ws[j], tag, other)
    ensures tag in Revisions(TagTable(ws)) && Revisions(TagTable(ws))[tag] == revision
    ensures tag in Times(TagTable(ws))
    ensures var t := Times(TagTable(ws))[tag];
            && (t == ws[i].created || Some(t) in ws[i].managed)
            && ws[i].created <= t && forall u: Instant :: Some(u) in ws[i].managed ==> u <= t
  {
    CarriesIffTags(ws[i], tag);
    forall j | i < j < |ws| ensures !Tags(ws[j], tag) {
      CarriesIffTags(ws[j], tag);
    }
    LastEntryWins(ws, i, tag);
    assert IsTime(ws[i].created, ws[i].managed, ws[i].created);
    assert forall u: Instant :: Some(u) in ws[i].managed ==> IsTime(ws[i].created, ws[i].managed, u);
  }

  /** Configurations that carry the same tag agree on its revision and time. */
  ghost predicate TagsAgree(ws: seq<WebhookConfig>) {
    forall v, w, tag :: v in ws && w in ws && Tags(v, tag) && Tags(w, tag) ==> TaggedBy(v) == TaggedBy(w)
  }

  ghost predicate OrderFree(ws: seq<WebhookConfig>) {
    forall p: seq<WebhookConfig> :: multiset(p) == multiset(ws) ==> TagTable(p) == TagTable(ws)
  }

  lemma AgreeingTableIsOrderFree(ws: seq<WebhookConfig>, p: seq<WebhookConfig>)
    requires TagsAgree(ws) && multiset(p) == multiset(ws)
    ensures TagTable(p) == TagTable(ws)
  {
    assert forall w :: w in p <==> w in multiset(p);
    assert forall w :: w in ws <==> w in multiset(ws);
    forall tag
      ensures tag in TagTable(p) <==> tag in TagTable(ws)
      ensures tag in TagTable(p) ==> TagTable(p)[tag] == TagTable(ws)[tag]
    {
      TableComesFromList(p, tag);
      TableComesFromList(ws, tag);
    }
  }

  /** A list reordered so that the configuration at `i` comes last, and so decides its tag. */
  lemma MovedLastDecides(ws: seq<WebhookConfig>, i: nat, tag: string) returns (p: seq<WebhookConfig>)
    requires i < |ws| && Tags(ws[i], tag)
    ensures multiset(p) == multiset(ws)
    ensures tag in TagTable(p) && TagTable(p)[tag] == TaggedBy(ws[i])
  {
    p := ws[..i] + ws[i + 1..] + [ws[i]];
    assert ws == ws[..i] + [ws[i]] + ws[i + 1..];
    LastEntryWins(p, |p| - 1, tag);
  }

  /** The tag table ignores the order of the list exactly when no two configurations disagree on a tag. */
  lemma TableIsOrderFreeIffTagsAgree(ws: seq<WebhookConfig>)
    ensures OrderFree(ws) <==> TagsAgree(ws)
  {
    if TagsAgree(ws) {
      forall p: seq<WebhookConfig> | multiset(p) == multiset(ws) ensures TagTable(p) == TagTable(ws) {
        AgreeingTableIsOrderFree(ws, p);
      }
    }
    if OrderFree(ws) {
      forall v, w, tag | v in ws && w in ws && Tags(v, tag) && Tags(w, tag) ensures TaggedBy(v) == TaggedBy(w) {
        var i :| 0 <= i < |ws| && ws[i] == v;
        var j :| 0 <= j < |ws| && ws[j] == w;
        var p := MovedLastDecides(ws, i, tag);
        var q := MovedLastDecides(ws, j, tag);
        assert TagTable(p) == TagTable(ws) == TagTable(q);
      }
    }
  }
}
