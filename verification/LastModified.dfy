/**
 When an object last changed: the newest of its creation time and its managed-field times. The
 ConfigMap and the webhook package compute it with the same loop.
 */
module LastModified {
  import opened Prelude

  ghost predicate IsTime(created: Instant, managed: seq<Option<Instant>>, t: Instant) {
    t == created || Some(t) in managed
  }

  function Newest(created: Instant, managed: seq<Option<Instant>>): (t: Instant)
    ensures IsTime(created, managed, t)
    ensures forall u: Instant :: IsTime(created, managed, u) ==> u <= t
  {
    if managed == [] then created
    else
      var t := Newest(created, managed[..|managed| - 1]);
      var last := managed[|managed| - 1];
      assert managed == managed[..|managed| - 1] + [last];
      assert forall u: Instant :: IsTime(created, managed, u) ==>
          (IsTime(created, managed[..|managed| - 1], u) || last == Some(u));
      if last.Some? && last.value > t then last.value else t
  }

  method GetLastModified(created: Instant, managed: seq<Option<Instant>>) returns (latest: Instant)
    ensures latest == Newest(created, managed)
  {
    latest := created;
    for i := 0 to |managed|
      invariant latest == Newest(created, managed[..i])
    {
      assert managed[..i + 1][..i] == managed[..i];
      if managed[i].Some? && managed[i].value > latest {
        latest := managed[i].value;
      }
    }
    assert managed[..|managed|] == managed;
  }

  /** A key (a revision) that something changed at an instant. */
  datatype Change = Change(key: string, at: Instant)

  /** `m` maps exactly the keys with a change, each to its newest one. */
  ghost predicate NewestByKey(changes: set<Change>, m: map<string, Instant>) {
    && (forall c :: c in changes ==> c.key in m && c.at <= m[c.key])
    && (forall k :: k in m ==> Change(k, m[k]) in changes)
  }

  lemma NewestWith(changes: set<Change>, c: Change, m: map<string, Instant>)
    requires NewestByKey(changes, m)
    ensures NewestByKey(changes + {c}, if c.key !in m || c.at > m[c.key] then m[c.key := c.at] else m)
  {
  }

  /** Every change is still there, or a later one of its key is. */
  ghost predicate Grows(changes: set<Change>, changes': set<Change>) {
    forall c :: c in changes ==> exists c' :: c' in changes' && c'.key == c.key && c.at <= c'.at
  }

  lemma NewestGrows(changes: set<Change>, changes': set<Change>, m: map<string, Instant>, m': map<string, Instant>)
    requires NewestByKey(changes, m) && NewestByKey(changes', m') && Grows(changes, changes')
    ensures forall k :: k in m ==> k in m' && m[k] <= m'[k]
  {
    forall k | k in m ensures k in m' && m[k] <= m'[k] {
      var c' :| c' in changes' && c'.key == k && m[k] <= c'.at;
    }
  }

  lemma NewestIsUnique(changes: set<Change>, m: map<string, Instant>, m': map<string, Instant>)
    requires NewestByKey(changes, m) && NewestByKey(changes, m')
    ensures m == m'
  {
    forall k | k in m ensures k in m' && m[k] <= m'[k] {
      assert Change(k, m[k]) in changes;
    }
    forall k | k in m' ensures k in m && m'[k] <= m[k] {
      assert Change(k, m'[k]) in changes;
    }
  }
}
