/**
 * The rows of payroll.BranchPayDefinitionConfig and what they mean.
 *
 * A row is one effective-dated version of one (Branch, PayDefinition) configuration, valid on
 * every day of an inclusive window; a missing end means "still open". What the rows mean is a
 * single function from dates to an optional setting (`At`). `History` is the representation
 * invariant under which that reading is unambiguous and has no holes.
 */
module ConfigHistory {
  import opened Base

  datatype Key = Key(branch: int, definition: int)

  datatype Setting = Setting(active: bool, notes: Option<string>)

  datatype Row = Row(key: Key, setting: Setting, from: Date, to: Option<Date>)

  /** The table, keyed by ConfigID. */
  type Table = map<int, Row>

  predicate Covers(r: Row, d: Date) {
    r.from <= d && (r.to.None? || d <= r.to.value)
  }

  /** The CHECK constraint: a closed version ends on or after its first day. */
  predicate NonEmpty(r: Row) {
    r.to.Some? ==> r.from <= r.to.value
  }

  predicate Before(a: Row, b: Row) {
    a.to.Some? && a.to.value < b.from
  }

  /** The exclusion constraint: two versions of one key have no day in common. */
  predicate Disjoint(t: Table) {
    forall i, j :: i in t && j in t && i != j && t[i].key == t[j].key
                   ==> Before(t[i], t[j]) || Before(t[j], t[i])
  }

  /** The partial unique index: at most one open version per key. */
  predicate OneOpen(t: Table) {
    forall i, j :: i in t && j in t && t[i].key == t[j].key && t[i].to.None? && t[j].to.None? ==> i == j
  }

  /** What the database checks after every statement. */
  predicate DatabaseAccepts(t: Table) {
    (forall i :: i in t ==> NonEmpty(t[i])) && Disjoint(t) && OneOpen(t)
  }

  /** Version i is closed, and another version of its key starts on the very next day. */
  ghost predicate FollowedNextDay(t: Table, i: int)
    requires i in t && t[i].to.Some?
  {
    exists j :: j in t && t[j].key == t[i].key && t[j].from == t[i].to.value + 1
  }

  ghost predicate Linked(t: Table) {
    forall i {:trigger FollowedNextDay(t, i)} :: i in t && t[i].to.Some? ==> FollowedNextDay(t, i)
  }

  /** The key of version i has an open version. */
  ghost predicate StillOpen(t: Table, i: int)
    requires i in t
  {
    exists j :: j in t && t[j].key == t[i].key && t[j].to.None?
  }

  ghost predicate HasOpen(t: Table) {
    forall i {:trigger StillOpen(t, i)} :: i in t ==> StillOpen(t, i)
  }

  /** The representation invariant of the version histories. */
  ghost predicate History(t: Table) {
    DatabaseAccepts(t) && Linked(t) && HasOpen(t)
  }

  /** The applicable setting of a key on a day, None when nothing is configured that day. */
  ghost function At(t: Table, k: Key, d: Date): Option<Setting> {
    if exists i :: i in t && t[i].key == k && Covers(t[i], d)
    then var i :| i in t && t[i].key == k && Covers(t[i], d); Some(t[i].setting)
    else None
  }

  /** Any covering version is the one `At` reports. */
  lemma AtCovering(t: Table, i: int, d: Date)
    requires DatabaseAccepts(t) && i in t && Covers(t[i], d)
    ensures At(t, t[i].key, d) == Some(t[i].setting)
  {
  }

  /**
   * Two version tables agree with "the settings of definition `p` are replaced by `s` from
   * targets[b] on, in every target branch b; nothing else changes on any day".
   */
  ghost predicate Overridden(t: Table, t': Table, targets: map<int, Date>, p: int, s: Setting) {
    forall b, q, d :: At(t', Key(b, q), d) ==
      if q == p && b in targets && targets[b] <= d then Some(s) else At(t, Key(b, q), d)
  }

  /** Once a key is configured it stays configured: the versions leave no later gap. */
  lemma NoGaps(t: Table, i: int, d: Date)
    requires History(t) && i in t && t[i].from <= d
    ensures exists j :: j in t && t[j].key == t[i].key && Covers(t[j], d)
    decreases d - t[i].from
  {
    if !Covers(t[i], d) {
      assert FollowedNextDay(t, i);
      var j :| j in t && t[j].key == t[i].key && t[j].from == t[i].to.value + 1;
      NoGaps(t, j, d);
    }
  }

  /**
   * The configured days of a key are an up-closed set of dates: if a day has a setting, so
   * has every later day, forever.
   */
  lemma {:induction false} ConfiguredFromThenOn(t: Table, k: Key, d: Date, later: Date)
    requires History(t) && At(t, k, d).Some? && d <= later
    ensures At(t, k, later).Some?
  {
    var i :| i in t && t[i].key == k && Covers(t[i], d);
    NoGaps(t, i, later);
  }

  /** The closed version right before an open one exists as soon as any closed version does. */
  lemma {:induction false} Predecessor(t: Table, open: int, closed: int)
    requires History(t) && open in t && closed in t
    requires t[open].to.None? && t[closed].to.Some? && t[open].key == t[closed].key
    ensures exists p :: p in t && t[p].key == t[open].key && t[p].to == Some(t[open].from - 1)
                        && t[closed].from <= t[p].from
  {
    NoGaps(t, closed, t[open].from - 1);
    var p :| p in t && t[p].key == t[closed].key && Covers(t[p], t[open].from - 1);
    assert Before(t[p], t[open]);
  }

  /** A day on which no version of the key starts strictly earlier is covered by the open one. */
  lemma OpenIsLast(t: Table, open: int, i: int)
    requires History(t) && open in t && i in t && t[open].to.None? && t[i].key == t[open].key
    ensures i == open || (t[i].to.Some? && t[i].to.value < t[open].from)
  {
  }
}
