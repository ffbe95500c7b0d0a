/**
 * The view of one configuration that the Branch screens show: the version applicable today and
 * the pending one, and how much of the future they tell.
 */
module ConfigView {
  import opened Base
  import opened ConfigHistory

  predicate IsCurrent(t: Table, k: Key, today: Date, i: int) {
    i in t && t[i].key == k && Covers(t[i], today)
  }

  /** Pending is the open version, as long as it starts after today. */
  predicate IsPending(t: Table, k: Key, today: Date, i: int) {
    i in t && t[i].key == k && t[i].to.None? && today < t[i].from
  }

  datatype Pair = Pair(current: Option<Row>, pending: Option<Row>)

  /** The pair of one definition; several current rows would be cut to one, whichever it is. */
  ghost predicate IsPair(t: Table, k: Key, today: Date, pair: Pair) {
    && (if pair.current.Some? then exists i :: IsCurrent(t, k, today, i) && t[i] == pair.current.value
        else forall i :: !IsCurrent(t, k, today, i))
    && (if pair.pending.Some? then exists i :: IsPending(t, k, today, i) && t[i] == pair.pending.value
        else forall i :: !IsPending(t, k, today, i))
  }

  /** What the pair says about a day from today on. */
  function Shown(pair: Pair, d: Date): Option<Setting> {
    if pair.current.Some? && Covers(pair.current.value, d) then Some(pair.current.value.setting)
    else if pair.pending.Some? && Covers(pair.pending.value, d) then Some(pair.pending.value.setting)
    else None
  }

  lemma ShownIsReadable(t: Table, k: Key, today: Date, pair: Pair, d: Date)
    requires DatabaseAccepts(t) && IsPair(t, k, today, pair) && Shown(pair, d).Some?
    ensures At(t, k, d) == Shown(pair, d)
  {
    if pair.current.Some? && Covers(pair.current.value, d) {
      var i :| IsCurrent(t, k, today, i) && t[i] == pair.current.value;
      AtCovering(t, i, d);
    } else {
      var i :| IsPending(t, k, today, i) && t[i] == pair.pending.value;
      AtCovering(t, i, d);
    }
  }

  /** The pair is right about today: the current setting is the applicable one, if there is one. */
  lemma CurrentIsToday(t: Table, k: Key, today: Date, pair: Pair)
    requires DatabaseAccepts(t) && IsPair(t, k, today, pair)
    ensures At(t, k, today) == if pair.current.Some? then Some(pair.current.value.setting) else None
  {
    if pair.current.Some? {
      ShownIsReadable(t, k, today, pair, today);
    } else if i :| i in t && t[i].key == k && Covers(t[i], today) {
      assert IsCurrent(t, k, today, i);
    }
  }

  /** A closed version that has not started yet: neither current nor pending. */
  ghost predicate HidesVersion(t: Table, k: Key, today: Date) {
    exists i :: i in t && t[i].key == k && t[i].to.Some? && today < t[i].from
  }

  /** The first day of a hidden version is one the pair says nothing about, or something else. */
  lemma HiddenDayIsMissed(t: Table, k: Key, today: Date, pair: Pair, i: int)
    requires DatabaseAccepts(t) && IsPair(t, k, today, pair)
    requires i in t && t[i].key == k && t[i].to.Some? && today < t[i].from
    ensures Shown(pair, t[i].from).None? && At(t, k, t[i].from) == Some(t[i].setting)
  {
    AtCovering(t, i, t[i].from);
    if pair.current.Some? {
      var c :| IsCurrent(t, k, today, c) && t[c] == pair.current.value;
      assert c != i;
    }
    if pair.pending.Some? {
      var p :| IsPending(t, k, today, p) && t[p] == pair.pending.value;
      assert p != i;
    }
  }

  /**
   * The pair tells the whole future exactly when no closed version lies ahead. With one ahead,
   * the screens show the open version as the next change although another comes first.
   */
  lemma PairTellsTheFuture(t: Table, k: Key, today: Date, pair: Pair)
    requires History(t) && IsPair(t, k, today, pair)
    ensures (forall d :: today <= d ==> Shown(pair, d) == At(t, k, d)) <==> !HidesVersion(t, k, today)
  {
    if i :| i in t && t[i].key == k && t[i].to.Some? && today < t[i].from {
      HiddenDayIsMissed(t, k, today, pair, i);
    }
    if !HidesVersion(t, k, today) {
      forall d | today <= d ensures Shown(pair, d) == At(t, k, d) {
        if Shown(pair, d).Some? {
          ShownIsReadable(t, k, today, pair, d);
        } else if i :| i in t && t[i].key == k && Covers(t[i], d) {
          ReadableIsShown(t, k, today, pair, d, i);
        }
      }
    }
  }

  lemma ReadableIsShown(t: Table, k: Key, today: Date, pair: Pair, d: Date, i: int)
    requires DatabaseAccepts(t) && IsPair(t, k, today, pair) && !HidesVersion(t, k, today) && today <= d
    requires i in t && t[i].key == k && Covers(t[i], d)
    ensures Shown(pair, d).Some?
  {
    if t[i].from <= today {
      assert IsCurrent(t, k, today, i);
      var c :| IsCurrent(t, k, today, c) && t[c] == pair.current.value;
      assert c == i;
    } else {
      assert IsPending(t, k, today, i);
      var p :| IsPending(t, k, today, p) && t[p] == pair.pending.value;
      assert p == i;
    }
  }
}
