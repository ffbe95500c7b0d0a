/**
 * The four ways apply_config changes the version rows of one key, each shown to keep the
 * version history well-formed and to mean exactly "from this date on, the new setting".
 */
module ConfigWrites {
  import opened Base
  import opened ConfigHistory

  ghost predicate OverriddenFrom(t: Table, t': Table, k: Key, eff: Date, s: Setting) {
    Overridden(t, t', map[k.branch := eff], k.definition, s)
  }

  /** What one key reads on one day only depends on the rows of that key. */
  lemma SameRowsSameReading(t: Table, t': Table, k: Key, d: Date)
    requires DatabaseAccepts(t) && DatabaseAccepts(t')
    requires forall i :: i in t && t[i].key == k ==> i in t' && t'[i] == t[i]
    requires forall i :: i in t' && t'[i].key == k ==> i in t && t[i] == t'[i]
    ensures At(t', k, d) == At(t, k, d)
  {
    if i :| i in t && t[i].key == k && Covers(t[i], d) {
      AtCovering(t, i, d);
      AtCovering(t', i, d);
    }
  }

  /** To prove an override of one key, prove it for that key; other rows must be untouched. */
  lemma OverrideOfOneKey(t: Table, t': Table, k: Key, eff: Date, s: Setting)
    requires DatabaseAccepts(t) && DatabaseAccepts(t')
    requires forall i :: i in t && t[i].key != k ==> i in t' && t'[i] == t[i]
    requires forall i :: i in t' && t'[i].key != k ==> i in t && t[i] == t'[i]
    requires forall d :: At(t', k, d) == if eff <= d then Some(s) else At(t, k, d)
    ensures OverriddenFrom(t, t', k, eff, s)
  {
    forall b, q, d
      ensures At(t', Key(b, q), d) ==
              if q == k.definition && b in map[k.branch := eff] && eff <= d then Some(s)
              else At(t, Key(b, q), d)
    {
      if Key(b, q) != k {
        SameRowsSameReading(t, t', Key(b, q), d);
      }
    }
  }

  /**
   * A rewritten table means "override from eff" when one open row carries the new setting and
   * the other rows of the key cover, before eff, exactly the days they covered.
   */
  lemma ReadsOverridden(t: Table, t': Table, k: Key, eff: Date, s: Setting, open': int)
    requires DatabaseAccepts(t) && DatabaseAccepts(t')
    requires open' in t' && t'[open'] == Row(k, s, eff, None)
    requires forall i :: i in t && t[i].key != k ==> i in t' && t'[i] == t[i]
    requires forall i :: i in t' && t'[i].key != k ==> i in t && t[i] == t'[i]
    requires forall i, d :: i in t && t[i].key == k && d < eff && Covers(t[i], d)
               ==> i in t' && t'[i].key == k && t'[i].setting == t[i].setting && Covers(t'[i], d)
    requires forall i, d :: i in t' && t'[i].key == k && d < eff && Covers(t'[i], d)
               ==> i in t && t[i].key == k && Covers(t[i], d)
    ensures OverriddenFrom(t, t', k, eff, s)
  {
    forall d ensures At(t', k, d) == if eff <= d then Some(s) else At(t, k, d) {
      if eff <= d {
        AtCovering(t', open', d);
      } else if i :| i in t && t[i].key == k && Covers(t[i], d) {
        AtCovering(t, i, d);
        AtCovering(t', i, d);
      }
    }
    OverrideOfOneKey(t, t', k, eff, s);
  }

  /** First version of a key. */
  lemma CreateVersion(t: Table, id: int, k: Key, s: Setting, eff: Date)
    requires History(t) && id !in t
    requires forall i :: i in t ==> t[i].key != k
    ensures var t' := t[id := Row(k, s, eff, None)];
            History(t') && OverriddenFrom(t, t', k, eff, s)
  {
    var t' := t[id := Row(k, s, eff, None)];
    forall i | i in t' && t'[i].to.Some? ensures FollowedNextDay(t', i) {
      assert FollowedNextDay(t, i);
      var j :| j in t && t[j].key == t[i].key && t[j].from == t[i].to.value + 1;
      assert t'[j] == t[j];
    }
    OpenAfterReplacement(t, t', k, id);
    ReadsOverridden(t, t', k, eff, s, id);
  }

  /** Close the open version the day before, and open a new one. */
  lemma CloseAndOpen(t: Table, open: int, id: int, k: Key, s: Setting, eff: Date)
    requires History(t) && id !in t && open in t
    requires t[open].key == k && t[open].to.None? && t[open].from < eff
    ensures var closed := t[open := t[open].(to := Some(eff - 1))];
            var t' := closed[id := Row(k, s, eff, None)];
            DatabaseAccepts(closed) && History(t') && OverriddenFrom(t, t', k, eff, s)
  {
    var closed := t[open := t[open].(to := Some(eff - 1))];
    var t' := closed[id := Row(k, s, eff, None)];
    assert forall i :: i in t && i != open && t[i].key == k ==> Before(t[i], t[open]);
    assert DatabaseAccepts(closed);
    assert DatabaseAccepts(t');
    forall i | i in t' && t'[i].to.Some? ensures FollowedNextDay(t', i) {
      if i == open {
        assert t'[id].from == t'[open].to.value + 1;
      } else {
        assert FollowedNextDay(t, i);
        var j :| j in t && t[j].key == t[i].key && t[j].from == t[i].to.value + 1;
        assert t'[j].key == t[j].key && t'[j].from == t[j].from;
      }
    }
    OpenAfterReplacement(t, t', k, id);
    ReadsOverridden(t, t', k, eff, s, id);
  }

  /** Rewriting one key keeps every key open, as long as that key has an open version again. */
  lemma OpenAfterReplacement(t: Table, t': Table, k: Key, open': int)
    requires HasOpen(t) && open' in t' && t'[open'].key == k && t'[open'].to.None?
    requires forall i :: i in t && t[i].key != k ==> i in t' && t'[i] == t[i]
    requires forall i :: i in t' && t'[i].key != k ==> i in t && t[i] == t'[i]
    ensures HasOpen(t')
  {
    forall i | i in t' ensures StillOpen(t', i) {
      if t'[i].key != k {
        assert StillOpen(t, i);
        var j :| j in t && t[j].key == t[i].key && t[j].to.None?;
        assert t'[j] == t[j];
      }
    }
  }

  /**
   * Amend the open version in place, moving its start to `eff` (the same day or earlier),
   * when no closed version of the key exists or none has to be re-closed.
   */
  lemma AmendOpen(t: Table, open: int, k: Key, s: Setting, eff: Date)
    requires History(t) && open in t && t[open].key == k && t[open].to.None?
    requires eff <= t[open].from
    requires eff == t[open].from || forall i :: i in t && t[i].key == k ==> i == open
    ensures var t' := t[open := Row(k, s, eff, None)];
            History(t') && OverriddenFrom(t, t', k, eff, s)
  {
    var t' := t[open := Row(k, s, eff, None)];
    assert forall i :: i in t && i != open && t[i].key == k ==> Before(t[i], t[open]);
    forall i | i in t' && t'[i].to.Some? ensures FollowedNextDay(t', i) {
      assert FollowedNextDay(t, i);
      var j :| j in t && t[j].key == t[i].key && t[j].from == t[i].to.value + 1;
      assert t'[j].key == t[j].key && t'[j].from == t[j].from;
    }
    OpenAfterReplacement(t, t', k, open);
    ReadsOverridden(t, t', k, eff, s, open);
  }

  /** Both statements of "re-close the predecessor, then move the open version" pass the constraints. */
  lemma MoveEarlierAccepted(t: Table, open: int, previous: int, k: Key, s: Setting, eff: Date)
    requires History(t) && open in t && t[open].key == k && t[open].to.None?
    requires previous in t && t[previous].key == k && t[previous].to == Some(t[open].from - 1)
    requires t[previous].from < eff < t[open].from
    ensures var reclosed := t[previous := t[previous].(to := Some(eff - 1))];
            DatabaseAccepts(reclosed) && DatabaseAccepts(reclosed[open := Row(k, s, eff, None)])
  {
    var reclosed := t[previous := t[previous].(to := Some(eff - 1))];
    var t' := reclosed[open := Row(k, s, eff, None)];
    forall i | i in t && i != open && i != previous && t[i].key == k
      ensures Before(t[i], t[previous])
    {
      assert Before(t[i], t[open]);
    }
    assert forall i :: i in t && i != previous ==> reclosed[i] == t[i];
    assert Before(t'[previous], t'[open]);
  }

  /** Move the open version earlier: re-close its predecessor first, then move it. */
  lemma MoveEarlier(t: Table, open: int, previous: int, k: Key, s: Setting, eff: Date)
    requires History(t) && open in t && t[open].key == k && t[open].to.None?
    requires previous in t && t[previous].key == k && t[previous].to == Some(t[open].from - 1)
    requires t[previous].from < eff < t[open].from
    ensures var reclosed := t[previous := t[previous].(to := Some(eff - 1))];
            var t' := reclosed[open := Row(k, s, eff, None)];
            DatabaseAccepts(reclosed) && History(t') && OverriddenFrom(t, t', k, eff, s)
  {
    var reclosed := t[previous := t[previous].(to := Some(eff - 1))];
    var t' := reclosed[open := Row(k, s, eff, None)];
    MoveEarlierAccepted(t, open, previous, k, s, eff);
    MoveEarlierLinked(t, t', open, previous, eff);
    OpenAfterReplacement(t, t', k, open);
    ReadsOverridden(t, t', k, eff, s, open);
  }

  lemma MoveEarlierLinked(t: Table, t': Table, open: int, previous: int, eff: Date)
    requires History(t) && open in t && previous in t && open != previous && t[open].to.None?
    requires t'.Keys == t.Keys
    requires forall i :: i in t && i != open && i != previous ==> t'[i] == t[i]
    requires t'[previous] == t[previous].(to := Some(eff - 1))
    requires t'[open].key == t[open].key == t[previous].key && t'[open].to.None? && t'[open].from == eff
    requires t[previous].to == Some(t[open].from - 1)
    ensures Linked(t')
  {
    forall i | i in t' && t'[i].to.Some? ensures FollowedNextDay(t', i) {
      if i == previous {
        assert t'[open].from == t'[previous].to.value + 1;
      } else {
        assert FollowedNextDay(t, i);
        var j :| j in t && t[j].key == t[i].key && t[j].from == t[i].to.value + 1;
        assert j != open;
        assert t'[j].key == t[j].key && t'[j].from == t[j].from;
      }
    }
  }
}
