/**
 * One short run of Branch configuration: three versions of one definition, two of them still to
 * start. It reaches a history whose pair hides a version and in which an early date is refused.
 */
module ConfigExamples {
  import opened Base
  import opened ConfigHistory
  import opened ConfigWrites
  import opened BranchCapacity
  import opened ConfigRuns
  import opened ConfigView
  import opened CompanyConfig

  const KEY := Key(7, 1)
  const OFF := Setting(false, None)

  function First(): Table { map[0 := Row(KEY, OFF, 0, None)] }

  function Second(): Table { map[0 := Row(KEY, OFF, 0, Some(9)), 1 := Row(KEY, OFF, 10, None)] }

  function Third(): Table {
    map[0 := Row(KEY, OFF, 0, Some(9)), 1 := Row(KEY, OFF, 10, Some(19)), 2 := Row(KEY, OFF, 20, None)]
  }

  function Definitions(): Catalogue { map[1 := BranchCapacity.Active] }

  lemma FirstWrite()
    ensures History(First()) && OverriddenFrom(map[], First(), KEY, 0, OFF)
  {
    CreateVersion(map[], 0, KEY, OFF, 0);
    assert map[][0 := Row(KEY, OFF, 0, None)] == First();
  }

  lemma SecondWrite()
    ensures History(Second()) && OverriddenFrom(First(), Second(), KEY, 10, OFF)
  {
    FirstWrite();
    CloseAndOpen(First(), 0, 1, KEY, OFF, 10);
    assert First()[0 := First()[0].(to := Some(9))][1 := Row(KEY, OFF, 10, None)] == Second();
  }

  lemma ThirdWrite()
    ensures History(Third()) && OverriddenFrom(Second(), Third(), KEY, 20, OFF)
  {
    SecondWrite();
    CloseAndOpen(Second(), 1, 2, KEY, OFF, 20);
    assert Second()[1 := Second()[1].(to := Some(19))][2 := Row(KEY, OFF, 20, None)] == Third();
  }

  /** The run, from empty tables. */
  lemma ThreeVersions(policy: Policy) returns (states: seq<Tables>, log: seq<Request>)
    requires Sound(policy)
    ensures Run(states, log, policy) && states[|log|].rows == Third()
  {
    var defs := Definitions();
    states := [Tables(map[], map[]), Tables(map[], defs), Tables(First(), defs), Tables(Second(), defs), Tables(Third(), defs)];
    log := [Create(1), Write(map[7 := 0], 1, OFF), Write(map[7 := 10], 1, OFF), Write(map[7 := 20], 1, OFF)];
    FirstWrite();
    SecondWrite();
    ThirdWrite();
    assert ActiveItems(map[]) == {};
    hide History, Overridden, First, Second, Third;
    assert Step(states[0], log[0], states[1], policy);
    assert Step(states[1], log[1], states[2], policy);
    assert Step(states[2], log[2], states[3], policy);
    assert Step(states[3], log[3], states[4], policy);
  }

  /**
   * On day 5 of that history the pair shows the first and the third version; the second, which
   * is the next to start, is missing, and the pair is wrong about day 10.
   */
  lemma PairHidesTheNextVersion()
    ensures var pair := Pair(Some(Third()[0]), Some(Third()[2]));
            && IsPair(Third(), KEY, 5, pair) && HidesVersion(Third(), KEY, 5)
            && Shown(pair, 10).None? && At(Third(), KEY, 10) == Some(OFF)
  {
    var t := Third();
    var pair := Pair(Some(t[0]), Some(t[2]));
    assert IsCurrent(t, KEY, 5, 0) && IsPending(t, KEY, 5, 2);
    assert HidesVersion(t, KEY, 5) by {
      assert 1 in t && t[1].key == KEY && t[1].to.Some? && 5 < t[1].from;
    }
    ThirdWrite();
    HiddenDayIsMissed(t, KEY, 5, pair, 1);
  }

  /** And a write from day 8 on is refused there: it would swallow the second version. */
  lemma EarlyDateIsRefused(policy: Policy)
    ensures Swallows(Third(), KEY, 8) && !Applicable(Third(), Definitions(), KEY, 8, OFF, policy)
  {
    assert 1 in Third() && Third()[1].key == KEY && Third()[1].to.Some? && 8 <= Third()[1].from;
  }
}
