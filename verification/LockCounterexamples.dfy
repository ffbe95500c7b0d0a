/**
 * Why the protocol says what it says: two concrete runs of transactions that break one of its
 * rules. The first upgrades a shared Company row lock, the second reads configuration without
 * the Branch lock.
 */
module LockCounterexamples {
  import opened Base
  import opened LockMachine
  import opened LockProofs

  // ----- upgrading a shared lock -----

  const COMPANY_ROW := Lock(2, 1, 0)

  /** The monetary guard first and the mutation of the same Company row later. */
  ghost function Upgrader(): seq<Action<int>> {
    [Acquire(COMPANY_ROW, Share), Acquire(COMPANY_ROW, Exclusive)]
  }

  ghost function Upgrading(
    first: nat, firstTicket: Option<nat>, second: nat, secondTicket: Option<nat>, clock: nat): System<int>
  {
    System([Txn(Upgrader(), first, firstTicket, map[], map[], false),
            Txn(Upgrader(), second, secondTicket, map[], map[], false)], map[], clock)
  }

  lemma UpgraderHoldsShare(t: Txn<int>)
    requires t.program == Upgrader() && t.pc == 1 && !t.committed
    ensures Holds(t, COMPANY_ROW, Share) && !Reentrant(t.program, t.pc, COMPANY_ROW, Exclusive)
  {
    assert t.program[0].Acquire? && t.program[0].lock == COMPANY_ROW && t.program[0].mode == Share;
  }

  /** Whoever both share a lock and both wait to have it exclusively wait forever. */
  lemma UpgradersBlockEachOther<V>(s: System<V>, i: nat, j: nat, l: Lock)
    requires i < |s.txns| && j < |s.txns| && i != j
    requires Holds(s.txns[i], l, Share) && Wants(s.txns[i], l, Exclusive) && s.txns[i].ticket.Some?
    requires Holds(s.txns[j], l, Share) && Wants(s.txns[j], l, Exclusive) && s.txns[j].ticket.Some?
    ensures !CanMove(s, i) && !CanMove(s, j)
  {
    assert Conflict(Exclusive, Share);
    assert Blocks(s.txns[j], l, Exclusive, s.txns[i].ticket.value);
    assert Blocks(s.txns[i], l, Exclusive, s.txns[j].ticket.value);
  }

  /** The no-upgrade rule is needed: two upgraders reach a state in which nobody can move. */
  lemma UpgradersDeadlock() returns (states: seq<System<int>>, schedule: seq<nat>)
    ensures Run(states, schedule) && Initial(states[0]) && |states[0].txns| == 2
    ensures forall i :: 0 <= i < 2 ==> states[0].txns[i].program == Upgrader()
    ensures forall i :: !CanMove(states[|schedule|], i)
    ensures !InOrder(states[0])
  {
    schedule := [0, 0, 1, 1, 0, 1];
    states := [Upgrading(0, None, 0, None, 0), Upgrading(0, Some(0), 0, None, 1), Upgrading(1, None, 0, None, 1),
               Upgrading(1, None, 0, Some(1), 2), Upgrading(1, None, 1, None, 2),
               Upgrading(1, Some(2), 1, None, 3), Upgrading(1, Some(2), 1, Some(3), 4)];
    UpgradeSteps();
    UpgraderIsUnordered(states[0]);
    LastUpgradeIsStuck(states[6]);
  }

  lemma LastUpgradeIsStuck(s: System<int>)
    requires s == Upgrading(1, Some(2), 1, Some(3), 4)
    ensures forall i :: !CanMove(s, i)
  {
    UpgraderHoldsShare(s.txns[0]);
    UpgraderHoldsShare(s.txns[1]);
    UpgradersBlockEachOther(s, 0, 1, COMPANY_ROW);
  }

  lemma UpgraderIsUnordered(s: System<int>)
    requires |s.txns| == 2 && s.txns[0].program == Upgrader() && s.txns[1].program == Upgrader()
    ensures !InOrder(s)
  {
    var p := s.txns[0].program;
    assert p[0].Acquire? && !Before(p[0].lock, p[1].lock) && !Reentrant(p, 1, COMPANY_ROW, Exclusive);
    assert !OrderedAt(p, 1);
    var a, b := s.txns[0].program[1], s.txns[1].program[0];
    assert Opposes(b, a) && !Excluded(p, 1, s.txns[1].program, 0);
    assert !Shielded(s, 0, 1);
  }

  lemma UpgradeSteps()
    ensures Steps(Upgrading(0, None, 0, None, 0), 0, Upgrading(0, Some(0), 0, None, 1))
    ensures Steps(Upgrading(0, Some(0), 0, None, 1), 0, Upgrading(1, None, 0, None, 1))
    ensures Steps(Upgrading(1, None, 0, None, 1), 1, Upgrading(1, None, 0, Some(1), 2))
    ensures Steps(Upgrading(1, None, 0, Some(1), 2), 1, Upgrading(1, None, 1, None, 2))
    ensures Steps(Upgrading(1, None, 1, None, 2), 0, Upgrading(1, Some(2), 1, None, 3))
    ensures Steps(Upgrading(1, Some(2), 1, None, 3), 1, Upgrading(1, Some(2), 1, Some(3), 4))
  {
    var last := Upgrading(1, Some(2), 1, Some(3), 4);
    UpgraderHoldsShare(last.txns[0]);
    UpgraderHoldsShare(last.txns[1]);
  }

  ghost predicate Steps(s: System<int>, i: nat, next: System<int>) {
    CanMove(s, i) && next == Do(s, i)
  }

  // ----- reading without the Branch lock -----

  const BRANCH_LOCK := Lock(10, 1, 0)
  const FIRST := Item(1, 1)
  const SECOND := Item(1, 2)

  ghost function Writer(): seq<Action<int>> {
    [Acquire(BRANCH_LOCK, Exclusive), Modify(FIRST, (v: int) => v + 1), Modify(SECOND, (v: int) => v + 1)]
  }

  /** A creator that freezes the layout item by item without taking the Branch lock. */
  ghost function UnguardedReader(): seq<Action<int>> {
    [Read(FIRST), Read(SECOND)]
  }

  /** The writer's position and pending writes, the reader's position and view, the store. */
  ghost function Reading(
    pc: nat, ticket: Option<nat>, pending: map<Item, int>, committed: bool, at: nat, view: map<Item, int>,
    store: map<Item, int>, clock: nat): System<int>
  {
    System([Txn(Writer(), pc, ticket, map[], pending, committed),
            Txn(UnguardedReader(), at, None, view, map[], false)], store, clock)
  }

  ghost function Both(v: int, w: int): map<Item, int> { map[FIRST := v, SECOND := w] }

  ghost function Only(v: int): map<Item, int> { map[FIRST := v] }

  lemma TearingStarts()
    ensures Steps(Reading(0, None, map[], false, 0, map[], Both(0, 0), 0), 1,
                  Reading(0, None, map[], false, 1, Only(0), Both(0, 0), 0))
    ensures Steps(Reading(0, None, map[], false, 1, Only(0), Both(0, 0), 0), 0,
                  Reading(0, Some(0), map[], false, 1, Only(0), Both(0, 0), 1))
    ensures Steps(Reading(0, Some(0), map[], false, 1, Only(0), Both(0, 0), 1), 0,
                  Reading(1, None, map[], false, 1, Only(0), Both(0, 0), 1))
  {
  }

  lemma TearingWrites()
    ensures Steps(Reading(1, None, map[], false, 1, Only(0), Both(0, 0), 1), 0,
                  Reading(2, None, Only(1), false, 1, Only(0), Both(0, 0), 1))
    ensures Steps(Reading(2, None, Only(1), false, 1, Only(0), Both(0, 0), 1), 0,
                  Reading(3, None, Both(1, 1), false, 1, Only(0), Both(0, 0), 1))
  {
  }

  lemma TearingEnds()
    ensures Steps(Reading(3, None, Both(1, 1), false, 1, Only(0), Both(0, 0), 1), 0,
                  Reading(3, None, Both(1, 1), true, 1, Only(0), Both(1, 1), 1))
    ensures Steps(Reading(3, None, Both(1, 1), true, 1, Only(0), Both(1, 1), 1), 1,
                  Reading(3, None, Both(1, 1), true, 2, Both(0, 1), Both(1, 1), 1))
  {
  }

  /**
   * The Branch lock is needed: a reader without it sees the first definition before the writer's
   * commit and the second after it, a pair that was never committed.
   */
  lemma UnguardedSnapshotIsTorn() returns (states: seq<System<int>>, schedule: seq<nat>)
    ensures Run(states, schedule) && Initial(states[0])
    ensures forall k :: 0 <= k <= |schedule| ==> |states[k].txns| == 2 && states[k].store in {Both(0, 0), Both(1, 1)}
    ensures states[0].txns[0].program == Writer() && states[0].txns[1].program == UnguardedReader()
    ensures states[|schedule|].txns[1].view == Both(0, 1)
    ensures !Guarded(UnguardedReader(), (o: Item) => BRANCH_LOCK)
  {
    hide Both, Only, Do, CanMove, Writer, UnguardedReader, Guarded;
    schedule := [1, 0, 0, 0, 0, 0, 1];
    states := [
      Reading(0, None, map[], false, 0, map[], Both(0, 0), 0), Reading(0, None, map[], false, 1, Only(0), Both(0, 0), 0),
      Reading(0, Some(0), map[], false, 1, Only(0), Both(0, 0), 1), Reading(1, None, map[], false, 1, Only(0), Both(0, 0), 1),
      Reading(2, None, Only(1), false, 1, Only(0), Both(0, 0), 1), Reading(3, None, Both(1, 1), false, 1, Only(0), Both(0, 0), 1),
      Reading(3, None, Both(1, 1), true, 1, Only(0), Both(1, 1), 1),
      Reading(3, None, Both(1, 1), true, 2, Both(0, 1), Both(1, 1), 1)];
    TearingStarts();
    TearingWrites();
    TearingEnds();
    ReaderIsUnguarded();
  }

  lemma ReaderIsUnguarded()
    ensures !Guarded(UnguardedReader(), (o: Item) => BRANCH_LOCK)
  {
    assert UnguardedReader()[0].Read?;
  }
}
