/**
 * Transactions of the compensation domain as step machines over one lock table.
 *
 * A transaction runs its actions in order, holds every lock until it ends, re-enters a lock it
 * already holds at least as strongly without waiting, sees committed data plus its own writes
 * (READ COMMITTED), and publishes its writes atomically when it commits. A blocked request
 * queues: it waits for conflicting holders and for conflicting requests that queued before it.
 */
module LockMachine {
  import opened Base

  datatype Mode = Share | Exclusive

  /** A lock, placed in the global order by its level and then by its ids. */
  datatype Lock = Lock(level: nat, major: nat, minor: nat)

  /** One piece of configuration: the version history of a definition in a Branch. */
  datatype Item = Item(branch: nat, definition: nat)

  datatype Action<!V> =
    | Acquire(lock: Lock, mode: Mode)
    | Read(item: Item)
    | Modify(item: Item, f: V -> V)

  datatype Txn<!V> = Txn(
    program: seq<Action<V>>, pc: nat, ticket: Option<nat>,
    view: map<Item, V>, pending: map<Item, V>, committed: bool)

  datatype System<!V> = System(txns: seq<Txn<V>>, store: map<Item, V>, clock: nat)

  predicate Before(a: Lock, b: Lock) {
    a.level < b.level
    || (a.level == b.level && (a.major < b.major || (a.major == b.major && a.minor < b.minor)))
  }

  predicate Conflict(m: Mode, n: Mode) {
    m.Exclusive? || n.Exclusive?
  }

  predicate Covers(held: Mode, wanted: Mode) {
    held.Exclusive? || wanted.Share?
  }

  // ----- the steps -----

  ghost predicate Acquired<V>(program: seq<Action<V>>, n: nat, l: Lock, m: Mode) {
    exists j :: 0 <= j < n && j < |program| && program[j].Acquire? && program[j].lock == l && program[j].mode == m
  }

  ghost predicate Holds<V>(t: Txn<V>, l: Lock, m: Mode) {
    !t.committed && Acquired(t.program, t.pc, l, m)
  }

  /** The lock is already held strongly enough: taking it again is a no-op. */
  ghost predicate Reentrant<V>(program: seq<Action<V>>, n: nat, l: Lock, m: Mode) {
    exists held :: Covers(held, m) && Acquired(program, n, l, held)
  }

  ghost predicate Wants<V>(t: Txn<V>, l: Lock, m: Mode) {
    !t.committed && t.pc < |t.program| && t.program[t.pc].Acquire?
    && t.program[t.pc].lock == l && t.program[t.pc].mode == m
  }

  /** Transaction j keeps a queued request for (l, m) with this ticket waiting. */
  ghost predicate Blocks<V>(t: Txn<V>, l: Lock, m: Mode, ticket: nat) {
    exists n :: Conflict(m, n) &&
                (Holds(t, l, n) || (Wants(t, l, n) && t.ticket.Some? && t.ticket.value < ticket))
  }

  ghost predicate CanMove<V>(s: System<V>, i: nat) {
    i < |s.txns| &&
    var t := s.txns[i];
    !t.committed && t.pc <= |t.program| &&
    (t.pc < |t.program| ==>
      match t.program[t.pc]
      case Acquire(l, m) =>
        || t.ticket.None?
        || forall j :: 0 <= j < |s.txns| && j != i ==> !Blocks(s.txns[j], l, m, t.ticket.value)
      case Read(o) => o in s.store
      case Modify(o, _) => o in s.store)
  }

  ghost function Advanced<V>(t: Txn<V>): Txn<V> {
    t.(pc := t.pc + 1, ticket := None)
  }

  /** What a transaction sees: its own pending write, else the committed value. */
  ghost function Seen<V>(pending: map<Item, V>, store: map<Item, V>, o: Item): V
    requires o in store
  {
    if o in pending then pending[o] else store[o]
  }

  ghost function Do<V>(s: System<V>, i: nat): System<V>
    requires CanMove(s, i)
  {
    var t := s.txns[i];
    if t.pc == |t.program| then
      System(s.txns[i := t.(committed := true)], s.store + t.pending, s.clock)
    else match t.program[t.pc]
      case Acquire(l, m) =>
        if t.ticket.Some? || Reentrant(t.program, t.pc, l, m)
        then s.(txns := s.txns[i := Advanced(t)])
        else s.(txns := s.txns[i := t.(ticket := Some(s.clock))], clock := s.clock + 1)
      case Read(o) =>
        s.(txns := s.txns[i := Advanced(t).(view := t.view[o := Seen(t.pending, s.store, o)])])
      case Modify(o, f) =>
        s.(txns := s.txns[i := Advanced(t).(pending := t.pending[o := f(Seen(t.pending, s.store, o))])])
  }

  /** A run: the scheduler picks, at every step, any transaction that can move. */
  ghost predicate Run<V>(states: seq<System<V>>, schedule: seq<nat>) {
    |states| == |schedule| + 1 &&
    forall k :: 0 <= k < |schedule| ==>
      CanMove(states[k], schedule[k]) && states[k + 1] == Do(states[k], schedule[k])
  }

  ghost predicate Initial<V>(s: System<V>) {
    s.clock == 0 &&
    forall i :: 0 <= i < |s.txns| ==>
      s.txns[i] == Txn(s.txns[i].program, 0, None, map[], map[], false)
  }

  // ----- what a transaction would do alone -----

  datatype Effect<V> = Effect(view: map<Item, V>, pending: map<Item, V>)

  ghost predicate Known<V>(program: seq<Action<V>>, store: map<Item, V>) {
    forall j :: 0 <= j < |program| ==>
      (program[j].Read? ==> program[j].item in store) && (program[j].Modify? ==> program[j].item in store)
  }

  /** The actions executed in order, alone, against one fixed committed state. */
  ghost function Alone<V>(program: seq<Action<V>>, store: map<Item, V>): Effect<V>
    requires Known(program, store)
  {
    if program == [] then Effect(map[], map[])
    else
      var n := |program| - 1;
      var e := Alone(program[..n], store);
      match program[n]
      case Acquire(_, _) => e
      case Read(o) => e.(view := e.view[o := Seen(e.pending, store, o)])
      case Modify(o, f) => e.(pending := e.pending[o := f(Seen(e.pending, store, o))])
  }

  ghost predicate Touches<V>(a: Action<V>, o: Item) {
    (a.Read? && a.item == o) || (a.Modify? && a.item == o)
  }

  /** Running alone depends only on the items the actions touch. */
  lemma {:induction false} AloneDependsOnTouched<V>(program: seq<Action<V>>, a: map<Item, V>, b: map<Item, V>)
    requires Known(program, a) && Known(program, b)
    requires forall j, o :: 0 <= j < |program| && Touches(program[j], o) ==> a[o] == b[o]
    ensures Alone(program, a) == Alone(program, b)
  {
    if program != [] {
      var n := |program| - 1;
      AloneDependsOnTouched(program[..n], a, b);
      if !program[n].Acquire? {
        assert Touches(program[n], program[n].item);
      }
    }
  }

  lemma {:induction false} PendingIsModified<V>(program: seq<Action<V>>, store: map<Item, V>, o: Item)
    requires Known(program, store) && o in Alone(program, store).pending
    ensures exists j :: 0 <= j < |program| && program[j].Modify? && program[j].item == o
  {
    var n := |program| - 1;
    if !(program[n].Modify? && program[n].item == o) {
      PendingIsModified(program[..n], store, o);
      var j :| 0 <= j < n && program[..n][j].Modify? && program[..n][j].item == o;
      assert program[j].Modify? && program[j].item == o;
    }
  }
}
