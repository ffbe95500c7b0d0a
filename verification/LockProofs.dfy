/**
 * The discipline of the programs and the invariant of the lock machine, for any number of
 * transactions and any scheduling.
 */
module LockProofs {
  import opened Base
  import opened LockMachine

  // ----- the discipline -----

  /** The request is re-entrant, or lies after every lock requested before it. */
  ghost predicate OrderedAt<V>(program: seq<Action<V>>, j: nat)
    requires j < |program| && program[j].Acquire?
  {
    || Reentrant(program, j, program[j].lock, program[j].mode)
    || forall i :: 0 <= i < j && program[i].Acquire? ==> Before(program[i].lock, program[j].lock)
  }

  /** Whoever has run p up to j and whoever has run q up to n hold a lock that excludes one of them. */
  ghost predicate Excluded<V>(p: seq<Action<V>>, j: nat, q: seq<Action<V>>, n: nat) {
    exists l, a, b :: Conflict(a, b) && Acquired(p, j, l, a) && Acquired(q, n, l, b)
  }

  /** Nobody else can be at a conflicting request for the same lock, or past one, at the same time. */
  ghost predicate Shielded<V>(s: System<V>, i: nat, j: nat)
    requires i < |s.txns| && j < |s.txns[i].program| && s.txns[i].program[j].Acquire?
  {
    var a := s.txns[i].program[j];
    forall k, n :: 0 <= k < |s.txns| && k != i && 0 <= n < |s.txns[k].program| && Opposes(s.txns[k].program[n], a)
      ==> Excluded(s.txns[i].program, j, s.txns[k].program, n)
  }

  predicate Opposes<V>(b: Action<V>, a: Action<V>)
    requires a.Acquire?
  {
    b.Acquire? && b.lock == a.lock && Conflict(a.mode, b.mode)
  }

  /** Every request is in the global order or shielded. */
  ghost predicate InOrder<V>(s: System<V>) {
    forall i, j :: 0 <= i < |s.txns| && 0 <= j < |s.txns[i].program| && s.txns[i].program[j].Acquire? ==>
      OrderedAt(s.txns[i].program, j) || Shielded(s, i, j)
  }

  /** Items are read under their guarding lock and modified under it exclusively. */
  ghost predicate Guarded<V>(program: seq<Action<V>>, guard: Item -> Lock) {
    forall j :: 0 <= j < |program| ==>
      (program[j].Read? ==> exists m :: Acquired(program, j, guard(program[j].item), m))
      && (program[j].Modify? ==> Acquired(program, j, guard(program[j].item), Exclusive))
  }

  ghost predicate Disciplined<V>(s: System<V>, guard: Item -> Lock) {
    forall i :: 0 <= i < |s.txns| ==>
      Guarded(s.txns[i].program, guard) && Known(s.txns[i].program, s.store)
  }

  // ----- the invariant -----

  /** Two transactions never hold one lock in conflicting modes. */
  ghost predicate Compatible<V>(s: System<V>) {
    forall i, j, l, m, n ::
      0 <= i < |s.txns| && 0 <= j < |s.txns| && i != j && Holds(s.txns[i], l, m) && Holds(s.txns[j], l, n)
      ==> !Conflict(m, n)
  }

  ghost predicate Queued<V>(s: System<V>, t: Txn<V>) {
    t.ticket.Some? ==>
      && !t.committed && t.pc < |t.program| && t.program[t.pc].Acquire?
      && !Reentrant(t.program, t.pc, t.program[t.pc].lock, t.program[t.pc].mode)
      && t.ticket.value < s.clock
  }

  ghost predicate Queues<V>(s: System<V>) {
    && (forall i :: 0 <= i < |s.txns| ==> s.txns[i].pc <= |s.txns[i].program| && Queued(s, s.txns[i]))
    && (forall i, j :: 0 <= i < j < |s.txns| && s.txns[i].ticket.Some? && s.txns[j].ticket.Some?
          ==> s.txns[i].ticket != s.txns[j].ticket)
  }

  /** Every open transaction has seen and written exactly what it would have, alone, now. */
  ghost predicate Isolated<V>(s: System<V>) {
    forall i :: 0 <= i < |s.txns| && !s.txns[i].committed ==> IsolatedAt(s, i)
  }

  ghost predicate IsolatedAt<V>(s: System<V>, i: nat)
    requires i < |s.txns|
  {
    var t := s.txns[i];
    && t.pc <= |t.program| && Known(t.program[..t.pc], s.store)
    && Alone(t.program[..t.pc], s.store) == Effect(t.view, t.pending)
  }

  ghost predicate Inv<V>(s: System<V>, guard: Item -> Lock) {
    Disciplined(s, guard) && Compatible(s) && Queues(s) && Isolated(s)
  }

  lemma InitialInv<V>(s: System<V>, guard: Item -> Lock)
    requires Initial(s) && Disciplined(s, guard)
    ensures Inv(s, guard)
  {
    forall i | 0 <= i < |s.txns| ensures s.txns[i].pc == 0 && IsolatedAt(s, i) && Queued(s, s.txns[i]) {
      assert s.txns[i].program[..0] == [];
    }
  }

  // ----- every step keeps the invariant -----

  lemma DoKeepsPrograms<V>(s: System<V>, i: nat)
    requires CanMove(s, i)
    ensures |Do(s, i).txns| == |s.txns|
    ensures forall j :: 0 <= j < |s.txns| ==>
              Do(s, i).txns[j].program == s.txns[j].program && (j != i ==> Do(s, i).txns[j] == s.txns[j])
  {
  }

  lemma StoreOnlyGrows<V>(s: System<V>, i: nat)
    requires CanMove(s, i)
    ensures s.store.Keys <= Do(s, i).store.Keys
  {
  }

  /** Moving never makes a transaction hold more than its next request. */
  lemma HoldsAfter<V>(s: System<V>, i: nat, l: Lock, m: Mode)
    requires CanMove(s, i) && Queues(s)
    requires Holds(Do(s, i).txns[i], l, m) && !Holds(s.txns[i], l, m)
    ensures Wants(s.txns[i], l, m)
    ensures s.txns[i].ticket.Some? || Reentrant(s.txns[i].program, s.txns[i].pc, l, m)
  {
    var t := s.txns[i];
    var t' := Do(s, i).txns[i];
    var j :| 0 <= j < t'.pc && j < |t'.program| && t'.program[j].Acquire?
             && t'.program[j].lock == l && t'.program[j].mode == m;
    assert j == t.pc;
  }

  lemma CompatiblePair<V>(s: System<V>, i: nat, j: nat, l: Lock, m: Mode, n: Mode)
    requires Compatible(s) && i < |s.txns| && j < |s.txns| && i != j
    requires Holds(s.txns[i], l, m) && Holds(s.txns[j], l, n)
    ensures !Conflict(m, n)
  {
  }

  lemma CompatibleKept<V>(s: System<V>, i: nat)
    requires CanMove(s, i) && Queues(s) && Compatible(s)
    ensures Compatible(Do(s, i))
  {
    var s' := Do(s, i);
    DoKeepsPrograms(s, i);
    forall j, l, m, n | 0 <= j < |s.txns| && j != i && Holds(s'.txns[i], l, m) && Holds(s.txns[j], l, n)
      ensures !Conflict(m, n) && !Conflict(n, m)
    {
      if !Holds(s.txns[i], l, m) {
        HoldsAfter(s, i, l, m);
        if s.txns[i].ticket.Some? {
          assert !Blocks(s.txns[j], l, m, s.txns[i].ticket.value);
        } else {
          var held :| Covers(held, m) && Acquired(s.txns[i].program, s.txns[i].pc, l, held);
          CompatiblePair(s, i, j, l, held, n);
        }
      }
    }
  }

  lemma QueuesKept<V>(s: System<V>, i: nat)
    requires CanMove(s, i) && Queues(s)
    ensures Queues(Do(s, i))
  {
    var s' := Do(s, i);
    DoKeepsPrograms(s, i);
    forall j | 0 <= j < |s.txns| && j != i ensures Queued(s', s'.txns[j]) {
      assert Queued(s, s.txns[j]);
    }
  }

  /** An own step extends the isolated execution by one action. */
  lemma OwnStepIsolated<V>(s: System<V>, i: nat)
    requires CanMove(s, i) && IsolatedAt(s, i) && s.txns[i].pc < |s.txns[i].program|
    ensures IsolatedAt(Do(s, i), i)
  {
    var t := s.txns[i];
    assert t.program[..t.pc + 1][..t.pc] == t.program[..t.pc];
  }

  lemma StillAcquired<V>(program: seq<Action<V>>, k: nat, n: nat, l: Lock, m: Mode)
    requires Acquired(program, k, l, m) && k <= n
    ensures Acquired(program, n, l, m)
  {
  }

  /** Whoever is about to publish a change of an item holds the item's guard exclusively. */
  lemma WriterHoldsGuard<V>(t: Txn<V>, store: map<Item, V>, guard: Item -> Lock, o: Item)
    requires Guarded(t.program, guard) && Known(t.program, store) && !t.committed && t.pc == |t.program|
    requires o in Alone(t.program, store).pending
    ensures Holds(t, guard(o), Exclusive)
  {
    PendingIsModified(t.program, store, o);
    var w :| 0 <= w < |t.program| && t.program[w].Modify? && t.program[w].item == o;
    StillAcquired(t.program, w, t.pc, guard(o), Exclusive);
  }

  /** Whoever has touched an item holds its guard in some mode. */
  lemma ToucherHoldsGuard<V>(t: Txn<V>, guard: Item -> Lock, k: nat, o: Item) returns (m: Mode)
    requires Guarded(t.program, guard) && !t.committed && k < t.pc <= |t.program| && Touches(t.program[k], o)
    ensures Holds(t, guard(o), m)
  {
    m :| Acquired(t.program, k, guard(o), m);
    StillAcquired(t.program, k, t.pc, guard(o), m);
  }

  /** Nobody else can be committing a change to an item that an open transaction has touched. */
  lemma TouchedItemsAreStable<V>(s: System<V>, guard: Item -> Lock, i: nat, j: nat, k: nat, o: Item)
    requires Disciplined(s, guard) && Compatible(s)
    requires i < |s.txns| && j < |s.txns| && i != j && IsolatedAt(s, i)
    requires !s.txns[i].committed && s.txns[i].pc == |s.txns[i].program|
    requires !s.txns[j].committed && k < s.txns[j].pc <= |s.txns[j].program| && Touches(s.txns[j].program[k], o)
    ensures o !in s.txns[i].pending
  {
    var t := s.txns[i];
    assert t.program[..t.pc] == t.program;
    if o in t.pending {
      WriterHoldsGuard(t, s.store, guard, o);
      var m := ToucherHoldsGuard(s.txns[j], guard, k, o);
      CompatiblePair(s, i, j, guard(o), Exclusive, m);
    }
  }

  lemma CommitKeepsOthersIsolated<V>(s: System<V>, guard: Item -> Lock, i: nat, j: nat)
    requires Inv(s, guard) && CanMove(s, i) && s.txns[i].pc == |s.txns[i].program|
    requires j < |s.txns| && j != i && !s.txns[j].committed
    ensures IsolatedAt(Do(s, i), j)
  {
    var s' := Do(s, i);
    var u := s.txns[j];
    assert IsolatedAt(s, i) && IsolatedAt(s, j);
    var prefix := u.program[..u.pc];
    forall k, o | 0 <= k < |prefix| && Touches(prefix[k], o) ensures s.store[o] == s'.store[o] {
      TouchedItemsAreStable(s, guard, i, j, k, o);
    }
    AloneDependsOnTouched(prefix, s.store, s'.store);
  }

  lemma IsolatedKept<V>(s: System<V>, guard: Item -> Lock, i: nat)
    requires Inv(s, guard) && CanMove(s, i)
    ensures Isolated(Do(s, i))
  {
    var s' := Do(s, i);
    DoKeepsPrograms(s, i);
    forall j | 0 <= j < |s.txns| && !s'.txns[j].committed ensures IsolatedAt(s', j) {
      assert IsolatedAt(s, j);
      if s.txns[i].pc == |s.txns[i].program| {
        CommitKeepsOthersIsolated(s, guard, i, j);
      } else if j == i {
        OwnStepIsolated(s, i);
      }
    }
  }

  lemma StepKeepsInv<V>(s: System<V>, guard: Item -> Lock, i: nat)
    requires Inv(s, guard) && CanMove(s, i)
    ensures Inv(Do(s, i), guard)
  {
    DoKeepsPrograms(s, i);
    StoreOnlyGrows(s, i);
    CompatibleKept(s, i);
    QueuesKept(s, i);
    IsolatedKept(s, guard, i);
  }

  lemma {:induction false} RunKeepsInv<V>(states: seq<System<V>>, schedule: seq<nat>, guard: Item -> Lock, k: nat)
    requires Run(states, schedule) && Initial(states[0]) && Disciplined(states[0], guard) && k <= |schedule|
    ensures Inv(states[k], guard)
  {
    if k == 0 {
      InitialInv(states[0], guard);
    } else {
      RunKeepsInv(states, schedule, guard, k - 1);
      StepKeepsInv(states[k - 1], guard, schedule[k - 1]);
    }
  }
}
