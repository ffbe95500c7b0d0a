/**
 * What the global lock order and the Branch configuration lock buy: no run ever gets stuck,
 * every run ends, and every transaction takes effect as if it had run alone at its commit.
 */
module LockTheorems {
  import opened Base
  import opened LockMachine
  import opened LockProofs

  // ----- deadlock freedom -----

  ghost predicate Waiting<V>(s: System<V>, i: nat) {
    i < |s.txns| && s.txns[i].ticket.Some? && Queued(s, s.txns[i])
  }

  ghost function Wanted<V>(s: System<V>, i: nat): Lock
    requires Waiting(s, i)
  {
    s.txns[i].program[s.txns[i].pc].lock
  }

  /** i waits for a later lock than j, or for the same lock with an earlier ticket. */
  ghost predicate Ahead<V>(s: System<V>, i: nat, j: nat)
    requires Waiting(s, i) && Waiting(s, j)
  {
    Before(Wanted(s, j), Wanted(s, i))
    || (Wanted(s, j) == Wanted(s, i) && s.txns[i].ticket.value < s.txns[j].ticket.value)
  }

  /** Among waiting transactions one is ahead of all the others. */
  lemma {:induction false} OneIsAhead<V>(s: System<V>, n: nat) returns (i: nat)
    requires Queues(s) && n <= |s.txns|
    requires forall j :: 0 <= j < n && !s.txns[j].committed ==> Waiting(s, j)
    requires exists j :: 0 <= j < n && !s.txns[j].committed
    ensures i < n && !s.txns[i].committed
    ensures forall j :: 0 <= j < n && j != i && !s.txns[j].committed ==> Ahead(s, i, j)
  {
    var last := n - 1;
    if exists j :: 0 <= j < last && !s.txns[j].committed {
      i := OneIsAhead(s, last);
      if !s.txns[last].committed && Ahead(s, last, i) {
        i := last;
      }
    } else {
      i := last;
    }
  }

  /** A transaction that cannot move is waiting in a queue. */
  lemma StuckMeansWaiting<V>(s: System<V>, guard: Item -> Lock, i: nat)
    requires Inv(s, guard) && i < |s.txns| && !s.txns[i].committed && !CanMove(s, i)
    ensures Waiting(s, i)
  {
    assert Queued(s, s.txns[i]);
  }

  /** The transaction that is ahead of all the others is not blocked by one that waits in order. */
  lemma AheadIsNotBlocked<V>(s: System<V>, guard: Item -> Lock, i: nat, j: nat)
    requires Inv(s, guard) && Waiting(s, i) && j < |s.txns| && j != i
    requires !s.txns[j].committed ==>
               Waiting(s, j) && Ahead(s, i, j) && OrderedAt(s.txns[j].program, s.txns[j].pc)
    ensures !Blocks(s.txns[j], Wanted(s, i), s.txns[i].program[s.txns[i].pc].mode, s.txns[i].ticket.value)
  {
  }

  lemma ExcludedNeverMeet<V>(s: System<V>, i: nat, j: nat, n: nat)
    requires Compatible(s) && i < |s.txns| && j < |s.txns| && i != j
    requires !s.txns[i].committed && !s.txns[j].committed && n <= s.txns[j].pc
    ensures !Excluded(s.txns[i].program, s.txns[i].pc, s.txns[j].program, n)
  {
    var p, q := s.txns[i].program, s.txns[j].program;
    if Excluded(p, s.txns[i].pc, q, n) {
      var l, a, b :| Conflict(a, b) && Acquired(p, s.txns[i].pc, l, a) && Acquired(q, n, l, b);
      StillAcquired(q, n, s.txns[j].pc, l, b);
      CompatiblePair(s, i, j, l, a, b);
    }
  }

  /** A transaction that waits at a shielded request is never blocked at all. */
  lemma ShieldedIsNotBlocked<V>(s: System<V>, guard: Item -> Lock, i: nat, j: nat)
    requires Inv(s, guard) && Waiting(s, i) && Shielded(s, i, s.txns[i].pc) && j < |s.txns| && j != i
    ensures !Blocks(s.txns[j], Wanted(s, i), s.txns[i].program[s.txns[i].pc].mode, s.txns[i].ticket.value)
  {
    var u := s.txns[j];
    var a := s.txns[i].program[s.txns[i].pc];
    if Blocks(u, a.lock, a.mode, s.txns[i].ticket.value) {
      var m :| Conflict(a.mode, m) && (Holds(u, a.lock, m) || Wants(u, a.lock, m));
      var n := u.pc;
      if Holds(u, a.lock, m) {
        n :| 0 <= n < u.pc && n < |u.program| && u.program[n].Acquire? && u.program[n].lock == a.lock && u.program[n].mode == m;
      }
      assert Opposes(u.program[n], a);
      ExcludedNeverMeet(s, i, j, n);
    }
  }

  /**
   * Deadlock freedom: in every state of every run of transactions whose requests are ordered or
   * shielded, as long as one has not committed, some transaction can move.
   */
  lemma SomeoneCanMove<V>(s: System<V>, guard: Item -> Lock)
    requires Inv(s, guard) && InOrder(s) && exists i :: 0 <= i < |s.txns| && !s.txns[i].committed
    ensures exists i :: CanMove(s, i)
  {
    if forall i :: !CanMove(s, i) {
      forall i | 0 <= i < |s.txns| && !s.txns[i].committed ensures Waiting(s, i) {
        StuckMeansWaiting(s, guard, i);
      }
      var i := OneIsAhead(s, |s.txns|);
      if shielded: nat :| shielded < |s.txns| && !s.txns[shielded].committed && Shielded(s, shielded, s.txns[shielded].pc) {
        i := shielded;
        forall j | 0 <= j < |s.txns| && j != i
          ensures !Blocks(s.txns[j], Wanted(s, i), s.txns[i].program[s.txns[i].pc].mode, s.txns[i].ticket.value)
        {
          ShieldedIsNotBlocked(s, guard, i, j);
        }
      } else {
        forall j | 0 <= j < |s.txns| && j != i
          ensures !Blocks(s.txns[j], Wanted(s, i), s.txns[i].program[s.txns[i].pc].mode, s.txns[i].ticket.value)
        {
          AheadIsNotBlocked(s, guard, i, j);
        }
      }
      assert CanMove(s, i);
    }
  }

  lemma OrderStays<V>(s: System<V>, s': System<V>)
    requires InOrder(s) && |s'.txns| == |s.txns|
    requires forall i :: 0 <= i < |s.txns| ==> s'.txns[i].program == s.txns[i].program
    ensures InOrder(s')
  {
    forall i, j | 0 <= i < |s'.txns| && 0 <= j < |s'.txns[i].program| && s'.txns[i].program[j].Acquire?
      ensures OrderedAt(s'.txns[i].program, j) || Shielded(s', i, j)
    {
      assert OrderedAt(s.txns[i].program, j) || Shielded(s, i, j);
      if Shielded(s, i, j) {
        assert Shielded(s', i, j);
      }
    }
  }

  // ----- every run ends -----

  ghost function Work<V>(t: Txn<V>): int {
    if t.committed then 0 else 1 + 2 * (|t.program| - t.pc) - (if t.ticket.Some? then 1 else 0)
  }

  ghost function TotalWork<V>(txns: seq<Txn<V>>): int {
    if txns == [] then 0 else TotalWork(txns[..|txns| - 1]) + Work(txns[|txns| - 1])
  }

  lemma {:induction false} WorkOfUpdate<V>(txns: seq<Txn<V>>, i: nat, t: Txn<V>)
    requires i < |txns|
    ensures TotalWork(txns[i := t]) == TotalWork(txns) - Work(txns[i]) + Work(t)
  {
    var n := |txns| - 1;
    if i == n {
      assert txns[i := t][..n] == txns[..n];
    } else {
      assert txns[i := t][..n] == txns[..n][i := t];
      WorkOfUpdate(txns[..n], i, t);
    }
  }

  lemma {:induction false} WorkIsNonNegative<V>(txns: seq<Txn<V>>)
    requires forall i :: 0 <= i < |txns| ==>
               txns[i].pc <= |txns[i].program| && (txns[i].ticket.Some? ==> txns[i].pc < |txns[i].program|)
    ensures TotalWork(txns) >= 0
  {
    if txns != [] {
      WorkIsNonNegative(txns[..|txns| - 1]);
    }
  }

  lemma StepDoesWork<V>(s: System<V>, i: nat)
    requires CanMove(s, i) && Queued(s, s.txns[i])
    ensures TotalWork(Do(s, i).txns) < TotalWork(s.txns)
  {
    WorkOfUpdate(s.txns, i, Do(s, i).txns[i]);
  }

  lemma {:induction false} RunsAreBounded<V>(states: seq<System<V>>, schedule: seq<nat>, guard: Item -> Lock)
    requires Run(states, schedule) && Initial(states[0]) && Disciplined(states[0], guard)
    ensures TotalWork(states[|schedule|].txns) + |schedule| <= TotalWork(states[0].txns)
  {
    if schedule != [] {
      var n := |schedule| - 1;
      RunsAreBounded(states[..n + 1], schedule[..n], guard);
      RunKeepsInv(states, schedule, guard, n);
      StepDoesWork(states[n], schedule[n]);
    }
  }

  /** Every run is finite: it takes at most TotalWork steps, two for an action and one to commit. */
  lemma RunsEnd<V>(states: seq<System<V>>, schedule: seq<nat>, guard: Item -> Lock)
    requires Run(states, schedule) && Initial(states[0]) && Disciplined(states[0], guard)
    ensures |schedule| <= TotalWork(states[0].txns)
  {
    RunKeepsInv(states, schedule, guard, |schedule|);
    RunsAreBounded(states, schedule, guard);
    WorkIsNonNegative(states[|schedule|].txns);
  }

  /** And a run of ordered transactions that cannot be continued has committed every one. */
  lemma EveryRunEndsCommitted<V>(states: seq<System<V>>, schedule: seq<nat>, guard: Item -> Lock)
    requires Run(states, schedule) && Initial(states[0]) && Disciplined(states[0], guard) && InOrder(states[0])
    requires forall i :: !CanMove(states[|schedule|], i)
    ensures forall i :: 0 <= i < |states[|schedule|].txns| ==> states[|schedule|].txns[i].committed
  {
    var s := states[|schedule|];
    RunKeepsInv(states, schedule, guard, |schedule|);
    ProgramsNeverChange(states, schedule);
    OrderStays(states[0], s);
    if exists i :: 0 <= i < |s.txns| && !s.txns[i].committed {
      SomeoneCanMove(s, guard);
    }
  }

  // ----- atomicity -----

  /** The committed state after running whole programs one after another, alone. */
  ghost function OneByOne<V>(programs: seq<seq<Action<V>>>, order: seq<nat>, store: map<Item, V>): map<Item, V>
    requires forall k :: 0 <= k < |order| ==> order[k] < |programs|
    requires forall i :: 0 <= i < |programs| ==> Known(programs[i], store)
    ensures store.Keys <= OneByOne(programs, order, store).Keys
  {
    if order == [] then store
    else
      var before := OneByOne(programs, order[..|order| - 1], store);
      before + Alone(programs[order[|order| - 1]], before).pending
  }

  ghost function Programs<V>(s: System<V>): seq<seq<Action<V>>> {
    seq(|s.txns|, i requires 0 <= i < |s.txns| => s.txns[i].program)
  }

  /** The transactions that committed during a run, in the order in which they did. */
  ghost function CommitOrder<V>(states: seq<System<V>>, schedule: seq<nat>): (order: seq<nat>)
    requires Run(states, schedule)
    ensures forall k :: 0 <= k < |order| ==> order[k] in schedule
  {
    if schedule == [] then []
    else
      var n := |schedule| - 1;
      var t := states[n].txns[schedule[n]];
      CommitOrder(states[..n + 1], schedule[..n]) + (if t.pc == |t.program| then [schedule[n]] else [])
  }

  lemma {:induction false} ProgramsNeverChange<V>(states: seq<System<V>>, schedule: seq<nat>)
    requires Run(states, schedule)
    ensures |states[|schedule|].txns| == |states[0].txns|
    ensures forall i :: 0 <= i < |states[0].txns| ==> states[|schedule|].txns[i].program == states[0].txns[i].program
    ensures forall k :: 0 <= k < |schedule| ==> schedule[k] < |states[0].txns|
  {
    if schedule != [] {
      var n := |schedule| - 1;
      ProgramsNeverChange(states[..n + 1], schedule[..n]);
      DoKeepsPrograms(states[n], schedule[n]);
    }
  }

  /** A commit publishes what the whole program would have done alone just then; nothing else publishes. */
  lemma CommitIsAtomic<V>(s: System<V>, guard: Item -> Lock, i: nat)
    requires Inv(s, guard) && CanMove(s, i)
    ensures Known(s.txns[i].program, s.store)
    ensures Do(s, i).store ==
            if s.txns[i].pc == |s.txns[i].program|
            then s.store + Alone(s.txns[i].program, s.store).pending else s.store
  {
    assert IsolatedAt(s, i);
    if s.txns[i].pc == |s.txns[i].program| {
      assert s.txns[i].program[..s.txns[i].pc] == s.txns[i].program;
    }
  }

  lemma OneMore<V>(programs: seq<seq<Action<V>>>, order: seq<nat>, i: nat, store: map<Item, V>)
    requires forall k :: 0 <= k < |order| ==> order[k] < |programs|
    requires i < |programs| && forall j :: 0 <= j < |programs| ==> Known(programs[j], store)
    ensures var before := OneByOne(programs, order, store);
            OneByOne(programs, order + [i], store) == before + Alone(programs[i], before).pending
  {
    assert (order + [i])[..|order|] == order;
  }

  /**
   * Serializability in commit order: however the transactions interleave, the committed
   * configuration is the one obtained by running the committed ones alone, one after another.
   */
  lemma {:induction false} RunsAreSerial<V>(states: seq<System<V>>, schedule: seq<nat>, guard: Item -> Lock)
    requires Run(states, schedule) && Initial(states[0]) && Disciplined(states[0], guard)
    ensures forall k :: 0 <= k < |CommitOrder(states, schedule)| ==>
              CommitOrder(states, schedule)[k] < |Programs(states[0])|
    ensures states[|schedule|].store
         == OneByOne(Programs(states[0]), CommitOrder(states, schedule), states[0].store)
  {
    hide Inv, Do, Guarded, Alone;
    ProgramsNeverChange(states, schedule);
    if schedule != [] {
      var n := |schedule| - 1;
      var i := schedule[n];
      var s := states[n];
      RunsAreSerial(states[..n + 1], schedule[..n], guard);
      ProgramsNeverChange(states[..n + 1], schedule[..n]);
      RunKeepsInv(states, schedule, guard, n);
      CommitIsAtomic(s, guard, i);
      assert Programs(states[0])[i] == s.txns[i].program;
      var before := CommitOrder(states[..n + 1], schedule[..n]);
      OneMore(Programs(states[0]), before, i, states[0].store);
      assert before + [] == before;
    }
  }

  // ----- coherent snapshots -----

  lemma {:induction false} ReaderSeesStore<V>(program: seq<Action<V>>, store: map<Item, V>)
    requires Known(program, store) && forall k :: 0 <= k < |program| ==> !program[k].Modify?
    ensures Alone(program, store).pending == map[]
    ensures forall o :: o in Alone(program, store).view ==> o in store && Alone(program, store).view[o] == store[o]
  {
    if program != [] {
      ReaderSeesStore(program[..|program| - 1], store);
    }
  }

  /**
   * A transaction that only reads under the guards has, at every moment until it commits, one
   * coherent snapshot: everything it has read so far equals the configuration committed right
   * now, although it read item by item while other transactions ran.
   */
  lemma SnapshotsAreCoherent<V>(
      states: seq<System<V>>, schedule: seq<nat>, guard: Item -> Lock, k: nat, i: nat, o: Item)
    requires Run(states, schedule) && Initial(states[0]) && Disciplined(states[0], guard) && k <= |schedule|
    requires i < |states[k].txns| && !states[k].txns[i].committed && o in states[k].txns[i].view
    requires forall j :: 0 <= j < |states[k].txns[i].program| ==> !states[k].txns[i].program[j].Modify?
    ensures o in states[k].store && states[k].txns[i].view[o] == states[k].store[o]
  {
    RunKeepsInv(states, schedule, guard, k);
    assert IsolatedAt(states[k], i);
    ReaderSeesStore(states[k].txns[i].program[..states[k].txns[i].pc], states[k].store);
  }
}
