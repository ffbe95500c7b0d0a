/**
 * Any number of the paths of LockPaths at once, interleaved in any way: when they cannot deadlock,
 * and what a period creator sees of the configuration.
 */
module LockSystem {
  import opened Base
  import opened LockMachine
  import opened LockProofs
  import opened LockTheorems
  import opened LockPaths

  /** A system running these jobs, each some transaction's whole program. */
  ghost predicate Runs<V>(s: System<V>, jobs: seq<Job<V>>) {
    |jobs| == |s.txns| &&
    forall i :: 0 <= i < |jobs| ==>
      SortedIds(jobs[i].path) && s.txns[i].program == Program(jobs[i]) && Known(Program(jobs[i]), s.store)
  }

  lemma PathsAreDisciplined<V>(s: System<V>, jobs: seq<Job<V>>)
    requires Runs(s, jobs)
    ensures Disciplined(s, Guard)
  {
    forall i | 0 <= i < |s.txns| ensures Follows(s.txns[i].program, Free(jobs[i])) {
      EveryPathFollows(jobs[i]);
    }
  }

  // ----- when the paths cannot deadlock -----

  /** Each PayDefinition has the one RateDefinition that its writers lock, if it has one. */
  ghost predicate AtHome<V>(path: Path<V>, home: nat -> Option<nat>) {
    match path
    case Retirement(_, structure, d) => structure == home(d)
    case StructureChange(structure, d) => Some(structure) == home(d)
    case PeriodCreation(_, _, structures, definitions) =>
      forall d :: d in definitions ==> home(d).Some? && home(d).value in structures
    case _ => true
  }

  /** The job ends the access of this account. */
  predicate Ends<V>(job: Job<V>, account: nat) {
    job.path.Boundary? && job.path.account == Some(account)
  }

  /** Nobody's rows name, out of order, an account whose access another of the transactions ends. */
  ghost predicate AccountsStay<V>(jobs: seq<Job<V>>) {
    forall i, j, x :: 0 <= i < |jobs| && 0 <= j < |jobs| && i != j && x in FreeAccounts(jobs[i]) ==> !Ends(jobs[j], x)
  }

  lemma {:induction false} WhatLocksTake<V>(segments: seq<Segment>, n: nat) returns (i: nat, k: nat)
    requires n < |Locks<V>(segments)|
    ensures i < |segments| && k < |segments[i].ids|
    ensures Locks<V>(segments)[n] == Acquire(Row(segments[i].level, segments[i].ids[k]), segments[i].mode)
  {
    var last := |segments| - 1;
    var before := |Locks<V>(segments[..last])|;
    if n < before {
      i, k := WhatLocksTake<V>(segments[..last], n);
    } else {
      i, k := last, n - before;
      TakeAllSize<V>(segments[last].level, segments[last].ids, segments[last].mode);
      TakeAllTakes<V>(segments[last].level, segments[last].ids, segments[last].mode, k);
    }
  }

  lemma {:induction false} ReadsOnlyRead<V>(b: nat, definitions: seq<nat>, i: nat)
    requires i < |Reads<V>(b, definitions)|
    ensures Reads<V>(b, definitions)[i].Read?
  {
    var n := |definitions| - 1;
    if i < |Reads<V>(b, definitions[..n])| {
      ReadsOnlyRead<V>(b, definitions[..n], i);
    }
  }

  /** What a creation's body does: name the actor, read, lock structures, and share definitions. */
  lemma WhatCreationDoes<V>(job: Job<V>, n: nat)
    requires job.path.PeriodCreation? && n < |Body(job)|
    ensures var a := Body(job)[n];
            || a.Read?
            || a == Naming(job.actor)
            || (a.Acquire? && a.lock.level == STRUCTURE && a.mode == Exclusive)
            || (a.Acquire? && a.lock.level == PAY_DEFINITION && a.mode == Share)
  {
    var PeriodCreation(_, b, structures, definitions) := job.path;
    var r := |Reads<V>(b, definitions)|;
    TakeAllSize<V>(STRUCTURE, structures, Exclusive);
    TakeAllSize<V>(PAY_DEFINITION, definitions, Share);
    if n == 0 {
    } else if n < 1 + r {
      ReadsOnlyRead<V>(b, definitions, n - 1);
    } else if n < 1 + r + |structures| {
      TakeAllTakes<V>(STRUCTURE, structures, Exclusive, n - 1 - r);
    } else if n < 1 + r + |structures| + r {
      ReadsOnlyRead<V>(b, definitions, n - 1 - r - |structures|);
    } else {
      TakeAllTakes<V>(PAY_DEFINITION, definitions, Share, n - 1 - r - |structures| - r);
    }
  }

  /** An exclusive lock outside the prologue is a Branch lock, a key or a structure. */
  lemma WhatBodiesTake<V>(job: Job<V>, n: nat)
    requires n < |Body(job)| && Body(job)[n].Acquire? && Body(job)[n].mode == Exclusive
    ensures Body(job)[n].lock.level in {BRANCH_CONFIG, CONFIG_KEY, STRUCTURE}
  {
    match job.path {
      case ConfigWrite(branches, d, edit) => EveryBranchLocks(job.actor, branches, d, edit, n);
      case Approval(_, _, _, _, _, _, _) =>
      case PeriodCreation(_, _, _, _) => WhatCreationDoes(job, n);
      case _ =>
    }
  }

  /** Only ending an account's access locks its row for update. */
  lemma WhoLocksAccounts<V>(job: Job<V>, n: nat, account: nat)
    requires n < |Program(job)| && Program(job)[n] == Acquire(Row(ACCOUNT, account), Exclusive)
    ensures Ends(job, account)
  {
    hide Body, Locks;
    var before := |Locks<V>(Prologue(job))|;
    if n < before {
      var i, k := WhatLocksTake<V>(Prologue(job), n);
    } else {
      WhatBodiesTake(job, n - before);
    }
  }

  lemma HeldLater<V>(p: seq<Action<V>>, q: seq<Action<V>>, n: nat, l: Lock, m: Mode)
    requires Acquired(p, |p|, l, m) && |p| <= n
    ensures Acquired(p + q, n, l, m)
  {
    var j :| 0 <= j < |p| && p[j].Acquire? && p[j].lock == l && p[j].mode == m;
    assert (p + q)[j] == p[j];
  }

  /** Whoever locks a definition after its structure has the structure by then. */
  lemma UnderItsStructure<V>(early: seq<Segment>, d: nat, rest: seq<Action<V>>, n: nat, structure: nat)
    requires Climbing(early) && early != [] && early[|early| - 1] == Segment(STRUCTURE, [structure], Exclusive)
    requires var p := Locks<V>(early + [Segment(PAY_DEFINITION, [d], Exclusive)]) + rest;
             n < |p| && p[n].Acquire? && p[n].lock.level == PAY_DEFINITION
    ensures Acquired(Locks<V>(early + [Segment(PAY_DEFINITION, [d], Exclusive)]) + rest, n, Row(STRUCTURE, structure), Exclusive)
  {
    var held := Locks<V>(early);
    var last := TakeAll<V>(PAY_DEFINITION, [d], Exclusive);
    LocksFollow<V>({}, early);
    LocksAcquire<V>(early, |early| - 1, 0);
    hide Locks, Follows, Climbing, Acquired, TakeAll;
    LocksOfOneMore<V>(early, Segment(PAY_DEFINITION, [d], Exclusive));
    assert held + last + rest == held + (last + rest);
    HeldLater(held, last + rest, n, Row(STRUCTURE, structure), Exclusive);
  }

  lemma LocksOfOneMore<V>(early: seq<Segment>, s: Segment)
    ensures Locks<V>(early + [s]) == Locks<V>(early) + TakeAll<V>(s.level, s.ids, s.mode)
  {
    assert (early + [s])[..|early|] == early;
  }

  /** The path locks this definition for update, after its structure if it names one. */
  predicate WritesDefinition<V>(path: Path<V>, d: nat, structure: Option<nat>) {
    match path
    case Retirement(_, its, definition) => definition == d && its == structure
    case StructureChange(its, definition) => definition == d && Some(its) == structure
    case _ => false
  }

  /** Only retirement and structure changes lock a definition for update, under its structure's lock. */
  lemma WhoLocksDefinitions<V>(job: Job<V>, n: nat, d: nat) returns (structure: Option<nat>)
    requires n < |Program(job)| && Program(job)[n] == Acquire(Row(PAY_DEFINITION, d), Exclusive)
    ensures WritesDefinition(job.path, d, structure)
    ensures structure.Some? ==> Acquired(Program(job), n, Row(STRUCTURE, structure.value), Exclusive)
  {
    hide Body, Locks, Acquired;
    var prologue := Prologue(job);
    var before := |Locks<V>(prologue)|;
    if n < before {
      var i, k := WhatLocksTake<V>(prologue, n);
      structure := if job.path.Retirement? then job.path.itsStructure else Some(job.path.structure);
      if structure.Some? {
        var early := prologue[..|prologue| - 1];
        assert prologue == early + [Segment(PAY_DEFINITION, [d], Exclusive)];
        UnderItsStructure<V>(early, d, Body(job), n, structure.value);
      }
    } else {
      WhatBodiesTake(job, n - before);
    }
  }

  /** Where a creation's rows share a definition, it has locked all the layout's structures. */
  lemma CreationHasStructures<V>(job: Job<V>, n: nat, structure: nat)
    requires job.path.PeriodCreation? && structure in job.path.structures
    requires n < |Program(job)| && Program(job)[n].Acquire? && Program(job)[n].lock.level == PAY_DEFINITION
    ensures Acquired(Program(job), n, Row(STRUCTURE, structure), Exclusive)
  {
    hide Program, Body, Locks, Follows, Acquired, Below, Climbing, Reads, TakeAll, LayoutRows;
    var PeriodCreation(_, b, structures, definitions) := job.path;
    var p := Locks<V>(Prologue(job)) + [Naming(job.actor)];
    CreationParts(job);
    CreationPrologueIsEarly(job);
    NamingStaysBelow(Locks<V>(Prologue(job)), job.actor, STRUCTURE);
    ReadsLockNothing(p, b, definitions, STRUCTURE);
    var k :| 0 <= k < |structures| && structures[k] == structure;
    StructuresBelow(p + Reads(b, definitions), structures);
    StructuresTaken(p + Reads(b, definitions), structures, k);
    StructuresHeld(p, b, structures, definitions, n, structure);
  }

  lemma StructuresHeld<V>(
      p: seq<Action<V>>, b: nat, structures: seq<nat>, definitions: seq<nat>, n: nat, structure: nat)
    requires var q := p + Reads(b, definitions) + TakeAll(STRUCTURE, structures, Exclusive);
             Acquired(q, |q|, Row(STRUCTURE, structure), Exclusive) && Below(q, PAY_DEFINITION)
    requires var q := p + LayoutLocks(b, structures, definitions) + LayoutRows(b, definitions);
             n < |q| && q[n].Acquire? && q[n].lock.level == PAY_DEFINITION
    ensures Acquired(p + LayoutLocks(b, structures, definitions) + LayoutRows(b, definitions), n,
                     Row(STRUCTURE, structure), Exclusive)
  {
    hide Reads, TakeAll, LayoutRows, Acquired;
    var held := p + LayoutLocks(b, structures, definitions);
    assert held == p + Reads(b, definitions) + TakeAll(STRUCTURE, structures, Exclusive);
    var q := held + LayoutRows(b, definitions);
    assert forall i :: 0 <= i < |held| ==> q[i] == held[i];
    assert n >= |held|;
    HeldLater(held, LayoutRows(b, definitions), n, Row(STRUCTURE, structure), Exclusive);
  }

  lemma CreationPrologueIsEarly<V>(job: Job<V>)
    requires job.path.PeriodCreation?
    ensures Below(Locks<V>(Prologue(job)), BRANCH_CONFIG + 1)
  {
    LocksFollow<V>({}, Prologue(job));
  }

  lemma StructuresBelow<V>(p: seq<Action<V>>, structures: seq<nat>)
    requires Below(p, STRUCTURE)
    ensures Below(p + TakeAll(STRUCTURE, structures, Exclusive), PAY_DEFINITION)
  {
    var q := p + TakeAll(STRUCTURE, structures, Exclusive);
    TakeAllSize<V>(STRUCTURE, structures, Exclusive);
    forall i | |p| <= i < |q| ensures q[i].Acquire? ==> q[i].lock.level < PAY_DEFINITION {
      TakeAllTakes<V>(STRUCTURE, structures, Exclusive, i - |p|);
    }
  }

  lemma StructuresTaken<V>(p: seq<Action<V>>, structures: seq<nat>, k: nat)
    requires k < |structures|
    ensures var q := p + TakeAll(STRUCTURE, structures, Exclusive); Acquired(q, |q|, Row(STRUCTURE, structures[k]), Exclusive)
  {
    var q := p + TakeAll(STRUCTURE, structures, Exclusive);
    TakeAllTakes<V>(STRUCTURE, structures, Exclusive, k);
    assert q[|p| + k] == Acquire(Row(STRUCTURE, structures[k]), Exclusive);
  }

  lemma NamingIsShielded<V>(s: System<V>, jobs: seq<Job<V>>, i: nat, j: nat, account: nat)
    requires Runs(s, jobs) && AccountsStay(jobs) && i < |jobs| && account in FreeAccounts(jobs[i])
    requires j < |s.txns[i].program| && s.txns[i].program[j] == Naming(account)
    ensures Shielded(s, i, j)
  {
    hide Program, Excluded;
    forall k, n | 0 <= k < |s.txns| && k != i && 0 <= n < |s.txns[k].program|
      ensures !Opposes(s.txns[k].program[n], s.txns[i].program[j])
    {
      if Opposes(s.txns[k].program[n], s.txns[i].program[j]) {
        WhoLocksAccounts(jobs[k], n, account);
      }
    }
  }

  lemma LayoutSharesAreShielded<V>(s: System<V>, jobs: seq<Job<V>>, home: nat -> Option<nat>, i: nat, j: nat, d: nat)
    requires Runs(s, jobs) && forall k :: 0 <= k < |jobs| ==> AtHome(jobs[k].path, home)
    requires i < |jobs| && jobs[i].path.PeriodCreation? && d in jobs[i].path.definitions
    requires j < |s.txns[i].program| && s.txns[i].program[j] == Acquire(Row(PAY_DEFINITION, d), Share)
    ensures Shielded(s, i, j)
  {
    var structure := home(d).value;
    CreationHasStructures(jobs[i], j, structure);
    hide Program, Acquired;
    forall k, n | 0 <= k < |s.txns| && k != i && 0 <= n < |s.txns[k].program| && Opposes(s.txns[k].program[n], s.txns[i].program[j])
      ensures Excluded(s.txns[i].program, j, s.txns[k].program, n)
    {
      var its := WhoLocksDefinitions(jobs[k], n, d);
      assert its == Some(structure);
      assert Conflict(Exclusive, Exclusive);
    }
  }

  lemma PathsAreInOrder<V>(s: System<V>, jobs: seq<Job<V>>, home: nat -> Option<nat>)
    requires Runs(s, jobs) && AccountsStay(jobs) && forall i :: 0 <= i < |jobs| ==> AtHome(jobs[i].path, home)
    ensures InOrder(s)
  {
    hide Program, OrderedAt, Shielded, Guarded;
    forall i, j | 0 <= i < |s.txns| && 0 <= j < |s.txns[i].program| && s.txns[i].program[j].Acquire?
      ensures OrderedAt(s.txns[i].program, j) || Shielded(s, i, j)
    {
      EveryPathFollows(jobs[i]);
      var a := s.txns[i].program[j];
      if !OrderedAt(s.txns[i].program, j) {
        assert IsFree(a, Free(jobs[i]));
        if a.lock.level == ACCOUNT {
          NamingIsShielded(s, jobs, i, j, a.lock.major);
        } else {
          LayoutSharesAreShielded(s, jobs, home, i, j, a.lock.major);
        }
      }
    }
  }

  /**
   * Any number of these transactions, interleaved in any way, as long as nobody names, out of
   * order, an account whose access another one ends: whenever one is unfinished some can move.
   */
  lemma PathsNeverDeadlock<V>(
      states: seq<System<V>>, schedule: seq<nat>, jobs: seq<Job<V>>, home: nat -> Option<nat>, k: nat)
    requires Run(states, schedule) && Initial(states[0]) && Runs(states[0], jobs) && k <= |schedule|
    requires AccountsStay(jobs) && forall i :: 0 <= i < |jobs| ==> AtHome(jobs[i].path, home)
    ensures (exists i :: 0 <= i < |states[k].txns| && !states[k].txns[i].committed) ==> exists i :: CanMove(states[k], i)
    ensures |schedule| <= TotalWork(states[0].txns)
  {
    PathsAreDisciplined(states[0], jobs);
    PathsAreInOrder(states[0], jobs, home);
    RunKeepsInv(states, schedule, Guard, k);
    ProgramsNeverChange(states[..k + 1], schedule[..k]);
    OrderStays(states[0], states[k]);
    if exists i :: 0 <= i < |states[k].txns| && !states[k].txns[i].committed {
      SomeoneCanMove(states[k], Guard);
    }
    RunsEnd(states, schedule, Guard);
  }

  // ----- what a period creator sees -----

  lemma PeriodCreationModifiesNothing<V>(job: Job<V>, i: nat)
    requires job.path.PeriodCreation? && i < |Program(job)|
    ensures !Program(job)[i].Modify?
  {
    var before := |Locks<V>(Prologue(job))|;
    hide Body, Locks;
    if i < before {
      var k, m := WhatLocksTake<V>(Prologue(job), i);
    } else {
      WhatCreationDoes(job, i - before);
    }
  }

  /**
   * A period creator that reads a Branch's definitions one at a time, while writers run, has
   * seen one committed configuration: the one left by those transactions that committed before,
   * each run whole and alone. No half-done write is ever in it.
   */
  lemma {:induction false} LayoutIsCommitted<V>(
      states: seq<System<V>>, schedule: seq<nat>, jobs: seq<Job<V>>, i: nat, o: Item)
    requires Run(states, schedule) && Initial(states[0]) && Runs(states[0], jobs) && i < |jobs|
    requires jobs[i].path.PeriodCreation?
    requires i < |states[|schedule|].txns| && !states[|schedule|].txns[i].committed
    requires o in states[|schedule|].txns[i].view
    ensures forall k :: 0 <= k < |CommitOrder(states, schedule)| ==> CommitOrder(states, schedule)[k] < |Programs(states[0])|
    ensures o in states[0].store
    ensures states[|schedule|].txns[i].view[o]
         == OneByOne(Programs(states[0]), CommitOrder(states, schedule), states[0].store)[o]
  {
    hide Program, Follows, Alone, Inv, Do, OneByOne, CommitOrder, Disciplined;
    PathsAreDisciplined(states[0], jobs);
    ProgramsNeverChange(states, schedule);
    forall j | 0 <= j < |states[|schedule|].txns[i].program|
      ensures !states[|schedule|].txns[i].program[j].Modify?
    {
      PeriodCreationModifiesNothing(jobs[i], j);
    }
    SnapshotsAreCoherent(states, schedule, Guard, |schedule|, i, o);
    RunsAreSerial(states, schedule, Guard);
    StoreNeverGrows(states, schedule, Guard);
  }

  lemma {:induction false} StoreNeverGrows<V>(states: seq<System<V>>, schedule: seq<nat>, guard: Item -> Lock)
    requires Run(states, schedule) && Initial(states[0]) && Disciplined(states[0], guard)
    ensures states[|schedule|].store.Keys == states[0].store.Keys
  {
    if schedule != [] {
      var n := |schedule| - 1;
      StoreNeverGrows(states[..n + 1], schedule[..n], guard);
      RunKeepsInv(states, schedule, guard, n);
      CommitIsAtomic(states[n], guard, schedule[n]);
      PendingIsKnown(states[n].txns[schedule[n]].program, states[n].store);
    }
  }

  lemma {:induction false} PendingIsKnown<V>(program: seq<Action<V>>, store: map<Item, V>)
    requires Known(program, store)
    ensures Alone(program, store).pending.Keys <= store.Keys
  {
    if program != [] {
      PendingIsKnown(program[..|program| - 1], store);
    }
  }

  /** While some transaction holds a Branch's lock, nobody else changes that Branch's configuration. */
  lemma {:induction false} HeldConfigurationIsFrozen<V>(
      states: seq<System<V>>, schedule: seq<nat>, jobs: seq<Job<V>>, i: nat, o: Item, m: Mode, first: nat, last: nat)
    requires Run(states, schedule) && Initial(states[0]) && Runs(states[0], jobs) && first <= last <= |schedule|
    requires i < |states[first].txns| && Holds(states[first].txns[i], Guard(o), m) && o in states[first].store
    requires i < |states[last].txns| && !states[last].txns[i].committed
    ensures o in states[last].store && states[last].store[o] == states[first].store[o]
    ensures Holds(states[last].txns[i], Guard(o), m)
    decreases last
  {
    hide Do, Inv, Holds, Program, Disciplined, Runs, Initial;
    if first < last {
      var s := states[last - 1];
      DoKeepsPrograms(s, schedule[last - 1]);
      if s.txns[i].committed {
        CommitIsFinal(s, i, schedule[last - 1]);
      }
      HeldConfigurationIsFrozen(states, schedule, jobs, i, o, m, first, last - 1);
      PathsAreDisciplined(states[0], jobs);
      RunKeepsInv(states, schedule, Guard, last - 1);
      StepKeepsHeldItem(s, i, schedule[last - 1], o, m);
    }
  }

  lemma CommitIsFinal<V>(s: System<V>, i: nat, j: nat)
    requires CanMove(s, j) && i < |s.txns| && s.txns[i].committed
    ensures Do(s, j).txns[i].committed
  {
  }

  lemma StepKeepsHeldItem<V>(s: System<V>, i: nat, j: nat, o: Item, m: Mode)
    requires Inv(s, Guard) && CanMove(s, j) && i < |s.txns| && o in s.store
    requires Holds(s.txns[i], Guard(o), m) && !Do(s, j).txns[i].committed
    ensures o in Do(s, j).store && Do(s, j).store[o] == s.store[o] && Holds(Do(s, j).txns[i], Guard(o), m)
  {
    var t := s.txns[j];
    if j == i {
      StillAcquired(t.program, t.pc, Do(s, j).txns[i].pc, Guard(o), m);
    } else if t.pc == |t.program| && o in t.pending {
      assert IsolatedAt(s, j);
      assert t.program[..t.pc] == t.program;
      WriterHoldsGuard(t, s.store, Guard, o);
      CompatiblePair(s, j, i, Guard(o), Exclusive, m);
    }
  }
}
