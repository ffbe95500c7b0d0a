/**
 * What the paths hold and write, spelled out: who keeps whom out of a lock, which locks each path
 * has when it commits, and what each of them does to the configuration.
 */
module LockEffects {
  import opened Base
  import opened LockMachine
  import opened LockProofs
  import opened LockTheorems
  import opened LockPaths
  import opened LockSystem

  // ----- the lock table -----

  /** At every moment of every run, a lock taken exclusively by an open transaction is taken by no other. */
  lemma ExclusiveMeansAlone<V>(
      states: seq<System<V>>, schedule: seq<nat>, guard: Item -> Lock, k: nat, i: nat, j: nat, a: nat, b: nat)
    requires Run(states, schedule) && Initial(states[0]) && Disciplined(states[0], guard) && k <= |schedule|
    requires i < |states[k].txns| && j < |states[k].txns| && i != j
    requires !states[k].txns[i].committed && !states[k].txns[j].committed
    requires a < states[k].txns[i].pc && a < |states[k].txns[i].program| && states[k].txns[i].program[a].Acquire?
    requires b < states[k].txns[j].pc && b < |states[k].txns[j].program| && states[k].txns[j].program[b].Acquire?
    requires states[k].txns[i].program[a].mode == Exclusive
    ensures states[k].txns[i].program[a].lock != states[k].txns[j].program[b].lock
  {
    RunKeepsInv(states, schedule, guard, k);
    var t, u := states[k].txns[i], states[k].txns[j];
    var l := t.program[a].lock;
    if l == u.program[b].lock {
      assert Acquired(t.program, t.pc, l, Exclusive);
      assert Acquired(u.program, u.pc, l, u.program[b].mode);
      CompatiblePair(states[k], i, j, l, Exclusive, u.program[b].mode);
    }
  }

  /** Nobody is granted a lock before a conflicting request that queued for it earlier. */
  lemma NobodyOvertakes<V>(s: System<V>, i: nat, j: nat)
    requires i < |s.txns| && j < |s.txns| && i != j && CanMove(s, i) && !s.txns[j].committed
    requires s.txns[i].pc < |s.txns[i].program| && s.txns[i].program[s.txns[i].pc].Acquire? && s.txns[i].ticket.Some?
    requires s.txns[j].pc < |s.txns[j].program| && s.txns[j].program[s.txns[j].pc].Acquire? && s.txns[j].ticket.Some?
    requires s.txns[i].program[s.txns[i].pc].lock == s.txns[j].program[s.txns[j].pc].lock
    requires Exclusive in {s.txns[i].program[s.txns[i].pc].mode, s.txns[j].program[s.txns[j].pc].mode}
    ensures s.txns[i].ticket.value <= s.txns[j].ticket.value
  {
    var wanted := s.txns[i].program[s.txns[i].pc];
    var other := s.txns[j].program[s.txns[j].pc];
    assert Conflict(wanted.mode, other.mode) && Wants(s.txns[j], wanted.lock, other.mode);
    assert !Blocks(s.txns[j], wanted.lock, wanted.mode, s.txns[i].ticket.value);
  }

  /** A lock that the transaction has is taken again at once; any other request queues first. */
  lemma ReentryNeverWaits<V>(s: System<V>, i: nat, a: nat)
    requires i < |s.txns| && !s.txns[i].committed && s.txns[i].ticket.None?
    requires a < s.txns[i].pc < |s.txns[i].program|
    requires s.txns[i].program[s.txns[i].pc].Acquire? && s.txns[i].program[a].Acquire?
    requires s.txns[i].program[a].lock == s.txns[i].program[s.txns[i].pc].lock
    requires s.txns[i].program[a].mode == Exclusive || s.txns[i].program[s.txns[i].pc].mode == Share
    ensures CanMove(s, i) && Do(s, i).txns[i].pc == s.txns[i].pc + 1 && Do(s, i).clock == s.clock
  {
    var t := s.txns[i];
    assert Acquired(t.program, t.pc, t.program[t.pc].lock, t.program[a].mode);
    assert Reentrant(t.program, t.pc, t.program[t.pc].lock, t.program[t.pc].mode);
  }

  // ----- what each path holds when it commits -----

  ghost predicate HasAtTheEnd<V>(job: Job<V>, l: Lock, m: Mode) {
    Acquired(Program(job), |Program(job)|, l, m)
  }

  lemma FromPrologue<V>(job: Job<V>, i: nat, k: nat)
    requires i < |Prologue(job)| && k < |Prologue(job)[i].ids|
    ensures HasAtTheEnd(job, Row(Prologue(job)[i].level, Prologue(job)[i].ids[k]), Prologue(job)[i].mode)
  {
    hide Prologue, Body, Locks;
    LocksAcquire<V>(Prologue(job), i, k);
    StillHeld(Locks<V>(Prologue(job)), Body(job), Row(Prologue(job)[i].level, Prologue(job)[i].ids[k]), Prologue(job)[i].mode);
  }

  lemma FromBody<V>(job: Job<V>, n: nat)
    requires n < |Body(job)| && Body(job)[n].Acquire?
    ensures HasAtTheEnd(job, Body(job)[n].lock, Body(job)[n].mode)
  {
    hide Body, Locks, Prologue;
    var before := Locks<V>(Prologue(job));
    assert (before + Body(job))[|before| + n] == Body(job)[n];
  }

  /** The catalogue writers of a Company exclude each other, and retirement the writers of its definition. */
  lemma CatalogueLocks<V>(job: Job<V>)
    ensures job.path.Approval? ==>
              && HasAtTheEnd(job, Lock(CAPACITY, job.path.company, 0), Exclusive)
              && HasAtTheEnd(job, Lock(REQUEST, job.path.request, 0), Exclusive)
    ensures job.path.DirectCreation? ==> HasAtTheEnd(job, Lock(CAPACITY, job.path.company, 0), Exclusive)
    ensures job.path.Retirement? ==>
              && HasAtTheEnd(job, Lock(CAPACITY, job.path.company, 0), Exclusive)
              && HasAtTheEnd(job, Lock(PAY_DEFINITION, job.path.definition, 0), Exclusive)
              && (job.path.itsStructure.Some? ==> HasAtTheEnd(job, Lock(STRUCTURE, job.path.itsStructure.value, 0), Exclusive))
    ensures job.path.StructureChange? ==>
              && HasAtTheEnd(job, Lock(STRUCTURE, job.path.structure, 0), Exclusive)
              && HasAtTheEnd(job, Lock(PAY_DEFINITION, job.path.definition, 0), Exclusive)
  {
    hide Body, Locks, HasAtTheEnd;
    if job.path.Approval? {
      FromPrologue(job, 0, 0);
      FromPrologue(job, 1, 0);
    } else if job.path.DirectCreation? {
      FromPrologue(job, 0, 0);
    } else if job.path.Retirement? {
      FromPrologue(job, 0, 0);
      FromPrologue(job, 2, 0);
      if job.path.itsStructure.Some? {
        FromPrologue(job, 1, 0);
      }
    } else if job.path.StructureChange? {
      FromPrologue(job, 0, 0);
      FromPrologue(job, 1, 0);
    }
  }

  ghost predicate HasAll<V>(job: Job<V>, level: nat, ids: seq<nat>, m: Mode) {
    forall x :: x in ids ==> HasAtTheEnd(job, Lock(level, x, 0), m)
  }

  lemma AllFromPrologue<V>(job: Job<V>, i: nat)
    requires i < |Prologue(job)|
    ensures HasAll(job, Prologue(job)[i].level, Prologue(job)[i].ids, Prologue(job)[i].mode)
  {
    hide Prologue, HasAtTheEnd;
    var s := Prologue(job)[i];
    forall x | x in s.ids ensures HasAtTheEnd(job, Lock(s.level, x, 0), s.mode) {
      var k :| 0 <= k < |s.ids| && s.ids[k] == x;
      FromPrologue(job, i, k);
    }
  }

  /** The writers of configuration hold the Branches and the keys, period creation the layout's structures. */
  lemma ConfigurationLocks<V>(job: Job<V>)
    ensures job.path.ConfigWrite? ==>
              && HasAll(job, BRANCH_CONFIG, job.path.branches, Exclusive)
              && HasAtTheEnd(job, Lock(PAY_DEFINITION, job.path.definition, 0), Share)
              && forall b :: b in job.path.branches ==> HasAtTheEnd(job, Lock(CONFIG_KEY, b, job.path.definition), Exclusive)
    ensures job.path.Approval? ==>
              && HasAtTheEnd(job, Lock(BRANCH_CONFIG, job.path.branch, 0), Exclusive)
              && HasAtTheEnd(job, Lock(PAY_DEFINITION, job.path.definition, 0), Share)
              && HasAtTheEnd(job, Lock(CONFIG_KEY, job.path.branch, job.path.definition), Exclusive)
    ensures job.path.PeriodCreation? ==>
              && HasAtTheEnd(job, Lock(WORKFLOW, job.path.branch, 0), Exclusive)
              && HasAtTheEnd(job, Lock(BRANCH_CONFIG, job.path.branch, 0), Exclusive)
              && HasAll(job, STRUCTURE, job.path.structures, Exclusive)
              && HasAll(job, PAY_DEFINITION, job.path.definitions, Share)
  {
    match job.path {
      case ConfigWrite(branches, d, edit) =>
        AllFromPrologue(job, 0);
        FromPrologue(job, 1, 0);
        forall b | b in branches ensures HasAtTheEnd(job, Lock(CONFIG_KEY, b, d), Exclusive) {
          var n := KeyIsLocked(job.actor, branches, d, edit, b);
          FromBody(job, n);
        }
      case Approval(_, _, _, _, branch, d, _) =>
        FromBody(job, 3);
        FromBody(job, 5);
        FromBody(job, 6);
      case PeriodCreation(_, _, _, _) =>
        FromPrologue(job, 1, 0);
        FromPrologue(job, 2, 0);
        LayoutHeld(job);
      case _ =>
    }
  }

  lemma {:induction false} KeyIsLocked<V>(actor: nat, branches: seq<nat>, d: nat, edit: nat -> Edit<V>, b: nat) returns (n: nat)
    requires b in branches
    ensures n < |EveryBranch(actor, branches, d, edit)|
    ensures EveryBranch(actor, branches, d, edit)[n] == Acquire(Lock(CONFIG_KEY, b, d), Exclusive)
  {
    var last := |branches| - 1;
    var before := EveryBranch(actor, branches[..last], d, edit);
    if b in branches[..last] {
      n := KeyIsLocked(actor, branches[..last], d, edit, b);
    } else {
      n := |before| + 2;
    }
  }

  lemma LayoutHeld<V>(job: Job<V>)
    requires job.path.PeriodCreation?
    ensures HasAll(job, STRUCTURE, job.path.structures, Exclusive) && HasAll(job, PAY_DEFINITION, job.path.definitions, Share)
  {
    var PeriodCreation(_, b, structures, definitions) := job.path;
    var r := |Reads<V>(b, definitions)|;
    TakeAllSize<V>(STRUCTURE, structures, Exclusive);
    TakeAllSize<V>(PAY_DEFINITION, definitions, Share);
    hide HasAtTheEnd;
    forall x | x in structures ensures HasAtTheEnd(job, Lock(STRUCTURE, x, 0), Exclusive) {
      var k :| 0 <= k < |structures| && structures[k] == x;
      TakeAllTakes<V>(STRUCTURE, structures, Exclusive, k);
      FromBody(job, 1 + r + k);
    }
    forall x | x in definitions ensures HasAtTheEnd(job, Lock(PAY_DEFINITION, x, 0), Share) {
      var k :| 0 <= k < |definitions| && definitions[k] == x;
      TakeAllTakes<V>(PAY_DEFINITION, definitions, Share, k);
      FromBody(job, 1 + r + |structures| + r + k);
    }
  }

  /** The payroll and workforce paths: the Branch workflows and periods they change, and what these lean on. */
  lemma WorkflowLocks<V>(job: Job<V>)
    ensures job.path.DriverWrite? ==>
              && HasAll(job, ASSIGNMENT, job.path.assignments, Share) && HasAll(job, WORKFLOW, job.path.branches, Exclusive)
              && HasAll(job, STRUCTURE, Optional(job.path.itsStructure), Exclusive) && HasAll(job, SCHEDULE, job.path.rows, Exclusive)
    ensures job.path.Boundary? ==>
              && HasAtTheEnd(job, Lock(EMPLOYEE, job.path.employee, 0), Exclusive)
              && HasAll(job, ACCOUNT, Optional(job.path.account), Exclusive) && HasAll(job, TRANSFER, job.path.transfers, Exclusive)
              && HasAll(job, ASSIGNMENT, job.path.assignments, Exclusive) && HasAll(job, WORKFLOW, job.path.branches, Exclusive)
              && HasAll(job, PERIOD, job.path.periods, Exclusive)
    ensures job.path.SourceWrite? ==>
              && HasAtTheEnd(job, Lock(COMPANY, job.path.company, 0), Share)
              && HasAtTheEnd(job, Lock(PERIOD, job.path.period, 0), Exclusive) && HasAll(job, STATUS_KEY, job.path.statusKeys, Share)
    ensures job.path.Lifecycle? ==>
              && HasAtTheEnd(job, Lock(COMPANY, job.path.company, 0), Share)
              && HasAtTheEnd(job, Lock(WORKFLOW, job.path.branch, 0), Exclusive) && HasAll(job, PERIOD, job.path.periods, Exclusive)
    ensures job.path.SetupPolicy? ==>
              && HasAll(job, COMPANY, Optional(job.path.defaultOf), Exclusive)
              && HasAll(job, SETUP, job.path.setups, Exclusive) && HasAll(job, WORKFLOW, job.path.branches, Exclusive)
  {
    hide HasAtTheEnd, HasAll, Optional;
    if job.path.DriverWrite? {
      AllFromPrologue(job, 1);
      AllFromPrologue(job, 2);
      AllFromPrologue(job, 3);
      AllFromPrologue(job, 4);
    } else if job.path.Boundary? {
      FromPrologue(job, 0, 0);
      AllFromPrologue(job, 1);
      AllFromPrologue(job, 2);
      AllFromPrologue(job, 3);
      AllFromPrologue(job, 4);
      AllFromPrologue(job, 5);
    } else if job.path.SourceWrite? {
      FromPrologue(job, 0, 0);
      FromPrologue(job, 1, 0);
      AllFromPrologue(job, 2);
    } else if job.path.Lifecycle? {
      FromPrologue(job, 0, 0);
      FromPrologue(job, 1, 0);
      AllFromPrologue(job, 2);
    } else if job.path.SetupPolicy? {
      AllFromPrologue(job, 0);
      AllFromPrologue(job, 1);
      AllFromPrologue(job, 2);
    }
  }

  // ----- what each path does to the configuration -----

  lemma AloneStep<V>(p: seq<Action<V>>, a: Action<V>, store: map<Item, V>)
    requires Known(p + [a], store)
    ensures Known(p, store)
    ensures var e := Alone(p, store);
            Alone(p + [a], store) ==
            match a
            case Acquire(_, _) => e
            case Read(o) => e.(view := e.view[o := Seen(e.pending, store, o)])
            case Modify(o, f) => e.(pending := e.pending[o := f(Seen(e.pending, store, o))])
  {
    assert (p + [a])[..|p|] == p && (p + [a])[|p|] == a;
    assert forall j :: 0 <= j < |p| ==> (p + [a])[j] == p[j];
  }

  lemma KnownParts<V>(p: seq<Action<V>>, q: seq<Action<V>>, store: map<Item, V>)
    requires Known(p + q, store)
    ensures Known(p, store)
  {
    assert forall j :: 0 <= j < |p| ==> (p + q)[j] == p[j];
  }

  /** Locks alone change and see nothing. */
  lemma {:induction false} AloneOfLocks<V>(p: seq<Action<V>>, q: seq<Action<V>>, store: map<Item, V>)
    requires Known(p + q, store) && forall j :: 0 <= j < |q| ==> q[j].Acquire?
    ensures Known(p, store) && Alone(p + q, store) == Alone(p, store)
  {
    KnownParts(p, q, store);
    if q == [] {
      assert p + q == p;
    } else {
      var n := |q| - 1;
      assert p + q == p + q[..n] + [q[n]];
      AloneStep(p + q[..n], q[n], store);
      AloneOfLocks(p, q[..n], store);
    }
  }

  /** Two row writes, one on the other. */
  lemma AloneOfConfigSteps<V>(p: seq<Action<V>>, actor: nat, b: nat, d: nat, edit: Edit<V>, store: map<Item, V>)
    requires Known(p + ConfigSteps(actor, b, d, edit), store)
    ensures Known(p, store) && Item(b, d) in store
    ensures var e := Alone(p, store);
            Alone(p + ConfigSteps(actor, b, d, edit), store)
            == e.(pending := e.pending[Item(b, d) := edit.open(edit.close(Seen(e.pending, store, Item(b, d))))])
  {
    var steps := ConfigSteps(actor, b, d, edit);
    var q := steps[..4];
    assert p + steps == p + q + [steps[4]] + [steps[5]];
    AloneStep(p + q + [steps[4]], steps[5], store);
    AloneStep(p + q, steps[4], store);
    AloneOfLocks(p, q, store);
    assert (p + steps)[|p| + 4] == steps[4];
    var e := Alone(p, store);
    var first := e.pending[Item(b, d) := edit.close(Seen(e.pending, store, Item(b, d)))];
    var x := edit.open(first[Item(b, d)]);
    assert first[Item(b, d) := x] == e.pending[Item(b, d) := x];
  }

  ghost predicate WritesEach<V>(
      pending: map<Item, V>, store: map<Item, V>, branches: seq<nat>, d: nat, edit: nat -> Edit<V>)
  {
    && (forall o :: o in pending <==> o.definition == d && o.branch in branches)
    && forall o :: o in pending ==>
         o in store && pending[o] == edit(o.branch).open(edit(o.branch).close(store[o]))
  }

  lemma OneMoreBranchWritten<V>(
      pending: map<Item, V>, store: map<Item, V>, branches: seq<nat>, d: nat, edit: nat -> Edit<V>, b: nat)
    requires WritesEach(pending, store, branches, d, edit) && b !in branches && Item(b, d) in store
    ensures WritesEach(pending[Item(b, d) := edit(b).open(edit(b).close(Seen(pending, store, Item(b, d))))],
                       store, branches + [b], d, edit)
  {
    assert Item(b, d) !in pending;
  }

  lemma {:induction false} AloneOfEveryBranch<V>(
      p: seq<Action<V>>, actor: nat, branches: seq<nat>, d: nat, edit: nat -> Edit<V>, store: map<Item, V>)
    requires AscendingIds(branches) && Known(p + EveryBranch(actor, branches, d, edit), store)
    requires Known(p, store) && Alone(p, store).pending == map[]
    ensures WritesEach(Alone(p + EveryBranch(actor, branches, d, edit), store).pending, store, branches, d, edit)
  {
    if branches == [] {
      assert p + EveryBranch(actor, branches, d, edit) == p;
    } else {
      var n := |branches| - 1;
      var b := branches[n];
      var done := EveryBranch(actor, branches[..n], d, edit);
      var steps := ConfigSteps(actor, b, d, edit(b));
      assert p + EveryBranch(actor, branches, d, edit) == p + done + steps;
      hide EveryBranch, Alone, ConfigSteps, WritesEach, Known;
      KnownParts(p + done, steps, store);
      AloneOfEveryBranch(p, actor, branches[..n], d, edit, store);
      AloneOfConfigSteps(p + done, actor, b, d, edit(b), store);
      assert branches == branches[..n] + [b];
      OneMoreBranchWritten(Alone(p + done, store).pending, store, branches[..n], d, edit, b);
    }
  }

  lemma LocksOnlyLock<V>(job: Job<V>, j: nat)
    requires j < |Locks<V>(Prologue(job))|
    ensures Locks<V>(Prologue(job))[j].Acquire?
  {
    var i, k := WhatLocksTake<V>(Prologue(job), j);
  }

  lemma AloneOfPrologue<V>(job: Job<V>, store: map<Item, V>)
    requires Known(Program(job), store)
    ensures Known(Locks<V>(Prologue(job)), store) && Alone(Locks<V>(Prologue(job)), store) == Effect(map[], map[])
  {
    var p := Locks<V>(Prologue(job));
    KnownParts(p, Body(job), store);
    forall j | 0 <= j < |p| ensures p[j].Acquire? {
      LocksOnlyLock(job, j);
    }
    assert [] + p == p;
    AloneOfLocks([], p, store);
  }

  /** A configuration write changes the definition in each of its Branches, by that Branch's edit, and nothing else. */
  lemma WhatAConfigWriteDoes<V>(branches: seq<nat>, d: nat, edit: nat -> Edit<V>, actor: nat, store: map<Item, V>)
    requires AscendingIds(branches) && Known(Program(Job(ConfigWrite(branches, d, edit), actor)), store)
    ensures var pending := Alone(Program(Job(ConfigWrite(branches, d, edit), actor)), store).pending;
            && (forall o :: o in pending <==> o.definition == d && o.branch in branches)
            && forall o :: o in pending ==>
                 o in store && pending[o] == edit(o.branch).open(edit(o.branch).close(store[o]))
  {
    var job := Job(ConfigWrite(branches, d, edit), actor);
    AloneOfPrologue(job, store);
    AloneOfEveryBranch(Locks<V>(Prologue(job)), actor, branches, d, edit, store);
  }

  /** An approval writes its definition in its one Branch. */
  lemma WhatAnApprovalDoes<V>(job: Job<V>, store: map<Item, V>)
    requires job.path.Approval? && Known(Program(job), store)
    ensures var o := Item(job.path.branch, job.path.definition);
            var edit := job.path.edit(job.path.branch);
            o in store && Alone(Program(job), store).pending == map[o := edit.open(edit.close(store[o]))]
  {
    var Approval(_, _, creator, submitter, b, d, edit) := job.path;
    var p := Locks<V>(Prologue(job));
    var q := ApprovalRows<V>(job.actor, creator, submitter) + [Acquire(Row(BRANCH_CONFIG, b), Exclusive)];
    var steps := ConfigSteps(job.actor, b, d, edit(b));
    AloneOfPrologue(job, store);
    assert Program(job) == p + q + steps;
    hide Alone, Locks, Program;
    AloneOfConfigSteps(p + q, job.actor, b, d, edit(b), store);
    AloneOfLocks(p, q, store);
  }

  lemma {:induction false} AloneOfReads<V>(p: seq<Action<V>>, b: nat, definitions: seq<nat>, store: map<Item, V>)
    requires Known(p + Reads(b, definitions), store) && Known(p, store) && Alone(p, store).pending == map[]
    ensures var e := Alone(p + Reads(b, definitions), store);
            && e.pending == map[]
            && forall o :: o in e.view <==> o in Alone(p, store).view || (o.branch == b && o.definition in definitions)
  {
    if definitions == [] {
      assert p + Reads(b, definitions) == p;
    } else {
      var n := |definitions| - 1;
      var done := Reads<V>(b, definitions[..n]);
      var a: Action<V> := Read(Item(b, definitions[n]));
      assert p + Reads(b, definitions) == p + done + [a];
      AloneStep(p + done, a, store);
      AloneOfReads(p, b, definitions[..n], store);
      hide Reads, Alone;
      assert definitions == definitions[..n] + [definitions[n]];
    }
  }

  lemma AloneOfLayout<V>(p: seq<Action<V>>, b: nat, structures: seq<nat>, definitions: seq<nat>, store: map<Item, V>)
    requires Known(p + Reads(b, definitions) + TakeAll(STRUCTURE, structures, Exclusive)
                     + Reads(b, definitions) + TakeAll(PAY_DEFINITION, definitions, Share), store)
    requires Known(p, store) && Alone(p, store) == Effect(map[], map[])
    ensures var view := Alone(p + Reads(b, definitions) + TakeAll(STRUCTURE, structures, Exclusive)
                                + Reads(b, definitions) + TakeAll(PAY_DEFINITION, definitions, Share), store).view;
            forall o :: o in view <==> o.branch == b && o.definition in definitions
  {
    TakingOnlyTakes<V>(STRUCTURE, structures, Exclusive);
    TakingOnlyTakes<V>(PAY_DEFINITION, definitions, Share);
    hide Alone, Known, Reads, TakeAll;
    var q := p + Reads(b, definitions);
    var r := q + TakeAll(STRUCTURE, structures, Exclusive);
    AloneOfLocks(r + Reads(b, definitions), TakeAll(PAY_DEFINITION, definitions, Share), store);
    KnownParts(r, Reads(b, definitions), store);
    KnownParts(q, TakeAll(STRUCTURE, structures, Exclusive), store);
    AloneOfReads(p, b, definitions, store);
    AloneOfLocks(q, TakeAll(STRUCTURE, structures, Exclusive), store);
    AloneOfReads(r, b, definitions, store);
  }

  /** A period creation reads the committed configuration of each definition of its layout, and writes none. */
  lemma WhatACreationReads<V>(job: Job<V>, store: map<Item, V>)
    requires job.path.PeriodCreation? && Known(Program(job), store)
    ensures Alone(Program(job), store).pending == map[]
    ensures var view := Alone(Program(job), store).view;
            && (forall o :: o in view <==> o.branch == job.path.branch && o.definition in job.path.definitions)
            && forall o :: o in view ==> o in store && view[o] == store[o]
  {
    forall j | 0 <= j < |Program(job)| ensures !Program(job)[j].Modify? {
      PeriodCreationModifiesNothing(job, j);
    }
    hide Alone, Known, Program, Locks, Reads, TakeAll, Prologue;
    ReaderSeesStore(Program(job), store);
    AloneOfPrologue(job, store);
    CreationIsReads(job);
    AloneOfNaming(job, store);
    AloneOfLayout(Locks<V>(Prologue(job)) + [Naming(job.actor)], job.path.branch, job.path.structures, job.path.definitions, store);
  }

  lemma AloneOfNaming<V>(job: Job<V>, store: map<Item, V>)
    requires Known(Locks<V>(Prologue(job)), store) && Alone(Locks<V>(Prologue(job)), store) == Effect(map[], map[])
    ensures var p := Locks<V>(Prologue(job)) + [Naming(job.actor)]; Known(p, store) && Alone(p, store) == Effect(map[], map[])
  {
    hide Locks, Prologue;
    AloneOfLocks(Locks<V>(Prologue(job)), [Naming(job.actor)], store);
  }

  lemma CreationIsReads<V>(job: Job<V>)
    requires job.path.PeriodCreation?
    ensures var PeriodCreation(_, b, structures, definitions) := job.path;
            Program(job) == Locks<V>(Prologue(job)) + [Naming(job.actor)] + Reads(b, definitions)
                            + TakeAll(STRUCTURE, structures, Exclusive) + Reads(b, definitions)
                            + TakeAll(PAY_DEFINITION, definitions, Share)
  {
    hide Locks, Prologue, Reads, TakeAll;
  }

  lemma TakingOnlyTakes<V>(level: nat, ids: seq<nat>, mode: Mode)
    ensures forall j :: 0 <= j < |TakeAll<V>(level, ids, mode)| ==> TakeAll<V>(level, ids, mode)[j].Acquire?
  {
    TakeAllSize<V>(level, ids, mode);
    forall j | 0 <= j < |TakeAll<V>(level, ids, mode)| ensures TakeAll<V>(level, ids, mode)[j].Acquire? {
      TakeAllTakes<V>(level, ids, mode, j);
    }
  }

  /** No other path touches the configuration at all. */
  lemma OtherPathsLeaveTheConfiguration<V>(job: Job<V>, store: map<Item, V>)
    requires !job.path.ConfigWrite? && !job.path.Approval? && !job.path.PeriodCreation?
    ensures Known(Program(job), store) && Alone(Program(job), store) == Effect(map[], map[])
  {
    var p := Program(job);
    forall j | 0 <= j < |p| ensures p[j].Acquire? {
      if j < |Locks<V>(Prologue(job))| {
        LocksOnlyLock(job, j);
      }
    }
    assert [] + p == p;
    AloneOfLocks([], p, store);
  }
}
