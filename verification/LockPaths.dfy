/**
 * The lock sequences of the compensation and payroll paths, for every parameter, placed in the
 * one global order. A shared lock is also what a foreign key takes on a row that some path locks
 * for update; those may come out of order.
 */
module LockPaths {
  import opened Base
  import opened LockMachine
  import opened LockProofs

  // ----- the levels of the global order -----

  const CAPACITY: nat := 0        // Company PayDefinition-capacity advisory lock
  const REQUEST: nat := 1         // PayDefinition request row
  const COMPANY: nat := 2         // Company (currency) row
  const SETUP: nat := 3           // Payroll Setup rows
  const EMPLOYEE: nat := 4        // Employee row
  const ACCOUNT: nat := 5         // account rows
  const TRANSFER: nat := 6        // transfer request rows
  const ASSIGNMENT: nat := 7      // DriverAssignments rows
  const WORKFLOW: nat := 8        // Branch workflow advisory locks
  const PERIOD: nat := 9          // PayrollPeriods rows
  const STATUS_KEY: nat := 10     // Status key rows
  const BRANCH_CONFIG: nat := 11  // Branch compensation-config advisory locks
  const STRUCTURE: nat := 12      // RateDefinition structure locks
  const PAY_DEFINITION: nat := 13 // PayDefinition rows
  const CONFIG_KEY: nat := 14     // per-key config advisory lock and its config rows
  const SCHEDULE: nat := 15       // rate schedule and pay-rule rows

  function Row(level: nat, id: nat): Lock { Lock(level, id, 0) }

  /** The configuration of a Branch is guarded by that Branch's compensation-config lock. */
  function Guard(o: Item): Lock { Row(BRANCH_CONFIG, o.branch) }

  // ----- sequences of acquisitions -----

  /** Locks of one level, taken in one mode, in the order of the id list. */
  datatype Segment = Segment(level: nat, ids: seq<nat>, mode: Mode)

  /** Sorted without duplicates, as sorted(set(...)) and ORDER BY over a key produce it. */
  predicate AscendingIds(ids: seq<nat>) {
    forall i, j :: 0 <= i < j < |ids| ==> ids[i] < ids[j]
  }

  predicate Climbing(segments: seq<Segment>) {
    && (forall i :: 0 <= i < |segments| ==> AscendingIds(segments[i].ids))
    && (forall i, j :: 0 <= i < j < |segments| ==> segments[i].level < segments[j].level)
  }

  ghost function TakeAll<V>(level: nat, ids: seq<nat>, mode: Mode): seq<Action<V>> {
    if ids == [] then []
    else TakeAll(level, ids[..|ids| - 1], mode) + [Acquire(Row(level, ids[|ids| - 1]), mode)]
  }

  ghost function Locks<V>(segments: seq<Segment>): seq<Action<V>> {
    if segments == [] then []
    else
      var n := |segments| - 1;
      Locks(segments[..n]) + TakeAll(segments[n].level, segments[n].ids, segments[n].mode)
  }

  function Optional(id: Option<nat>): seq<nat> {
    if id.Some? then [id.value] else []
  }

  // ----- programs that follow the protocol -----

  /**
   * Requests come in the global order and configuration is used under its guard only. The free
   * locks, if shared, may come out of order.
   */
  ghost predicate Follows<V>(p: seq<Action<V>>, free: set<Lock>) {
    && (forall j :: 0 <= j < |p| && p[j].Acquire? ==> OrderedAt(p, j) || IsFree(p[j], free))
    && Guarded(p, Guard)
  }

  predicate IsFree<V>(a: Action<V>, free: set<Lock>) {
    a.Acquire? && a.mode == Share && a.lock in free
  }

  ghost predicate AllBefore<V>(p: seq<Action<V>>, l: Lock) {
    forall i :: 0 <= i < |p| && p[i].Acquire? ==> Before(p[i].lock, l)
  }

  ghost predicate Below<V>(p: seq<Action<V>>, level: nat) {
    forall i :: 0 <= i < |p| && p[i].Acquire? ==> p[i].lock.level < level
  }

  lemma AcquiredInPrefix<V>(p: seq<Action<V>>, a: Action<V>, n: nat, l: Lock, m: Mode)
    requires n <= |p|
    ensures Acquired(p + [a], n, l, m) == Acquired(p, n, l, m)
  {
    var q := p + [a];
    if Acquired(q, n, l, m) {
      var j :| 0 <= j < n && j < |q| && q[j].Acquire? && q[j].lock == l && q[j].mode == m;
      assert p[j] == q[j];
    }
    if Acquired(p, n, l, m) {
      var j :| 0 <= j < n && j < |p| && p[j].Acquire? && p[j].lock == l && p[j].mode == m;
      assert p[j] == q[j];
    }
  }

  lemma OrderedAtInPrefix<V>(p: seq<Action<V>>, a: Action<V>, j: nat)
    requires j < |p| && p[j].Acquire? && OrderedAt(p, j)
    ensures OrderedAt(p + [a], j)
  {
    if Reentrant(p, j, p[j].lock, p[j].mode) {
      var held :| Covers(held, p[j].mode) && Acquired(p, j, p[j].lock, held);
      AcquiredInPrefix(p, a, j, p[j].lock, held);
    }
  }

  lemma GuardedInPrefix<V>(p: seq<Action<V>>, a: Action<V>)
    requires Guarded(p, Guard)
    requires a.Read? ==> exists m :: Acquired(p, |p|, Guard(a.item), m)
    requires a.Modify? ==> Acquired(p, |p|, Guard(a.item), Exclusive)
    ensures Guarded(p + [a], Guard)
  {
    var q := p + [a];
    forall j | 0 <= j < |q| && q[j].Read? ensures exists m :: Acquired(q, j, Guard(q[j].item), m) {
      var m :| Acquired(p, j, Guard(q[j].item), m);
      AcquiredInPrefix(p, a, j, Guard(q[j].item), m);
    }
    forall j | 0 <= j < |q| && q[j].Modify? ensures Acquired(q, j, Guard(q[j].item), Exclusive) {
      AcquiredInPrefix(p, a, j, Guard(q[j].item), Exclusive);
    }
  }

  /** One more action that respects the protocol keeps a program within it. */
  lemma OneMoreAction<V>(free: set<Lock>, p: seq<Action<V>>, a: Action<V>)
    requires Follows(p, free)
    requires a.Acquire? ==> Reentrant(p, |p|, a.lock, a.mode) || AllBefore(p, a.lock) || IsFree(a, free)
    requires a.Read? ==> exists m :: Acquired(p, |p|, Guard(a.item), m)
    requires a.Modify? ==> Acquired(p, |p|, Guard(a.item), Exclusive)
    ensures Follows(p + [a], free)
  {
    var q := p + [a];
    GuardedInPrefix(p, a);
    forall j | 0 <= j < |q| && q[j].Acquire? ensures OrderedAt(q, j) || IsFree(q[j], free) {
      if j < |p| {
        if OrderedAt(p, j) {
          OrderedAtInPrefix(p, a, j);
        }
      } else if Reentrant(p, |p|, a.lock, a.mode) {
        var held :| Covers(held, a.mode) && Acquired(p, |p|, a.lock, held);
        AcquiredInPrefix(p, a, |p|, a.lock, held);
      }
    }
  }

  lemma {:induction false} TakeAllSize<V>(level: nat, ids: seq<nat>, mode: Mode)
    ensures |TakeAll<V>(level, ids, mode)| == |ids|
  {
    if ids != [] {
      TakeAllSize<V>(level, ids[..|ids| - 1], mode);
    }
  }

  lemma {:induction false} TakeAllTakes<V>(level: nat, ids: seq<nat>, mode: Mode, i: nat)
    requires i < |ids|
    ensures |TakeAll<V>(level, ids, mode)| == |ids|
    ensures TakeAll<V>(level, ids, mode)[i] == Acquire(Row(level, ids[i]), mode)
  {
    var n := |ids| - 1;
    TakeAllSize<V>(level, ids, mode);
    TakeAllSize<V>(level, ids[..n], mode);
    if i < n {
      TakeAllTakes<V>(level, ids[..n], mode, i);
    }
  }

  lemma {:induction false} TakeAllFollows<V>(free: set<Lock>, p: seq<Action<V>>, level: nat, ids: seq<nat>, mode: Mode)
    requires Follows(p, free) && Below(p, level) && AscendingIds(ids)
    ensures Follows(p + TakeAll(level, ids, mode), free) && Below(p + TakeAll(level, ids, mode), level + 1)
  {
    if ids == [] {
      assert p + TakeAll(level, ids, mode) == p;
    } else {
      var n := |ids| - 1;
      var taken := TakeAll<V>(level, ids[..n], mode);
      var a := Acquire(Row(level, ids[n]), mode);
      TakeAllFollows(free, p, level, ids[..n], mode);
      forall i | 0 <= i < |p + taken| && (p + taken)[i].Acquire? ensures Before((p + taken)[i].lock, a.lock) {
        if i >= |p| {
          TakeAllSize<V>(level, ids[..n], mode);
          TakeAllTakes<V>(level, ids[..n], mode, i - |p|);
        }
      }
      OneMoreAction(free, p + taken, a);
      assert p + taken + [a] == p + TakeAll(level, ids, mode);
    }
  }

  /** Free locks may be shared whenever. */
  lemma {:induction false} FreeSharesFollow<V>(free: set<Lock>, p: seq<Action<V>>, level: nat, ids: seq<nat>)
    requires Follows(p, free) && forall k :: 0 <= k < |ids| ==> Row(level, ids[k]) in free
    ensures Follows(p + TakeAll(level, ids, Share), free)
  {
    if ids == [] {
      assert p + TakeAll(level, ids, Share) == p;
    } else {
      var n := |ids| - 1;
      var taken := TakeAll<V>(level, ids[..n], Share);
      var a := Acquire(Row(level, ids[n]), Share);
      FreeSharesFollow(free, p, level, ids[..n]);
      OneMoreAction(free, p + taken, a);
      assert p + taken + [a] == p + TakeAll(level, ids, Share);
    }
  }

  /** Levels climbed one after another, ids ascending within each: always within the protocol. */
  lemma {:induction false} LocksFollow<V>(free: set<Lock>, segments: seq<Segment>)
    requires Climbing(segments)
    ensures Follows(Locks<V>(segments), free)
    ensures segments != [] ==> Below(Locks<V>(segments), segments[|segments| - 1].level + 1)
  {
    if segments != [] {
      var n := |segments| - 1;
      var s := segments[n];
      LocksFollow<V>(free, segments[..n]);
      TakeAllFollows(free, Locks<V>(segments[..n]), s.level, s.ids, s.mode);
    }
  }

  lemma {:induction false} LocksAcquire<V>(segments: seq<Segment>, i: nat, k: nat)
    requires i < |segments| && k < |segments[i].ids|
    ensures Acquired(Locks<V>(segments), |Locks<V>(segments)|, Row(segments[i].level, segments[i].ids[k]), segments[i].mode)
  {
    var n := |segments| - 1;
    var before := Locks<V>(segments[..n]);
    var last := TakeAll<V>(segments[n].level, segments[n].ids, segments[n].mode);
    if i < n {
      LocksAcquire<V>(segments[..n], i, k);
      var j :| 0 <= j < |before| && before[j].Acquire?
               && before[j].lock == Row(segments[i].level, segments[i].ids[k]) && before[j].mode == segments[i].mode;
      assert (before + last)[j] == before[j];
    } else {
      TakeAllSize<V>(segments[n].level, segments[n].ids, segments[n].mode);
      TakeAllTakes<V>(segments[n].level, segments[n].ids, segments[n].mode, k);
      assert (before + last)[|before| + k] == last[k];
    }
  }

  // ----- the paths -----

  /** The two row writes of one configuration change: close (or move) a version, then open one. */
  datatype Edit<!V> = Edit(close: V -> V, open: V -> V)

  /**
   * The writers and readers of the protocol. A Branch's edit may depend on the Branch, as each
   * Branch resolves its own effective date.
   */
  datatype Path<!V> =
    | ConfigWrite(branches: seq<nat>, definition: nat, edit: nat -> Edit<V>)
    | Approval(
        company: nat, request: nat, creator: nat, submitter: nat, branch: nat, definition: nat, edit: nat -> Edit<V>)
    | DirectCreation(company: nat)
    | Retirement(company: nat, itsStructure: Option<nat>, definition: nat)
    | StructureChange(structure: nat, definition: nat)
    | PeriodCreation(currency: Option<nat>, branch: nat, structures: seq<nat>, definitions: seq<nat>)
    | DriverWrite(currency: Option<nat>, assignments: seq<nat>, branches: seq<nat>, itsStructure: Option<nat>, rows: seq<nat>)
    | Boundary(
        employee: nat, account: Option<nat>, transfers: seq<nat>, assignments: seq<nat>, branches: seq<nat>,
        periods: seq<nat>)
    | SourceWrite(company: nat, period: nat, statusKeys: seq<nat>)
    | Lifecycle(company: nat, branch: nat, periods: seq<nat>)
    | SetupPolicy(defaultOf: Option<nat>, setups: seq<nat>, branches: seq<nat>)

  /** A path run for a signed-in account, which the rows it writes name. */
  datatype Job<!V> = Job(path: Path<V>, actor: nat)

  ghost predicate SortedIds<V>(p: Path<V>) {
    match p
    case ConfigWrite(branches, _, _) => AscendingIds(branches)
    case PeriodCreation(_, _, structures, _) => AscendingIds(structures)
    case DriverWrite(_, assignments, branches, _, rows) =>
      AscendingIds(assignments) && AscendingIds(branches) && AscendingIds(rows)
    case Boundary(_, _, transfers, assignments, branches, periods) =>
      AscendingIds(transfers) && AscendingIds(assignments) && AscendingIds(branches) && AscendingIds(periods)
    case SourceWrite(_, _, keys) => AscendingIds(keys)
    case Lifecycle(_, _, periods) => AscendingIds(periods)
    case SetupPolicy(_, setups, branches) => AscendingIds(setups) && AscendingIds(branches)
    case _ => true
  }

  /** The foreign key of a row that names the account shares the account's row. */
  ghost function Naming<V>(actor: nat): Action<V> {
    Acquire(Row(ACCOUNT, actor), Share)
  }

  /** What a path locks before it reads or writes any configuration. */
  ghost function Prologue<V>(job: Job<V>): seq<Segment> {
    match job.path
    case ConfigWrite(branches, d, _) =>
      [Segment(BRANCH_CONFIG, branches, Exclusive), Segment(PAY_DEFINITION, [d], Share)]
    case Approval(company, request, _, _, _, _, _) =>
      [Segment(CAPACITY, [company], Exclusive), Segment(REQUEST, [request], Exclusive)]
    case DirectCreation(company) => [Segment(CAPACITY, [company], Exclusive)]
    case Retirement(company, structure, d) =>
      [Segment(CAPACITY, [company], Exclusive), Segment(STRUCTURE, Optional(structure), Exclusive),
       Segment(PAY_DEFINITION, [d], Exclusive)]
    case StructureChange(structure, d) =>
      [Segment(STRUCTURE, [structure], Exclusive), Segment(PAY_DEFINITION, [d], Exclusive)]
    case PeriodCreation(currency, branch, _, _) =>
      [Segment(COMPANY, Optional(currency), Share), Segment(WORKFLOW, [branch], Exclusive),
       Segment(BRANCH_CONFIG, [branch], Exclusive)]
    case DriverWrite(currency, assignments, branches, structure, rows) =>
      [Segment(COMPANY, Optional(currency), Share), Segment(ASSIGNMENT, assignments, Share),
       Segment(WORKFLOW, branches, Exclusive), Segment(STRUCTURE, Optional(structure), Exclusive),
       Segment(SCHEDULE, rows, Exclusive)]
    case Boundary(employee, account, transfers, assignments, branches, periods) =>
      [Segment(EMPLOYEE, [employee], Exclusive), Segment(ACCOUNT, Optional(account), Exclusive),
       Segment(TRANSFER, transfers, Exclusive), Segment(ASSIGNMENT, assignments, Exclusive),
       Segment(WORKFLOW, branches, Exclusive), Segment(PERIOD, periods, Exclusive)]
    case SourceWrite(company, period, keys) =>
      [Segment(COMPANY, [company], Share), Segment(PERIOD, [period], Exclusive), Segment(STATUS_KEY, keys, Share)]
    case Lifecycle(company, branch, periods) =>
      [Segment(COMPANY, [company], Share), Segment(WORKFLOW, [branch], Exclusive), Segment(PERIOD, periods, Exclusive)]
    case SetupPolicy(company, setups, branches) =>
      [Segment(COMPANY, Optional(company), Exclusive), Segment(SETUP, setups, Exclusive),
       Segment(WORKFLOW, branches, Exclusive)]
  }

  /**
   * Writing one Branch's configuration: the Branch lock and the definition are locked again,
   * by every caller alike, then the key, and then its rows are changed by the account.
   */
  ghost function ConfigSteps<V>(actor: nat, branch: nat, definition: nat, edit: Edit<V>): seq<Action<V>> {
    [Acquire(Row(BRANCH_CONFIG, branch), Exclusive), Acquire(Row(PAY_DEFINITION, definition), Share),
     Acquire(Lock(CONFIG_KEY, branch, definition), Exclusive), Naming(actor),
     Modify(Item(branch, definition), edit.close), Modify(Item(branch, definition), edit.open)]
  }

  ghost function EveryBranch<V>(actor: nat, branches: seq<nat>, definition: nat, edit: nat -> Edit<V>): seq<Action<V>> {
    if branches == [] then []
    else
      var n := |branches| - 1;
      EveryBranch(actor, branches[..n], definition, edit) + ConfigSteps(actor, branches[n], definition, edit(branches[n]))
  }

  ghost function Reads<V>(branch: nat, definitions: seq<nat>): seq<Action<V>> {
    if definitions == [] then []
    else
      var n := |definitions| - 1;
      Reads(branch, definitions[..n]) + [Read(Item(branch, definitions[n]))]
  }

  /** Listing the definitions of the layout and locking their structures. */
  ghost function LayoutLocks<V>(branch: nat, structures: seq<nat>, definitions: seq<nat>): seq<Action<V>> {
    Reads(branch, definitions) + TakeAll(STRUCTURE, structures, Exclusive)
  }

  /** Reading them again into rows whose foreign keys share the definitions, in any order. */
  ghost function LayoutRows<V>(branch: nat, definitions: seq<nat>): seq<Action<V>> {
    Reads(branch, definitions) + TakeAll(PAY_DEFINITION, definitions, Share)
  }

  /** The new definition names the approver; its provenance names the request's creator and submitter too. */
  ghost function ApprovalRows<V>(actor: nat, creator: nat, submitter: nat): seq<Action<V>> {
    [Naming(actor), Naming(creator), Naming(submitter)]
  }

  ghost function Body<V>(job: Job<V>): seq<Action<V>> {
    match job.path
    case ConfigWrite(branches, d, edit) => EveryBranch(job.actor, branches, d, edit)
    case Approval(_, _, creator, submitter, branch, d, edit) =>
      ApprovalRows(job.actor, creator, submitter)
      + [Acquire(Row(BRANCH_CONFIG, branch), Exclusive)] + ConfigSteps(job.actor, branch, d, edit(branch))
    case PeriodCreation(_, branch, structures, definitions) =>
      [Naming(job.actor)] + LayoutLocks(branch, structures, definitions) + LayoutRows(branch, definitions)
    case _ => [Naming(job.actor)]
  }

  ghost function Program<V>(job: Job<V>): seq<Action<V>> {
    Locks(Prologue(job)) + Body(job)
  }

  /**
   * The accounts whose rows a job shares out of the global order: the actor's, unless it is named
   * before every later lock, and those of an approved request.
   */
  function FreeAccounts<V>(job: Job<V>): set<nat> {
    match job.path
    case Approval(_, _, creator, submitter, _, _, _) => {creator, submitter}
    case DirectCreation(_) => {}
    case _ => {job.actor}
  }

  /** All rows that foreign keys share out of the global order: accounts, and a layout's definitions. */
  ghost function Free<V>(job: Job<V>): set<Lock> {
    (set x | x in FreeAccounts(job) :: Row(ACCOUNT, x))
    + if job.path.PeriodCreation? then set d | d in job.path.definitions :: Row(PAY_DEFINITION, d) else {}
  }

  lemma AccountIsFree<V>(job: Job<V>, x: nat)
    requires x in FreeAccounts(job)
    ensures Row(ACCOUNT, x) in Free(job)
  {
  }

  lemma StillHeld<V>(p: seq<Action<V>>, q: seq<Action<V>>, l: Lock, m: Mode)
    requires Acquired(p, |p|, l, m)
    ensures Acquired(p + q, |p + q|, l, m)
  {
    var j :| 0 <= j < |p| && p[j].Acquire? && p[j].lock == l && p[j].mode == m;
    assert (p + q)[j] == p[j];
  }

  /** Under the Branch lock, with the definition free or shared and the key not yet passed. */
  lemma ConfigStepsFollow<V>(free: set<Lock>, p: seq<Action<V>>, actor: nat, b: nat, d: nat, edit: Edit<V>)
    requires Follows(p, free) && AllBefore(p, Lock(CONFIG_KEY, b, d))
    requires Row(ACCOUNT, actor) in free || Acquired(p, |p|, Row(ACCOUNT, actor), Share)
    requires Acquired(p, |p|, Row(BRANCH_CONFIG, b), Exclusive)
    requires Acquired(p, |p|, Row(PAY_DEFINITION, d), Share) || Below(p, PAY_DEFINITION)
    ensures Follows(p + ConfigSteps(actor, b, d, edit), free)
  {
    var steps := ConfigSteps(actor, b, d, edit);
    var guard := Row(BRANCH_CONFIG, b);
    assert Reentrant(p, |p|, guard, Exclusive);
    OneMoreAction(free, p, steps[0]);
    var p1 := p + [steps[0]];
    if Acquired(p, |p|, Row(PAY_DEFINITION, d), Share) {
      StillHeld(p, [steps[0]], Row(PAY_DEFINITION, d), Share);
      assert Reentrant(p1, |p1|, Row(PAY_DEFINITION, d), Share);
    }
    OneMoreAction(free, p1, steps[1]);
    var p2 := p1 + [steps[1]];
    OneMoreAction(free, p2, steps[2]);
    var p3 := p2 + [steps[2]];
    if Acquired(p, |p|, Row(ACCOUNT, actor), Share) {
      assert p3 == p + steps[..3];
      StillHeld(p, steps[..3], Row(ACCOUNT, actor), Share);
      assert Reentrant(p3, |p3|, Row(ACCOUNT, actor), Share);
    }
    OneMoreAction(free, p3, steps[3]);
    EditsFollow(free, p, actor, b, d, edit, p3 + [steps[3]]);
  }

  lemma EditsFollow<V>(
      free: set<Lock>, p: seq<Action<V>>, actor: nat, b: nat, d: nat, edit: Edit<V>, locked: seq<Action<V>>)
    requires Follows(locked, free) && Acquired(p, |p|, Row(BRANCH_CONFIG, b), Exclusive)
    requires locked == p + ConfigSteps(actor, b, d, edit)[..4]
    ensures Follows(p + ConfigSteps(actor, b, d, edit), free)
  {
    hide Follows, Acquired;
    var steps := ConfigSteps(actor, b, d, edit);
    var guard := Row(BRANCH_CONFIG, b);
    StillHeld(p, steps[..4], guard, Exclusive);
    OneMoreAction(free, locked, steps[4]);
    StillHeld(locked, [steps[4]], guard, Exclusive);
    OneMoreAction(free, locked + [steps[4]], steps[5]);
    assert locked + [steps[4]] + [steps[5]] == p + steps;
  }

  /** A lock of the loop: of a level before the keys, or the key of one of these Branches. */
  predicate WithinBranches(l: Lock, branches: seq<nat>, d: nat) {
    l.level < CONFIG_KEY || (l.level == CONFIG_KEY && l.major in branches && l.minor == d)
  }

  /** Exclusively the loop takes Branch locks and keys only. */
  lemma {:induction false} EveryBranchLocks<V>(actor: nat, branches: seq<nat>, d: nat, edit: nat -> Edit<V>, i: nat)
    requires i < |EveryBranch(actor, branches, d, edit)| && EveryBranch(actor, branches, d, edit)[i].Acquire?
    ensures WithinBranches(EveryBranch(actor, branches, d, edit)[i].lock, branches, d)
    ensures EveryBranch(actor, branches, d, edit)[i].mode == Exclusive ==>
              EveryBranch(actor, branches, d, edit)[i].lock.level in {BRANCH_CONFIG, CONFIG_KEY}
    ensures EveryBranch(actor, branches, d, edit)[i].lock.level in {ACCOUNT, BRANCH_CONFIG, PAY_DEFINITION, CONFIG_KEY}
  {
    var n := |branches| - 1;
    if i < |EveryBranch(actor, branches[..n], d, edit)| {
      EveryBranchLocks(actor, branches[..n], d, edit, i);
    }
  }

  lemma NextKeyIsLast<V>(p: seq<Action<V>>, actor: nat, branches: seq<nat>, d: nat, edit: nat -> Edit<V>, b: nat)
    requires Below(p, CONFIG_KEY) && forall k :: 0 <= k < |branches| ==> branches[k] < b
    ensures AllBefore(p + EveryBranch(actor, branches, d, edit), Lock(CONFIG_KEY, b, d))
  {
    var done := EveryBranch(actor, branches, d, edit);
    forall i | 0 <= i < |p + done| && (p + done)[i].Acquire?
      ensures Before((p + done)[i].lock, Lock(CONFIG_KEY, b, d))
    {
      if i >= |p| {
        EveryBranchLocks(actor, branches, d, edit, i - |p|);
      }
    }
  }

  /** The loop over target Branches, each written under locks that are all taken before it. */
  lemma {:induction false} EveryBranchFollows<V>(
      free: set<Lock>, p: seq<Action<V>>, actor: nat, branches: seq<nat>, d: nat, edit: nat -> Edit<V>)
    requires Follows(p, free) && Below(p, CONFIG_KEY) && AscendingIds(branches) && Row(ACCOUNT, actor) in free
    requires forall k :: 0 <= k < |branches| ==> Acquired(p, |p|, Row(BRANCH_CONFIG, branches[k]), Exclusive)
    requires Acquired(p, |p|, Row(PAY_DEFINITION, d), Share)
    ensures Follows(p + EveryBranch(actor, branches, d, edit), free)
  {
    hide Follows, Below, AllBefore, Acquired, ConfigSteps;
    if branches == [] {
      assert p + EveryBranch(actor, branches, d, edit) == p;
    } else {
      var n := |branches| - 1;
      var b := branches[n];
      var done := EveryBranch(actor, branches[..n], d, edit);
      EveryBranchFollows(free, p, actor, branches[..n], d, edit);
      StillHeld(p, done, Row(BRANCH_CONFIG, b), Exclusive);
      StillHeld(p, done, Row(PAY_DEFINITION, d), Share);
      NextKeyIsLast(p, actor, branches[..n], d, edit, b);
      ConfigStepsFollow(free, p + done, actor, b, d, edit(b));
      assert p + done + ConfigSteps(actor, b, d, edit(b)) == p + EveryBranch(actor, branches, d, edit);
    }
  }

  lemma {:induction false} ReadsFollow<V>(free: set<Lock>, p: seq<Action<V>>, b: nat, definitions: seq<nat>)
    requires Follows(p, free) && Acquired(p, |p|, Row(BRANCH_CONFIG, b), Exclusive)
    ensures Follows(p + Reads(b, definitions), free)
  {
    hide Follows, Acquired;
    if definitions == [] {
      assert p + Reads(b, definitions) == p;
    } else {
      var n := |definitions| - 1;
      var done := Reads<V>(b, definitions[..n]);
      ReadsFollow(free, p, b, definitions[..n]);
      StillHeld(p, done, Row(BRANCH_CONFIG, b), Exclusive);
      assert Acquired(p + done, |p + done|, Guard(Item(b, definitions[n])), Exclusive);
      OneMoreAction(free, p + done, Read(Item(b, definitions[n])));
      assert p + done + [Read(Item(b, definitions[n]))] == p + Reads(b, definitions);
    }
  }

  lemma {:induction false} ReadsLockNothing<V>(p: seq<Action<V>>, b: nat, definitions: seq<nat>, level: nat)
    requires Below(p, level)
    ensures Below(p + Reads(b, definitions), level)
  {
    if definitions == [] {
      assert p + Reads(b, definitions) == p;
    } else {
      var n := |definitions| - 1;
      ReadsLockNothing(p, b, definitions[..n], level);
      assert p + Reads(b, definitions) == p + Reads(b, definitions[..n]) + [Read(Item(b, definitions[n]))];
    }
  }

  /** Freezing a layout: the definitions are listed, their structures locked, and read again. */
  lemma LayoutFollows<V>(free: set<Lock>, p: seq<Action<V>>, b: nat, structures: seq<nat>, definitions: seq<nat>)
    requires Follows(p, free) && Below(p, STRUCTURE) && AscendingIds(structures)
    requires Acquired(p, |p|, Row(BRANCH_CONFIG, b), Exclusive)
    requires forall k :: 0 <= k < |definitions| ==> Row(PAY_DEFINITION, definitions[k]) in free
    ensures Follows(p + LayoutLocks(b, structures, definitions) + LayoutRows(b, definitions), free)
  {
    hide Follows, Below, Acquired, Reads, TakeAll;
    var layout := Reads<V>(b, definitions);
    var locks := TakeAll<V>(STRUCTURE, structures, Exclusive);
    var shares := TakeAll<V>(PAY_DEFINITION, definitions, Share);
    ReadsFollow(free, p, b, definitions);
    ReadsLockNothing(p, b, definitions, STRUCTURE);
    TakeAllFollows(free, p + layout, STRUCTURE, structures, Exclusive);
    StillHeld(p, layout + locks, Row(BRANCH_CONFIG, b), Exclusive);
    assert p + layout + locks == p + (layout + locks);
    ReadsFollow(free, p + (layout + locks), b, definitions);
    FreeSharesFollow(free, p + (layout + locks) + layout, PAY_DEFINITION, definitions);
    assert p + (layout + locks) + layout + shares == p + (layout + locks) + (layout + shares);
  }

  lemma ConfigWriteFollows<V>(branches: seq<nat>, d: nat, edit: nat -> Edit<V>, actor: nat)
    requires AscendingIds(branches)
    ensures var job := Job(ConfigWrite(branches, d, edit), actor); Follows(Program(job), Free(job))
  {
    hide Follows, Acquired, Locks, EveryBranch;
    var job := Job(ConfigWrite(branches, d, edit), actor);
    var prologue := Prologue(job);
    var p := Locks<V>(prologue);
    LocksFollow<V>(Free(job), prologue);
    forall k | 0 <= k < |branches| ensures Acquired(p, |p|, Row(BRANCH_CONFIG, branches[k]), Exclusive) {
      LocksAcquire<V>(prologue, 0, k);
    }
    LocksAcquire<V>(prologue, 1, 0);
    EveryBranchFollows(Free(job), p, actor, branches, d, edit);
  }

  lemma LocksAreEarly<V>(p: seq<Action<V>>, level: nat, l: Lock)
    requires Below(p, level + 1) && level < l.level
    ensures AllBefore(p, l) && Below(p, l.level)
  {
  }

  /** The accounts that an approval's rows name, in the order in which its statements do. */
  lemma ApprovalRowsFollow<V>(free: set<Lock>, p: seq<Action<V>>, actor: nat, creator: nat, submitter: nat)
    requires Follows(p, free) && Below(p, ACCOUNT) && Row(ACCOUNT, creator) in free && Row(ACCOUNT, submitter) in free
    ensures var q := p + ApprovalRows(actor, creator, submitter);
            Follows(q, free) && Below(q, BRANCH_CONFIG) && Acquired(q, |q|, Row(ACCOUNT, actor), Share)
  {
    var p1 := p + [Naming(actor)];
    OneMoreAction(free, p, Naming(actor));
    OneMoreAction(free, p1, Naming(creator));
    OneMoreAction(free, p1 + [Naming(creator)], Naming(submitter));
    var q := p + ApprovalRows(actor, creator, submitter);
    assert p1 + [Naming(creator)] + [Naming(submitter)] == q;
    assert q[|p|] == Naming(actor);
  }

  lemma ApprovalFollows<V>(
      company: nat, request: nat, creator: nat, submitter: nat, b: nat, d: nat, edit: nat -> Edit<V>, actor: nat)
    ensures var job := Job(Approval(company, request, creator, submitter, b, d, edit), actor);
            Follows(Program(job), Free(job))
  {
    hide Follows, Acquired, Locks, ConfigSteps, Below, AllBefore, ApprovalRows, Free;
    var job := Job(Approval(company, request, creator, submitter, b, d, edit), actor);
    var free := Free(job);
    var p := Locks<V>(Prologue(job));
    LocksFollow<V>(free, Prologue(job));
    LocksAreEarly(p, REQUEST, Row(ACCOUNT, actor));
    AccountIsFree(job, creator);
    AccountIsFree(job, submitter);
    ApprovalRowsFollow(free, p, actor, creator, submitter);
    var q := p + ApprovalRows(actor, creator, submitter);
    BranchThenConfigFollow(free, q, actor, b, d, edit(b));
    assert q + [Acquire(Row(BRANCH_CONFIG, b), Exclusive)] + ConfigSteps(actor, b, d, edit(b)) == Program(job);
  }

  lemma BranchThenConfigFollow<V>(free: set<Lock>, q: seq<Action<V>>, actor: nat, b: nat, d: nat, edit: Edit<V>)
    requires Follows(q, free) && Below(q, BRANCH_CONFIG) && Acquired(q, |q|, Row(ACCOUNT, actor), Share)
    ensures Follows(q + [Acquire(Row(BRANCH_CONFIG, b), Exclusive)] + ConfigSteps(actor, b, d, edit), free)
  {
    hide Follows, ConfigSteps;
    var branch: Action<V> := Acquire(Row(BRANCH_CONFIG, b), Exclusive);
    OneMoreAction(free, q, branch);
    StillHeld(q, [branch], Row(ACCOUNT, actor), Share);
    assert (q + [branch])[|q|] == branch;
    ConfigStepsFollow(free, q + [branch], actor, b, d, edit);
  }

  lemma PeriodCreationFollows<V>(currency: Option<nat>, b: nat, structures: seq<nat>, definitions: seq<nat>, actor: nat)
    requires AscendingIds(structures)
    ensures var job := Job(Path<V>.PeriodCreation(currency, b, structures, definitions), actor);
            Follows(Program(job), Free(job))
  {
    hide Follows, Acquired, Locks, Below, LayoutLocks, LayoutRows;
    var job := Job(Path<V>.PeriodCreation(currency, b, structures, definitions), actor);
    var prologue := Prologue(job);
    var p := Locks<V>(prologue);
    LocksFollow<V>(Free(job), prologue);
    LocksAcquire<V>(prologue, 2, 0);
    OneMoreAction(Free(job), p, Naming(actor));
    NamingStaysBelow(p, actor, STRUCTURE);
    StillHeld(p, [Naming(actor)], Row(BRANCH_CONFIG, b), Exclusive);
    LayoutFollows(Free(job), p + [Naming(actor)], b, structures, definitions);
    CreationParts(job);
  }

  lemma NamingStaysBelow<V>(p: seq<Action<V>>, actor: nat, level: nat)
    requires Below(p, BRANCH_CONFIG + 1) && level > BRANCH_CONFIG
    ensures Below(p + [Naming(actor)], level)
  {
  }

  lemma CreationParts<V>(job: Job<V>)
    requires job.path.PeriodCreation?
    ensures Program(job) == Locks<V>(Prologue(job)) + [Naming(job.actor)]
                            + LayoutLocks(job.path.branch, job.path.structures, job.path.definitions)
                            + LayoutRows(job.path.branch, job.path.definitions)
  {
    hide Locks, Prologue, LayoutLocks, LayoutRows;
  }

  /** Every path follows the protocol, whatever its parameters. */
  lemma EveryPathFollows<V>(job: Job<V>)
    requires SortedIds(job.path)
    ensures Follows(Program(job), Free(job))
  {
    hide Follows, Locks;
    match job.path {
      case ConfigWrite(branches, d, edit) => ConfigWriteFollows(branches, d, edit, job.actor);
      case Approval(company, request, creator, submitter, b, d, edit) =>
        ApprovalFollows(company, request, creator, submitter, b, d, edit, job.actor);
      case PeriodCreation(currency, b, structures, definitions) =>
        PeriodCreationFollows<V>(currency, b, structures, definitions, job.actor);
      case _ => OthersFollow(job);
    }
  }

  lemma OthersFollow<V>(job: Job<V>)
    requires SortedIds(job.path) && !job.path.ConfigWrite? && !job.path.Approval? && !job.path.PeriodCreation?
    ensures Follows(Program(job), Free(job))
  {
    hide Follows, Locks, Free;
    LocksFollow<V>(Free(job), Prologue(job));
    if job.path.DirectCreation? {
      LocksAreEarly(Locks<V>(Prologue(job)), CAPACITY, Row(ACCOUNT, job.actor));
    } else {
      AccountIsFree(job, job.actor);
    }
    OneMoreAction(Free(job), Locks<V>(Prologue(job)), Naming(job.actor));
  }
}
