/**
 * Exactly when two of the paths can deadlock. What a foreign key shares out of the global order is
 * the only way in: one path is about to name an account in a row, and the other, which ends that
 * account's access and has locked it for update, wants a lock that the first one holds.
 */
module LockHazard {
  import opened Base
  import opened LockMachine
  import opened LockProofs
  import opened LockTheorems
  import opened LockPaths
  import opened LockSystem

  // ----- reaching a state -----

  ghost predicate RunsFromTo<V(!new)>(states: seq<System<V>>, schedule: seq<nat>, s: System<V>, s': System<V>) {
    Run(states, schedule) && states[0] == s && states[|schedule|] == s'
  }

  ghost predicate Reaches<V(!new)>(s: System<V>, s': System<V>) {
    exists states, schedule :: RunsFromTo(states, schedule, s, s')
  }

  lemma ReachesItself<V(!new)>(s: System<V>)
    ensures Reaches(s, s)
  {
    assert RunsFromTo([s], [], s, s);
  }

  lemma ReachesNext<V(!new)>(s: System<V>, s': System<V>, i: nat)
    requires Reaches(s, s') && CanMove(s', i)
    ensures Reaches(s, Do(s', i))
  {
    hide CanMove, Do;
    var states, schedule :| RunsFromTo(states, schedule, s, s');
    var longer := states + [Do(s', i)];
    forall k | 0 <= k < |schedule| + 1
      ensures CanMove(longer[k], (schedule + [i])[k]) && longer[k + 1] == Do(longer[k], (schedule + [i])[k])
    {
    }
    assert RunsFromTo(longer, schedule + [i], s, Do(s', i));
  }

  ghost predicate Stuck<V>(s: System<V>) {
    (exists i :: 0 <= i < |s.txns| && !s.txns[i].committed) && forall i :: !CanMove(s, i)
  }

  /** Some run leads into a deadlock. */
  ghost predicate MayDeadlock<V(!new)>(s: System<V>) {
    exists s' :: Reaches(s, s') && Stuck(s')
  }

  // ----- two transactions -----

  ghost function Fresh<V>(job: Job<V>): Txn<V> {
    Txn(Program(job), 0, None, map[], map[], false)
  }

  ghost function Pair<V>(p: Job<V>, q: Job<V>, store: map<Item, V>): System<V> {
    System([Fresh(p), Fresh(q)], store, 0)
  }

  /** The other transaction neither waits nor holds what these actions lock. */
  ghost predicate Uncontended<V>(s: System<V>, i: nat, n: nat)
    requires |s.txns| == 2 && i < 2
  {
    var t, u := s.txns[i], s.txns[1 - i];
    && !t.committed && t.ticket.None? && t.pc <= n <= |t.program| && u.ticket.None?
    && forall j :: t.pc <= j < n ==> t.program[j].Acquire? && !HoldsAgainst(u, t.program[j])
  }

  ghost predicate HoldsAgainst<V>(u: Txn<V>, a: Action<V>)
    requires a.Acquire?
  {
    exists m :: Conflict(a.mode, m) && Holds(u, a.lock, m)
  }

  /** Then the transaction gets as far as it wants while the other stands still. */
  lemma {:induction false} RunsAhead<V(!new)>(s0: System<V>, s: System<V>, i: nat, n: nat) returns (s': System<V>)
    requires |s.txns| == 2 && i < 2 && Uncontended(s, i, n) && Reaches(s0, s)
    ensures Reaches(s0, s') && s'.store == s.store
    ensures s'.txns == s.txns[i := s.txns[i].(pc := n)]
    decreases n
  {
    if n == s.txns[i].pc {
      s' := s;
      assert s.txns[i].(pc := n) == s.txns[i];
    } else {
      var s1 := RunsAhead(s0, s, i, n - 1);
      s' := OneAhead(s0, s1, i);
      assert s'.txns == s.txns[i := s.txns[i].(pc := n)];
    }
  }

  lemma OneAhead<V(!new)>(s0: System<V>, s: System<V>, i: nat) returns (s': System<V>)
    requires |s.txns| == 2 && i < 2 && s.txns[i].pc < |s.txns[i].program| && Uncontended(s, i, s.txns[i].pc + 1)
    requires Reaches(s0, s)
    ensures Reaches(s0, s') && s'.store == s.store
    ensures s'.txns == s.txns[i := s.txns[i].(pc := s.txns[i].pc + 1)]
  {
    hide Reaches, Run, Reentrant;
    var t := s.txns[i];
    ReachesNext(s0, s, i);
    s' := Do(s, i);
    if s'.txns[i].ticket.Some? {
      assert CanMove(s', i);
      ReachesNext(s0, s', i);
      s' := Do(s', i);
    }
  }

  // ----- where a lock is taken -----

  /** Where a path's prologue takes a lock; whatever it takes earlier lies before. */
  lemma {:induction false} Position<V>(segments: seq<Segment>, i: nat, k: nat) returns (n: nat)
    requires Climbing(segments) && i < |segments| && k < |segments[i].ids|
    ensures n < |Locks<V>(segments)|
    ensures Locks<V>(segments)[n] == Acquire(Row(segments[i].level, segments[i].ids[k]), segments[i].mode)
    ensures forall j :: 0 <= j < n ==>
              Locks<V>(segments)[j].Acquire? && Before(Locks<V>(segments)[j].lock, Row(segments[i].level, segments[i].ids[k]))
  {
    var last := |segments| - 1;
    var before := Locks<V>(segments[..last]);
    if i < last {
      n := Position<V>(segments[..last], i, k);
    } else {
      TakeAllSize<V>(segments[last].level, segments[last].ids, segments[last].mode);
      TakeAllTakes<V>(segments[last].level, segments[last].ids, segments[last].mode, k);
      n := |before| + k;
      forall j | 0 <= j < n
        ensures Locks<V>(segments)[j].Acquire?
        ensures Before(Locks<V>(segments)[j].lock, Row(segments[i].level, segments[i].ids[k]))
      {
        if j < |before| {
          var i1, k1 := WhatLocksTake<V>(segments[..last], j);
        } else {
          TakeAllTakes<V>(segments[last].level, segments[last].ids, segments[last].mode, j - |before|);
        }
      }
    }
  }

  // ----- a jam of two programs -----

  /**
   * One stands at its request j, the other at its request k. Up to there they fit together, but
   * each wants a lock that the other holds against it.
   */
  ghost predicate Jam<V>(p: seq<Action<V>>, q: seq<Action<V>>, j: nat, k: nat) {
    && j < |p| && k < |q| && p[j].Acquire? && q[k].Acquire?
    && !Reentrant(p, j, p[j].lock, p[j].mode) && !Reentrant(q, k, q[k].lock, q[k].mode)
    && Fit(p, q, j, k)
    && (exists m :: 0 <= m < k && Opposes(q[m], p[j]))
    && (exists n :: 0 <= n < j && Opposes(p[n], q[k]))
  }

  ghost predicate Fit<V>(p: seq<Action<V>>, q: seq<Action<V>>, j: nat, k: nat)
    requires j <= |p| && k <= |q|
  {
    forall n, m :: 0 <= n < j && 0 <= m < k && p[n].Acquire? ==> !Opposes(q[m], p[n])
  }

  lemma JamIsMutual<V>(p: seq<Action<V>>, q: seq<Action<V>>, j: nat, k: nat)
    requires Jam(p, q, j, k)
    ensures Jam(q, p, k, j)
  {
    assert forall n, m :: 0 <= n < j && 0 <= m < k && p[n].Acquire? && q[m].Acquire? ==> Opposes(q[m], p[n]) == Opposes(p[n], q[m]);
  }

  /** A path does not hold a lock that it waits for, not even in a weaker mode. */
  lemma WaiterHoldsNothingOfIt<V(!new)>(s: System<V>, i: nat, free: set<Lock>, m: Mode)
    requires Waiting(s, i) && Follows(s.txns[i].program, free)
    ensures !Holds(s.txns[i], Wanted(s, i), m)
  {
    var t := s.txns[i];
    assert OrderedAt(t.program, t.pc) || IsFree(t.program[t.pc], free);
    assert forall l :: !Before(l, l);
  }

  lemma LastOneMoves<V(!new)>(s: System<V>, i: nat)
    requires |s.txns| == 2 && Inv(s, Guard) && i < 2 && s.txns[1 - i].committed && !s.txns[i].committed
    ensures CanMove(s, i)
  {
    if !CanMove(s, i) {
      StuckMeansWaiting(s, Guard, i);
    }
  }

  lemma FirstWaiterMoves<V(!new)>(s: System<V>)
    requires |s.txns| == 2 && Inv(s, Guard) && Waiting(s, 0) && Waiting(s, 1) && Wanted(s, 0) == Wanted(s, 1)
    requires forall m :: !Holds(s.txns[0], Wanted(s, 0), m) && !Holds(s.txns[1], Wanted(s, 0), m)
    ensures CanMove(s, 0) || CanMove(s, 1)
  {
  }

  /** Who cannot move, while the other waits for something else, wants what the other holds. */
  lemma WantsWhatIsHeld<V(!new)>(s: System<V>, i: nat) returns (n: nat)
    requires |s.txns| == 2 && i < 2 && Waiting(s, i) && Waiting(s, 1 - i) && Wanted(s, i) != Wanted(s, 1 - i)
    requires !CanMove(s, i)
    ensures n < s.txns[1 - i].pc && Opposes(s.txns[1 - i].program[n], s.txns[i].program[s.txns[i].pc])
  {
    var a := s.txns[i].program[s.txns[i].pc];
    var u := s.txns[1 - i];
    assert Blocks(u, a.lock, a.mode, s.txns[i].ticket.value);
    var m :| Conflict(a.mode, m) && (Holds(u, a.lock, m) || Wants(u, a.lock, m));
    n :| 0 <= n < u.pc && n < |u.program| && u.program[n].Acquire? && u.program[n].lock == a.lock && u.program[n].mode == m;
  }

  lemma HeldLocksFit<V(!new)>(s: System<V>)
    requires |s.txns| == 2 && Compatible(s) && !s.txns[0].committed && !s.txns[1].committed
    requires s.txns[0].pc <= |s.txns[0].program| && s.txns[1].pc <= |s.txns[1].program|
    ensures Fit(s.txns[0].program, s.txns[1].program, s.txns[0].pc, s.txns[1].pc)
  {
    var p, q := s.txns[0].program, s.txns[1].program;
    forall n, m | 0 <= n < s.txns[0].pc && 0 <= m < s.txns[1].pc && p[n].Acquire?
      ensures !Opposes(q[m], p[n])
    {
      if Opposes(q[m], p[n]) {
        assert Holds(s.txns[0], p[n].lock, p[n].mode) && Holds(s.txns[1], p[n].lock, q[m].mode);
      }
    }
  }

  /** A deadlock of two paths is a jam of their programs. */
  lemma StuckMeansJam<V(!new)>(s: System<V>, free0: set<Lock>, free1: set<Lock>)
    requires |s.txns| == 2 && Inv(s, Guard) && Stuck(s)
    requires Follows(s.txns[0].program, free0) && Follows(s.txns[1].program, free1)
    ensures Jam(s.txns[0].program, s.txns[1].program, s.txns[0].pc, s.txns[1].pc)
  {
    hide Follows, CanMove, Opposes, Reentrant, Fit, Isolated, Disciplined;
    if s.txns[0].committed {
      LastOneMoves(s, 1);
    } else if s.txns[1].committed {
      LastOneMoves(s, 0);
    }
    StuckMeansWaiting(s, Guard, 0);
    StuckMeansWaiting(s, Guard, 1);
    if Wanted(s, 0) == Wanted(s, 1) {
      forall m ensures !Holds(s.txns[0], Wanted(s, 0), m) && !Holds(s.txns[1], Wanted(s, 0), m) {
        WaiterHoldsNothingOfIt(s, 0, free0, m);
        WaiterHoldsNothingOfIt(s, 1, free1, m);
      }
      FirstWaiterMoves(s);
    }
    var m := WantsWhatIsHeld(s, 0);
    var n := WantsWhatIsHeld(s, 1);
    HeldLocksFit(s);
  }

  lemma BothWait<V(!new)>(s: System<V>)
    requires |s.txns| == 2 && !s.txns[0].committed && !s.txns[1].committed
    requires forall i :: 0 <= i < 2 ==>
               s.txns[i].ticket.Some? && s.txns[i].pc < |s.txns[i].program| && s.txns[i].program[s.txns[i].pc].Acquire?
    requires forall i :: 0 <= i < 2 ==> HoldsAgainst(s.txns[1 - i], s.txns[i].program[s.txns[i].pc])
    ensures Stuck(s)
  {
    forall i | 0 <= i < 2 ensures !CanMove(s, i) {
      var a := s.txns[i].program[s.txns[i].pc];
      assert Blocks(s.txns[1 - i], a.lock, a.mode, s.txns[i].ticket.value);
    }
  }

  lemma OpposedMeansHeldAgainst<V(!new)>(u: Txn<V>, n: nat, a: Action<V>)
    requires !u.committed && n < u.pc && n < |u.program| && a.Acquire? && Opposes(u.program[n], a)
    ensures HoldsAgainst(u, a)
  {
    assert Holds(u, a.lock, u.program[n].mode);
  }

  lemma HeldAgainstMeansOpposed<V(!new)>(u: Txn<V>, a: Action<V>) returns (n: nat)
    requires a.Acquire? && HoldsAgainst(u, a)
    ensures n < u.pc && n < |u.program| && Opposes(u.program[n], a)
  {
    var m :| Conflict(a.mode, m) && Holds(u, a.lock, m);
    n :| 0 <= n < u.pc && n < |u.program| && u.program[n].Acquire? && u.program[n].lock == a.lock && u.program[n].mode == m;
  }

  /** First one runs up to its request, then the other; each step is free, and then nothing is. */
  lemma JamDeadlocks<V(!new)>(p: Job<V>, q: Job<V>, store: map<Item, V>, j: nat, k: nat)
    requires Jam(Program(p), Program(q), j, k)
    requires forall n :: 0 <= n < j ==> Program(p)[n].Acquire?
    requires forall m :: 0 <= m < k ==> Program(q)[m].Acquire?
    ensures MayDeadlock(Pair(p, q, store))
  {
    hide Program, Reaches, Reentrant, Stuck, Opposes, HoldsAgainst;
    var s0 := Pair(p, q, store);
    ReachesItself(s0);
    forall n | 0 <= n < j ensures !HoldsAgainst(s0.txns[1], Program(p)[n]) {
      if HoldsAgainst(s0.txns[1], Program(p)[n]) {
        var m := HeldAgainstMeansOpposed(s0.txns[1], Program(p)[n]);
      }
    }
    var s1 := RunsAhead(s0, s0, 0, j);
    forall m | 0 <= m < k ensures !HoldsAgainst(s1.txns[0], Program(q)[m]) {
      if HoldsAgainst(s1.txns[0], Program(q)[m]) {
        var n := HeldAgainstMeansOpposed(s1.txns[0], Program(q)[m]);
        OpposesBack(Program(p)[n], Program(q)[m]);
      }
    }
    var s2 := RunsAhead(s0, s1, 1, k);
    assert CanMove(s2, 0);
    ReachesNext(s0, s2, 0);
    var s3 := Do(s2, 0);
    assert CanMove(s3, 1);
    ReachesNext(s0, s3, 1);
    var s4 := Do(s3, 1);
    var m :| 0 <= m < k && Opposes(Program(q)[m], Program(p)[j]);
    var n :| 0 <= n < j && Opposes(Program(p)[n], Program(q)[k]);
    OpposedMeansHeldAgainst(s4.txns[1], m, Program(p)[j]);
    OpposedMeansHeldAgainst(s4.txns[0], n, Program(q)[k]);
    BothWait(s4);
  }

  lemma OpposesBack<V>(a: Action<V>, b: Action<V>)
    requires b.Acquire? && Opposes(a, b)
    ensures a.Acquire? && Opposes(b, a)
  {
  }

  // ----- when two jobs clash -----

  /** The rows of a level, from the transfer requests to the periods, that a path locks. */
  function IdsAt<V>(path: Path<V>, level: nat): seq<nat> {
    match path
    case PeriodCreation(_, branch, _, _) => if level == WORKFLOW then [branch] else []
    case DriverWrite(_, assignments, branches, _, _) =>
      if level == ASSIGNMENT then assignments else if level == WORKFLOW then branches else []
    case Boundary(_, _, transfers, assignments, branches, periods) =>
      if level == TRANSFER then transfers
      else if level == ASSIGNMENT then assignments
      else if level == WORKFLOW then branches
      else if level == PERIOD then periods else []
    case SourceWrite(_, period, _) => if level == PERIOD then [period] else []
    case Lifecycle(_, branch, periods) => if level == WORKFLOW then [branch] else if level == PERIOD then periods else []
    case SetupPolicy(_, _, branches) => if level == WORKFLOW then branches else []
    case _ => []
  }

  /** Both lock the same transfer request, assignment, Branch workflow or period. */
  ghost predicate Overlap<V>(p: Path<V>, q: Path<V>) {
    exists level: nat, id: nat :: TRANSFER <= level <= PERIOD && id in IdsAt(p, level) && id in IdsAt(q, level)
  }

  predicate SameEmployee<V>(p: Job<V>, q: Job<V>) {
    p.path.Boundary? && q.path.Boundary? && p.path.employee == q.path.employee
  }

  /** One ends the access of the account that the other acts as, and both lock a row in between. */
  ghost predicate Clash<V>(c: Job<V>, t: Job<V>) {
    Ends(t, c.actor) && !Ends(c, c.actor) && !SameEmployee(c, t) && Overlap(c.path, t.path)
  }

  /** Each ends the access of the account that the other acts as. */
  predicate EndEachOther<V>(p: Job<V>, q: Job<V>) {
    Ends(p, q.actor) && Ends(q, p.actor) && p.actor != q.actor && !SameEmployee(p, q)
  }

  /** A writer of a definition in the layout locks a structure of the layout. */
  ghost predicate Housed<V>(c: Path<V>, w: Path<V>) {
    forall d, its :: c.PeriodCreation? && d in c.definitions && WritesDefinition(w, d, its) ==>
      its.Some? && its.value in c.structures
  }

  lemma AtHomeIsHoused<V>(c: Path<V>, w: Path<V>, home: nat -> Option<nat>)
    requires AtHome(c, home) && AtHome(w, home)
    ensures Housed(c, w)
  {
  }

  // ----- a jam is a clash -----

  lemma ExcludedDoNotFit<V>(p: seq<Action<V>>, q: seq<Action<V>>, j: nat, m: nat, k: nat)
    requires j <= |p| && m <= k <= |q| && Excluded(p, j, q, m)
    ensures !Fit(p, q, j, k)
  {
    var l, a, b :| Conflict(a, b) && Acquired(p, j, l, a) && Acquired(q, m, l, b);
    var x :| 0 <= x < j && x < |p| && p[x].Acquire? && p[x].lock == l && p[x].mode == a;
    var y :| 0 <= y < m && y < |q| && q[y].Acquire? && q[y].lock == l && q[y].mode == b;
    assert Opposes(q[y], p[x]);
  }

  /** What the transfer requests to the periods, locked by a path, are. */
  lemma RowsTaken<V>(job: Job<V>, n: nat)
    requires n < |Program(job)| && Program(job)[n].Acquire? && TRANSFER <= Program(job)[n].lock.level <= PERIOD
    ensures var l := Program(job)[n].lock; l == Row(l.level, l.major) && l.major in IdsAt(job.path, l.level)
  {
    hide Locks, Body;
    var before := |Locks<V>(Prologue(job))|;
    if n < before {
      var i, k := WhatLocksTake<V>(Prologue(job), n);
    } else {
      NoRowsInBodies(job, n - before);
    }
  }

  lemma NoRowsInBodies<V>(job: Job<V>, n: nat)
    requires n < |Body(job)| && Body(job)[n].Acquire?
    ensures !(TRANSFER <= Body(job)[n].lock.level <= PERIOD)
  {
    match job.path {
      case ConfigWrite(branches, d, edit) => EveryBranchLocks(job.actor, branches, d, edit, n);
      case Approval(_, _, _, _, _, _, _) =>
      case PeriodCreation(_, _, _, _) => WhatCreationDoes(job, n);
      case _ =>
    }
  }

  /** What ends an Employee's access may lock. */
  lemma EndingLocks<V>(t: Job<V>, n: nat)
    requires t.path.Boundary? && n < |Program(t)| && Program(t)[n].Acquire?
    ensures var a := Program(t)[n];
            || a == Naming(t.actor)
            || (a.lock.level == ACCOUNT && Ends(t, a.lock.major) && a.lock == Row(ACCOUNT, a.lock.major))
            || a.lock == Row(EMPLOYEE, t.path.employee)
            || TRANSFER <= a.lock.level <= PERIOD
  {
    hide Locks;
    var before := |Locks<V>(Prologue(t))|;
    if n < before {
      var i, k := WhatLocksTake<V>(Prologue(t), n);
    }
  }

  /** Where a path that ends an account's access has the Employee, and then the account. */
  lemma EndingStarts<V>(t: Job<V>, x: nat) returns (e: nat, a: nat)
    requires Ends(t, x) && SortedIds(t.path)
    ensures e < a < |Locks<V>(Prologue(t))| <= |Program(t)|
    ensures Program(t)[e] == Acquire(Row(EMPLOYEE, t.path.employee), Exclusive)
    ensures Program(t)[a] == Acquire(Row(ACCOUNT, x), Exclusive)
    ensures forall m :: 0 <= m < |Locks<V>(Prologue(t))| ==> Program(t)[m].Acquire?
    ensures forall m :: 0 <= m < a ==> Before(Program(t)[m].lock, Row(ACCOUNT, x))
  {
    var prologue := Prologue(t);
    e := Position<V>(prologue, 0, 0);
    a := Position<V>(prologue, 1, 0);
    hide Locks, Body, Prologue;
    forall m | 0 <= m < |Locks<V>(prologue)| ensures Program(t)[m].Acquire? {
      var i, k := WhatLocksTake<V>(prologue, m);
    }
  }

  /** Rows name accounts after the locks of the prologue only. */
  lemma NamesAreInBodies<V>(p: Job<V>, j: nat, x: nat)
    requires j < |Program(p)| && Program(p)[j] == Naming(x)
    ensures |Locks<V>(Prologue(p))| <= j
  {
    hide Locks, Body;
    if j < |Locks<V>(Prologue(p))| {
      var i, k := WhatLocksTake<V>(Prologue(p), j);
    }
  }

  lemma EnderSharesNothingOfIt<V>(p: Job<V>, j: nat, x: nat)
    requires SortedIds(p.path) && j < |Program(p)| && Program(p)[j] == Naming(x) && Ends(p, x)
    ensures Reentrant(Program(p), j, Row(ACCOUNT, x), Share)
  {
    NamesAreInBodies(p, j, x);
    var e, a := EndingStarts(p, x);
    hide Program, Prologue;
    assert Covers(Exclusive, Share) && Acquired(Program(p), j, Row(ACCOUNT, x), Exclusive);
  }

  lemma EmployeeIsLocked<V>(t: Job<V>) returns (e: nat)
    requires t.path.Boundary? && SortedIds(t.path)
    ensures e < |Locks<V>(Prologue(t))| <= |Program(t)| && Program(t)[e] == Acquire(Row(EMPLOYEE, t.path.employee), Exclusive)
  {
    e := Position<V>(Prologue(t), 0, 0);
  }

  /** Two paths of one Employee never stand at such requests together. */
  lemma SameEmployeeDoesNotFit<V>(p: Job<V>, q: Job<V>, j: nat, m: nat, k: nat, y: nat)
    requires SortedIds(p.path) && SortedIds(q.path) && SameEmployee(p, q) && Ends(q, y)
    requires |Locks<V>(Prologue(p))| <= j <= |Program(p)| && m < k <= |Program(q)|
    requires Program(q)[m] == Acquire(Row(ACCOUNT, y), Exclusive)
    ensures !Fit(Program(p), Program(q), j, k)
  {
    var n := EmployeeIsLocked(p);
    var e, a := EndingStarts(q, y);
    hide Program, Prologue;
    assert !Before(Row(ACCOUNT, y), Row(ACCOUNT, y));
    assert e < k;
    assert Opposes(Program(q)[e], Program(p)[n]);
  }

  /** A path that waits to name an account, against one that has locked it for update. */
  lemma NamingJamMeansClash<V>(p: Job<V>, q: Job<V>, j: nat, k: nat, m: nat, x: nat)
    requires SortedIds(p.path) && SortedIds(q.path) && Jam(Program(p), Program(q), j, k)
    requires Program(p)[j] == Naming(x) && x in FreeAccounts(p)
    requires m < k && Program(q)[m] == Acquire(Row(ACCOUNT, x), Exclusive)
    ensures Clash(p, q) || EndEachOther(p, q)
  {
    hide Program, Prologue, Reentrant, Fit, Follows, OrderedAt;
    WhoLocksAccounts(q, m, x);
    if Ends(p, x) {
      EnderSharesNothingOfIt(p, j, x);
    }
    NamesAreInBodies(p, j, x);
    if SameEmployee(p, q) {
      SameEmployeeDoesNotFit(p, q, j, m, k, x);
    }
    var n :| 0 <= n < j && Opposes(Program(p)[n], Program(q)[k]);
    EndingLocks(q, k);
    EveryPathFollows(q);
    LaterThanAccount(q, m, k, x);
    var a := Program(q)[k];
    if a == Naming(q.actor) {
      WhoLocksAccounts(p, n, q.actor);
    } else {
      RowsTaken(q, k);
      RowsTaken(p, n);
      assert Overlap(p.path, q.path);
    }
  }

  lemma LaterThanAccount<V>(q: Job<V>, m: nat, k: nat, x: nat)
    requires SortedIds(q.path) && q.path.Boundary? && m < k < |Program(q)| && Program(q)[k].Acquire?
    requires Program(q)[m] == Acquire(Row(ACCOUNT, x), Exclusive)
    requires !Reentrant(Program(q), k, Program(q)[k].lock, Program(q)[k].mode)
    ensures Program(q)[k] == Naming(q.actor) || TRANSFER <= Program(q)[k].lock.level <= PERIOD
  {
    EveryPathFollows(q);
    EndingLocks(q, k);
    WhoLocksAccounts(q, m, x);
    hide Program, Prologue, Reentrant;
    var a := Program(q)[k];
    assert OrderedAt(Program(q), k) || IsFree(a, Free(q));
  }

  /** At a layout's definition nobody jams: its structure keeps the two apart. */
  lemma LayoutDoesNotFit<V>(p: Job<V>, q: Job<V>, j: nat, k: nat, m: nat, d: nat)
    requires Housed(p.path, q.path) && p.path.PeriodCreation? && d in p.path.definitions
    requires j < |Program(p)| && Program(p)[j] == Acquire(Row(PAY_DEFINITION, d), Share)
    requires m < k <= |Program(q)| && Program(q)[m] == Acquire(Row(PAY_DEFINITION, d), Exclusive)
    ensures !Fit(Program(p), Program(q), j, k)
  {
    hide Program, Fit, Acquired;
    var its := WhoLocksDefinitions(q, m, d);
    CreationHasStructures(p, j, its.value);
    assert Conflict(Exclusive, Exclusive);
    assert Excluded(Program(p), j, Program(q), m);
    ExcludedDoNotFit(Program(p), Program(q), j, m, k);
  }

  lemma FreeJamMeansClash<V>(p: Job<V>, q: Job<V>, j: nat, k: nat)
    requires SortedIds(p.path) && SortedIds(q.path) && Housed(p.path, q.path)
    requires Jam(Program(p), Program(q), j, k) && IsFree(Program(p)[j], Free(p))
    ensures Clash(p, q) || EndEachOther(p, q)
  {
    hide Program, Reentrant, Fit, Housed;
    var m :| 0 <= m < k && Opposes(Program(q)[m], Program(p)[j]);
    var l := Program(p)[j].lock;
    if l.level == ACCOUNT {
      NamingJamMeansClash(p, q, j, k, m, l.major);
    } else {
      LayoutDoesNotFit(p, q, j, k, m, l.major);
    }
  }

  /** In a jam one of the two requests is out of order. */
  lemma JamIsOutOfOrder<V>(p: seq<Action<V>>, q: seq<Action<V>>, j: nat, k: nat)
    requires Jam(p, q, j, k)
    ensures !OrderedAt(p, j) || !OrderedAt(q, k)
  {
    var m :| 0 <= m < k && Opposes(q[m], p[j]);
    var n :| 0 <= n < j && Opposes(p[n], q[k]);
  }

  lemma JamMeansClash<V>(p: Job<V>, q: Job<V>, j: nat, k: nat)
    requires SortedIds(p.path) && SortedIds(q.path) && Housed(p.path, q.path) && Housed(q.path, p.path)
    requires Jam(Program(p), Program(q), j, k)
    ensures Clash(p, q) || Clash(q, p) || EndEachOther(p, q)
  {
    hide Program, Housed, Jam, Clash, OrderedAt;
    EveryPathFollows(p);
    EveryPathFollows(q);
    JamIsOutOfOrder(Program(p), Program(q), j, k);
    JamIsMutual(Program(p), Program(q), j, k);
    BothAcquire(Program(p), Program(q), j, k);
    if !OrderedAt(Program(p), j) {
      FreeJamMeansClash(p, q, j, k);
    } else {
      FreeJamMeansClash(q, p, k, j);
    }
  }

  lemma BothAcquire<V>(p: seq<Action<V>>, q: seq<Action<V>>, j: nat, k: nat)
    requires Jam(p, q, j, k)
    ensures j < |p| && k < |q| && p[j].Acquire? && q[k].Acquire?
  {
  }

  // ----- a clash is a jam -----

  /** The least request of a path that the other's earlier ones oppose. */
  lemma {:induction false} FirstOpposed<V>(p: seq<Action<V>>, q: seq<Action<V>>, j: nat, m: nat) returns (k: nat)
    requires j <= |p| && m < |q| && q[m].Acquire? && exists n :: 0 <= n < j && Opposes(p[n], q[m])
    ensures k <= m && q[k].Acquire? && exists n :: 0 <= n < j && Opposes(p[n], q[k])
    ensures forall y, n :: 0 <= y < k && 0 <= n < j && q[y].Acquire? ==> !Opposes(p[n], q[y])
    decreases m
  {
    if y :| 0 <= y < m && q[y].Acquire? && exists n :: 0 <= n < j && Opposes(p[n], q[y]) {
      k := FirstOpposed(p, q, j, y);
    } else {
      k := m;
    }
  }

  /** What covers a request is opposed by whatever opposes the request. */
  lemma FirstIsNotReentrant<V>(p: seq<Action<V>>, q: seq<Action<V>>, j: nat, k: nat, n: nat)
    requires n < j <= |p| && k < |q| && q[k].Acquire? && Opposes(p[n], q[k])
    requires forall y, n :: 0 <= y < k && 0 <= n < j && q[y].Acquire? ==> !Opposes(p[n], q[y])
    ensures !Reentrant(q, k, q[k].lock, q[k].mode)
  {
  }

  lemma RowSegment<V>(job: Job<V>, level: nat) returns (i: nat)
    requires TRANSFER <= level <= PERIOD && IdsAt(job.path, level) != []
    ensures i < |Prologue(job)| && Prologue(job)[i].level == level && Prologue(job)[i].ids == IdsAt(job.path, level)
    ensures job.path.Boundary? ==> Prologue(job)[i].mode == Exclusive
  {
    var path := job.path;
    i := if path.Boundary? then 2 + level - TRANSFER
         else if path.SetupPolicy? || (path.DriverWrite? && level == WORKFLOW) || (path.Lifecycle? && level == PERIOD) then 2
         else 1;
  }

  /** The rows between an account and the next naming are locked where the order says. */
  lemma RowIsLocked<V>(job: Job<V>, level: nat, id: nat) returns (n: nat)
    requires TRANSFER <= level <= PERIOD && id in IdsAt(job.path, level)
    ensures n < |Locks<V>(Prologue(job))| <= |Program(job)|
    ensures Program(job)[n].Acquire? && Program(job)[n].lock == Row(level, id)
    ensures job.path.Boundary? ==> Program(job)[n].mode == Exclusive
  {
    var prologue := Prologue(job);
    var i := RowSegment(job, level);
    var k: nat :| k < |prologue[i].ids| && prologue[i].ids[k] == id;
    LocksAcquire<V>(prologue, i, k);
    hide Locks, Body;
    n :| 0 <= n < |Locks<V>(prologue)| && Locks<V>(prologue)[n].Acquire? && Locks<V>(prologue)[n].lock == Row(level, id)
         && Locks<V>(prologue)[n].mode == prologue[i].mode;
  }

  lemma NamesAfterPrologue<V>(c: Job<V>)
    requires c.path.Boundary? || exists level: nat, id: nat :: id in IdsAt(c.path, level)
    ensures var j := |Locks<V>(Prologue(c))|; j < |Program(c)| && Program(c)[j] == Naming(c.actor)
    ensures forall n :: 0 <= n < |Locks<V>(Prologue(c))| ==> Program(c)[n].Acquire?
  {
    hide Locks, Prologue, LayoutLocks, LayoutRows;
    assert Body(c) != [] && Body(c)[0] == Naming(c.actor);
    forall n | 0 <= n < |Locks<V>(Prologue(c))| ensures Program(c)[n].Acquire? {
      var i, k := WhatLocksTake<V>(Prologue(c), n);
    }
  }

  /** Employees and accounts that a prologue locks. */
  lemma EarlyLocks<V>(c: Job<V>, n: nat)
    requires n < |Locks<V>(Prologue(c))| && Program(c)[n].Acquire? && EMPLOYEE <= Program(c)[n].lock.level <= ACCOUNT
    ensures c.path.Boundary?
    ensures Program(c)[n].lock.level == EMPLOYEE ==> Program(c)[n].lock == Row(EMPLOYEE, c.path.employee)
    ensures Program(c)[n].lock.level == ACCOUNT ==> Ends(c, Program(c)[n].lock.major)
  {
    hide Locks, Body;
    var i, k := WhatLocksTake<V>(Prologue(c), n);
  }

  lemma NamingIsNew<V>(c: Job<V>)
    requires !Ends(c, c.actor)
    ensures !Reentrant(Program(c), |Locks<V>(Prologue(c))|, Row(ACCOUNT, c.actor), Share)
  {
    hide Locks, Body, Prologue;
    var j := |Locks<V>(Prologue(c))|;
    forall m ensures !Acquired(Program(c), j, Row(ACCOUNT, c.actor), m) {
      if Acquired(Program(c), j, Row(ACCOUNT, c.actor), m) {
        var n :| 0 <= n < j && n < |Program(c)| && Program(c)[n].Acquire? && Program(c)[n].lock == Row(ACCOUNT, c.actor);
        EarlyLocks(c, n);
      }
    }
  }

  /** What an opposed request is, if it is not after the account's lock. */
  lemma OpposedAfterAccount<V>(c: Job<V>, t: Job<V>, n: nat, a: nat, k: nat)
    requires t.path.Boundary? && !Ends(c, c.actor) && !SameEmployee(c, t)
    requires a < |Locks<V>(Prologue(t))| <= |Program(t)| && Program(t)[a] == Acquire(Row(ACCOUNT, c.actor), Exclusive)
    requires forall m :: 0 <= m < a ==> Program(t)[m].Acquire? && Before(Program(t)[m].lock, Row(ACCOUNT, c.actor))
    requires n < |Locks<V>(Prologue(c))| && k < |Program(t)| && Program(t)[k].Acquire?
    requires Opposes(Program(c)[n], Program(t)[k])
    ensures a < k
  {
    hide Program, Locks, Prologue;
    if k <= a {
      assert Program(t)[k].lock.level <= ACCOUNT;
      EndingEarly(t, k);
      EarlyLocks(t, a);
      EarlyLocks(t, k);
      EarlyLocks(c, n);
    }
  }

  lemma EndingEarly<V>(t: Job<V>, k: nat)
    requires t.path.Boundary? && k < |Locks<V>(Prologue(t))| && Program(t)[k].Acquire?
    ensures Program(t)[k].lock.level >= EMPLOYEE
  {
    hide Locks, Body;
    var i, m := WhatLocksTake<V>(Prologue(t), k);
  }

  /** If a path that ends c's actor comes to a lock that c holds, the two jam. */
  lemma CrossMeansJam<V>(c: Job<V>, t: Job<V>, target: nat) returns (k: nat)
    requires SortedIds(t.path) && Ends(t, c.actor) && !Ends(c, c.actor) && !SameEmployee(c, t)
    requires var j := |Locks<V>(Prologue(c))|;
             && j < |Program(c)| && Program(c)[j] == Naming(c.actor)
             && (forall n :: 0 <= n < j ==> Program(c)[n].Acquire?)
             && target < |Program(t)| && (forall m :: 0 <= m <= target ==> Program(t)[m].Acquire?)
             && exists n :: 0 <= n < j && Opposes(Program(c)[n], Program(t)[target])
    ensures k <= target && Jam(Program(c), Program(t), |Locks<V>(Prologue(c))|, k)
  {
    hide Program, Locks, Prologue, Reentrant;
    var j := |Locks<V>(Prologue(c))|;
    var e, a := EndingStarts(t, c.actor);
    k := FirstOpposed(Program(c), Program(t), j, target);
    var n :| 0 <= n < j && Opposes(Program(c)[n], Program(t)[k]);
    OpposedAfterAccount(c, t, n, a, k);
    NamingIsNew(c);
    FirstIsNotReentrant(Program(c), Program(t), j, k, n);
    assert Opposes(Program(t)[a], Program(c)[j]);
    assert Fit(Program(t), Program(c), k, j);
    FitIsMutual(Program(t), Program(c), k, j);
  }

  lemma FitIsMutual<V>(p: seq<Action<V>>, q: seq<Action<V>>, j: nat, k: nat)
    requires j <= |p| && k <= |q| && Fit(p, q, j, k)
    ensures Fit(q, p, k, j)
  {
    assert forall n, m :: 0 <= n < j && 0 <= m < k && p[n].Acquire? && q[m].Acquire? ==> Opposes(q[m], p[n]) == Opposes(p[n], q[m]);
  }

  lemma ClashMeansJam<V>(c: Job<V>, t: Job<V>) returns (j: nat, k: nat)
    requires SortedIds(c.path) && SortedIds(t.path) && Clash(c, t)
    ensures Jam(Program(c), Program(t), j, k)
    ensures forall n :: 0 <= n < j ==> Program(c)[n].Acquire?
    ensures forall m :: 0 <= m < k ==> Program(t)[m].Acquire?
  {
    hide Program, Locks, Prologue, Jam;
    var level: nat, id: nat :| TRANSFER <= level <= PERIOD && id in IdsAt(c.path, level) && id in IdsAt(t.path, level);
    var n := RowIsLocked(c, level, id);
    var target := RowIsLocked(t, level, id);
    assert Opposes(Program(c)[n], Program(t)[target]);
    NamesAfterPrologue(c);
    NamesAfterPrologue(t);
    j := |Locks<V>(Prologue(c))|;
    k := CrossMeansJam(c, t, target);
  }

  lemma EndEachOtherMeansJam<V>(p: Job<V>, q: Job<V>) returns (j: nat, k: nat)
    requires SortedIds(p.path) && SortedIds(q.path) && EndEachOther(p, q)
    ensures Jam(Program(p), Program(q), j, k)
    ensures forall n :: 0 <= n < j ==> Program(p)[n].Acquire?
    ensures forall m :: 0 <= m < k ==> Program(q)[m].Acquire?
  {
    hide Program, Locks, Prologue, Jam;
    NamesAfterPrologue(p);
    NamesAfterPrologue(q);
    var e, a := EndingStarts(p, q.actor);
    var target := |Locks<V>(Prologue(q))|;
    assert Opposes(Program(p)[a], Program(q)[target]);
    j := |Locks<V>(Prologue(p))|;
    k := CrossMeansJam(p, q, target);
  }

  // ----- the theorem -----

  lemma PairRuns<V(!new)>(p: Job<V>, q: Job<V>, store: map<Item, V>)
    requires SortedIds(p.path) && SortedIds(q.path) && Known(Program(p), store) && Known(Program(q), store)
    ensures Initial(Pair(p, q, store)) && Runs(Pair(p, q, store), [p, q]) && Disciplined(Pair(p, q, store), Guard)
  {
    hide Program, SortedIds, Known;
    PathsAreDisciplined(Pair(p, q, store), [p, q]);
  }

  lemma DeadlockMeansJam<V(!new)>(p: Job<V>, q: Job<V>, store: map<Item, V>) returns (j: nat, k: nat)
    requires SortedIds(p.path) && SortedIds(q.path) && Known(Program(p), store) && Known(Program(q), store)
    requires MayDeadlock(Pair(p, q, store))
    ensures Jam(Program(p), Program(q), j, k)
  {
    PairRuns(p, q, store);
    EveryPathFollows(p);
    EveryPathFollows(q);
    hide Program, Inv, Initial, Known, Follows, Stuck, Guarded, Disciplined, Runs, Jam;
    var s' :| Reaches(Pair(p, q, store), s') && Stuck(s');
    var states, schedule :| RunsFromTo(states, schedule, Pair(p, q, store), s');
    RunKeepsInv(states, schedule, Guard, |schedule|);
    ProgramsNeverChange(states, schedule);
    StuckMeansJam(s', Free(p), Free(q));
    j, k := s'.txns[0].pc, s'.txns[1].pc;
  }

  /**
   * Two paths, starting together, can deadlock exactly if one ends the access of the account that
   * the other acts as and both lock a row in between, or each ends the other's.
   */
  lemma PairDeadlocksIff<V(!new)>(p: Job<V>, q: Job<V>, store: map<Item, V>)
    requires SortedIds(p.path) && SortedIds(q.path) && Known(Program(p), store) && Known(Program(q), store)
    requires Housed(p.path, q.path) && Housed(q.path, p.path)
    ensures MayDeadlock(Pair(p, q, store)) <==> Clash(p, q) || Clash(q, p) || EndEachOther(p, q)
  {
    hide Program, Clash, Jam, Housed, MayDeadlock, Known;
    if MayDeadlock(Pair(p, q, store)) {
      var j, k := DeadlockMeansJam(p, q, store);
      JamMeansClash(p, q, j, k);
    }
    if Clash(p, q) {
      var j, k := ClashMeansJam(p, q);
      JamDeadlocks(p, q, store, j, k);
    }
    if Clash(q, p) {
      var k, j := ClashMeansJam(q, p);
      JamIsMutual(Program(q), Program(p), k, j);
      JamDeadlocks(p, q, store, j, k);
    }
    if EndEachOther(p, q) {
      var j, k := EndEachOtherMeansJam(p, q);
      JamDeadlocks(p, q, store, j, k);
    }
  }

  /** Two paths that end nobody's access never deadlock, whoever acts. */
  lemma OthersNeverDeadlock<V(!new)>(p: Job<V>, q: Job<V>, store: map<Item, V>, home: nat -> Option<nat>)
    requires SortedIds(p.path) && SortedIds(q.path) && Known(Program(p), store) && Known(Program(q), store)
    requires AtHome(p.path, home) && AtHome(q.path, home) && forall x :: !Ends(p, x) && !Ends(q, x)
    ensures !MayDeadlock(Pair(p, q, store))
  {
    AtHomeIsHoused(p.path, q.path, home);
    AtHomeIsHoused(q.path, p.path, home);
    PairDeadlocksIff(p, q, store);
  }

  predicate IsQuiet<V>(path: Path<V>) {
    path.ConfigWrite? || path.Approval? || path.DirectCreation? || path.Retirement? || path.StructureChange?
  }

  /** Nor do configuration writes, approvals, creations, retirements and structure changes, with any path. */
  lemma QuietPathsNeverDeadlock<V(!new)>(p: Job<V>, q: Job<V>, store: map<Item, V>, home: nat -> Option<nat>)
    requires SortedIds(p.path) && SortedIds(q.path) && Known(Program(p), store) && Known(Program(q), store)
    requires AtHome(p.path, home) && AtHome(q.path, home) && IsQuiet(p.path)
    ensures !MayDeadlock(Pair(p, q, store)) && !MayDeadlock(Pair(q, p, store))
  {
    AtHomeIsHoused(p.path, q.path, home);
    AtHomeIsHoused(q.path, p.path, home);
    PairDeadlocksIff(p, q, store);
    PairDeadlocksIff(q, p, store);
    hide Program, MayDeadlock, Housed, Known, AtHome;
  }

  lemma CreationClashes<V>(c: Job<V>, t: Job<V>)
    requires c.path.PeriodCreation? && t.path.Boundary?
    ensures Clash(c, t) <==> Ends(t, c.actor) && c.path.branch in t.path.branches
    ensures !Clash(t, c) && !EndEachOther(c, t) && Housed(c.path, t.path) && Housed(t.path, c.path)
  {
    if c.path.branch in t.path.branches {
      assert c.path.branch in IdsAt(c.path, WORKFLOW) && c.path.branch in IdsAt(t.path, WORKFLOW);
    }
  }

  /** For a period creation and an ending: the creator's access, and the Branch of the period. */
  lemma CreationAndEndingDeadlockIff<V(!new)>(c: Job<V>, t: Job<V>, store: map<Item, V>)
    requires c.path.PeriodCreation? && t.path.Boundary?
    requires SortedIds(c.path) && SortedIds(t.path) && Known(Program(c), store) && Known(Program(t), store)
    ensures MayDeadlock(Pair(c, t, store)) <==> Ends(t, c.actor) && c.path.branch in t.path.branches
  {
    hide *;
    CreationClashes(c, t);
    PairDeadlocksIff(c, t, store);
  }

  // ----- the smallest cases -----

  function Ending(employee: nat, account: nat, branches: seq<nat>, periods: seq<nat>, actor: nat): Job<int> {
    Job(Boundary(employee, Some(account), [], [], branches, periods), actor)
  }

  /** Account 7 creates a period of Branch 1 while its Employee there is terminated. */
  lemma CreatorLosesAccess(c: Job<int>)
    requires c == Job(PeriodCreation(None, 1, [], []), 7)
    ensures MayDeadlock(Pair(c, Ending(3, 7, [1], [], 9), map[]))
  {
    var t := Ending(3, 7, [1], [], 9);
    assert 1 in IdsAt(c.path, WORKFLOW) && 1 in IdsAt(t.path, WORKFLOW);
    var j, k := ClashMeansJam(c, t);
    JamDeadlocks(c, t, map[], j, k);
  }

  /** Account 7 writes into period 5, which the termination of its Employee locks. */
  lemma SourceWriterLosesAccess(c: Job<int>)
    requires c == Job(SourceWrite(1, 5, []), 7)
    ensures MayDeadlock(Pair(c, Ending(3, 7, [], [5], 9), map[]))
  {
    var t := Ending(3, 7, [], [5], 9);
    assert 5 in IdsAt(c.path, PERIOD) && 5 in IdsAt(t.path, PERIOD);
    var j, k := ClashMeansJam(c, t);
    JamDeadlocks(c, t, map[], j, k);
  }

  /** Accounts 7 and 9 terminate each other's Employees, with no other row in common. */
  lemma TheyEndEachOther()
    ensures MayDeadlock(Pair(Ending(3, 7, [], [], 9), Ending(4, 9, [], [], 7), map[]))
  {
    var p, q := Ending(3, 7, [], [], 9), Ending(4, 9, [], [], 7);
    var j, k := EndEachOtherMeansJam(p, q);
    JamDeadlocks(p, q, map[], j, k);
  }
}
