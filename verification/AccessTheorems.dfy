/**
 * Consequences of the account invariant over whole runs: who can sign in, who owns the company,
 * how long a termination lasts, and that access never amplifies itself.
 */
module AccessTheorems {
  import opened Base
  import opened AccessModel
  import opened AccessSteps
  import opened AccessInvariant

  // ----- signing in -----

  datatype LoginOutcome = AccountStaged | LoginNotPermitted | AccountInactive | NoActiveRole | Proceeds

  /** The account checks of a sign-in whose user name and password are right. */
  function Login(row: User, hasRole: bool): LoginOutcome {
    if row.isStaged then AccountStaged
    else if !row.canLogin then LoginNotPermitted
    else if !row.isActive then AccountInactive
    else if !hasRole then NoActiveRole
    else Proceeds
  }

  /** The refusal for a missing role is never given: the flags alone decide. */
  lemma LoginNeedsNoRoleCheck(s: Access, events: seq<Event>, u: int)
    requires Inv(s) && u in Replay(s, events).users
    ensures var s' := Replay(s, events);
            var outcome := Login(s'.users[u], HasRole(s', u));
            outcome != NoActiveRole && (outcome == Proceeds <==> s'.users[u].canLogin && s'.users[u].isActive)
  {
    RunKeeps(s, events);
  }

  // ----- what a permission takes -----

  /**
   * The database's permission function, read off the one active role an account can have: the
   * account may sign in, its role is not DRIVER, the role is company-wide or of the Branch asked
   * about, and the code is in the role or among the account's extra permissions, or, for the
   * owner, in the catalogue.
   */
  lemma PermissionOfTheOneRole(s: Access, u: int, id: int, branch: Option<int>, c: Code)
    requires Inv(s) && id in s.rows && s.rows[id].isActive && s.rows[id].user == u
    ensures u in s.users && s.rows[id].grant.role in s.roles
    ensures var g := s.rows[id].grant;
            var role := s.roles[g.role];
            HasPermission(s, u, branch, c) <==>
            && s.users[u].isActive && s.users[u].canLogin && role.kind != DriverRole
            && (g.scope == AllCompanyBranches || (g.scope == SpecificBranch && branch.Some? && g.branch == branch))
            && (if role.kind == OwnerRole then c in s.catalogue else c in role.codes || c in s.users[u].overrides)
  {
    var g := s.rows[id].grant;
    assert Holds(s, id, u) && HasRole(s, u);
    assert ScopeAccepts(s, s.rows[id]);
    assert OwnerRow(s, id, u) <==> KindOf(s, g.role) == OwnerRole;
    assert DriverRow(s, id, u) <==> KindOf(s, g.role) == DriverRole;
    assert IsOwner(s, u) <==> OwnerRow(s, id, u);
    assert IsDriverSubject(s, u) <==> DriverRow(s, id, u);
    assert GrantsCode(s, id, u, branch, c) <==> c in CodesOf(s, g.role) && InScope(g, branch);
    assert ReachesBranch(s, id, u, branch) <==> InScope(g, branch);
    assert forall other :: GrantsCode(s, other, u, branch, c) ==> other == id;
    assert forall other :: ReachesBranch(s, other, u, branch) ==> other == id;
  }

  /** Whatever the tables: an account that is inactive, staged or without login, or that has an active DRIVER or Self row, is denied. */
  lemma DeniedOutright(s: Access, u: int, id: int, branch: Option<int>, c: Code)
    requires
      || u !in s.users || !s.users[u].isActive || !s.users[u].canLogin || s.users[u].isStaged
      || (&& id in s.rows && s.rows[id].isActive && s.rows[id].user == u
          && (|| s.rows[id].grant.scope == SelfOnly
              || (s.rows[id].grant.role in s.roles && s.roles[s.rows[id].grant.role].kind == DriverRole)))
    ensures !HasPermission(s, u, branch, c)
  {
    assert id in s.rows && s.rows[id].isActive && s.rows[id].user == u ==> Holds(s, id, u);
    assert DriverRow(s, id, u) ==> IsDriverSubject(s, u);
  }

  /** A role in one Branch permits nothing in another Branch, nor company-wide. */
  lemma BranchRoleStaysInItsBranch(s: Access, u: int, id: int, branch: Option<int>, c: Code)
    requires Inv(s) && id in s.rows && s.rows[id].isActive && s.rows[id].user == u
    requires s.rows[id].grant.scope == SpecificBranch && HasPermission(s, u, branch, c)
    ensures branch.Some? && branch == s.rows[id].grant.branch
  {
    PermissionOfTheOneRole(s, u, id, branch, c);
  }

  /** Without an active role there is no permission at all, extra permissions or not. */
  lemma NoRoleNoPermission(s: Access, u: int, branch: Option<int>, c: Code)
    requires Inv(s) && !HasRole(s, u)
    ensures !HasPermission(s, u, branch, c)
  {
  }

  // ----- ownership -----

  /** A transfer that would go through with a replacement role goes without one iff login is off. */
  lemma ReplacementIsNeededToKeepLogin(s: Access, caller: int, u: int, role: int)
    requires Inv(s) && TransferRefusal(s, caller, u, Some(role)).None?
    ensures TransferRefusal(s, caller, u, None)
         == if s.users[caller].canLogin then Some(ReplacementRequired) else None
  {
    var id :| id in s.rows && TransferableRow(s, id, caller);
    assert IsFinal(s, id, caller);
  }

  ghost predicate HasOwner(s: Access) {
    exists id :: ActiveOwnerRow(s, id)
  }

  lemma OwnerHoldsOwnerRow(s: Access, id: int)
    requires Inv(s) && ActiveOwnerRow(s, id)
    ensures OwnerRow(s, id, s.rows[id].user) && IsOwner(s, s.rows[id].user)
    ensures s.rows[id].user in s.users && !EmployeeTerminated(s, s.users[s.rows[id].user].employee)
    ensures forall u :: IsOwner(s, u) ==> u == s.rows[id].user
  {
    assert OwnerRow(s, id, s.rows[id].user);
    forall u | IsOwner(s, u) ensures u == s.rows[id].user {
      var other :| other in s.rows && OwnerRow(s, other, u);
      assert ActiveOwnerRow(s, other);
    }
  }

  ghost predicate OwnerIsReassigned(s: Access, caller: int, r: Request, around: Surroundings) {
    Refuses(s, caller, r, around).None? && r.AssignRole? && IsOwner(s, r.target)
  }

  /** Terminating an Employee leaves the owner's row alone, for it refuses to touch the owner. */
  lemma TerminationSparesOwner(s: Access, caller: int, e: int, id: int)
    requires Inv(s) && ActiveOwnerRow(s, id) && TerminationRefusal(s, caller, e).None? && e in s.employees
    ensures ActiveOwnerRow(AccessEnded(WithStatus(s, e, Terminated), e), id)
  {
    OwnerHoldsOwnerRow(s, id);
    assert !Linked(s, s.rows[id].user, e);
  }

  lemma OwnerRowStays(s: Access, caller: int, r: Request, around: Surroundings, id: int)
    requires Inv(s) && ActiveOwnerRow(s, id)
    requires !r.TransferOwnership? && !OwnerIsReassigned(s, caller, r, around)
    ensures ActiveOwnerRow(Next(s, caller, r, around), id)
  {
    OwnerHoldsOwnerRow(s, id);
    hide AccountInv, OneRole, AtMostOneOwner, WellScoped, NoArchivedHolders, DriversAreLinked;
    hide MayAny, CanGrant, GrantRefusal, LinkTargetRefusal, HasRole, WithParents, IsOwner, HasFinalRole;
    if Refuses(s, caller, r, around).None? {
      if r.SetStatus? && r.status == Terminated && s.employees[r.worker].status != Terminated {
        TerminationSparesOwner(s, caller, r.worker, id);
      } else if r.TerminateDriver? {
        TerminationSparesOwner(s, caller, r.worker, id);
      }
    }
  }

  /**
   * A company with an owner keeps one through every request except an ordinary role assignment
   * to the owner, which the assignment service does not refuse.
   */
  lemma OwnerIsKeptUnlessReassigned(s: Access, caller: int, r: Request, around: Surroundings)
    requires Inv(s) && HasOwner(s)
    ensures HasOwner(Next(s, caller, r, around)) <==> !OwnerIsReassigned(s, caller, r, around)
  {
    var s' := Next(s, caller, r, around);
    var id :| ActiveOwnerRow(s, id);
    if OwnerIsReassigned(s, caller, r, around) {
      OwnerHoldsOwnerRow(s, id);
      assert forall other :: ActiveOwnerRow(s', other) ==> ActiveOwnerRow(s, other);
    } else if r.TransferOwnership? && Refuses(s, caller, r, around).None? {
      TransferGivesOwnership(s, caller, r.target, r.replacement);
    } else if r.TransferOwnership? {
      assert s' == s;
    } else {
      OwnerRowStays(s, caller, r, around, id);
    }
  }

  /** After a transfer the target is the owner and the caller is not. */
  lemma TransferGivesOwnership(s: Access, caller: int, u: int, replacement: Option<int>)
    requires Inv(s) && TransferRefusal(s, caller, u, replacement).None?
    ensures var s' := OwnershipTransferred(s, caller, u, replacement);
            HasOwner(s') && IsOwner(s', u) && !IsOwner(s', caller) && s'.users[u] == s.users[u]
  {
    var s' := OwnershipTransferred(s, caller, u, replacement);
    var last := s'.nextRow - 1;
    assert OwnerRow(s', last, u) && ActiveOwnerRow(s', last);
    TransferKeeps(s, caller, u, replacement);
    OwnerHoldsOwnerRow(s', last);
  }

  lemma OwnerRowsComeFromTransfers(s: Access, caller: int, r: Request, around: Surroundings, id: int)
    requires Inv(s) && ActiveOwnerRow(Next(s, caller, r, around), id)
    ensures ActiveOwnerRow(s, id) || (r.TransferOwnership? && Refuses(s, caller, r, around).None?)
  {
    hide MayAny, CanGrant, LinkTargetRefusal, HasRole, WithParents, IsOwner, HasFinalRole, AccountInv;
  }

  /** A company that has lost its owner never gets one back from these services. */
  lemma NoOwnerStaysNoOwner(s: Access, caller: int, r: Request, around: Surroundings)
    requires Inv(s) && !HasOwner(s)
    ensures !HasOwner(Next(s, caller, r, around))
  {
    var s' := Next(s, caller, r, around);
    if r.TransferOwnership? && Refuses(s, caller, r, around).None? {
      var id :| id in s.rows && TransferableRow(s, id, caller);
      assert ActiveOwnerRow(s, id);
    } else {
      forall id | ActiveOwnerRow(s', id) ensures ActiveOwnerRow(s, id) {
        OwnerRowsComeFromTransfers(s, caller, r, around, id);
      }
    }
  }

  ghost predicate OwnerlessAfter(s: Access, events: seq<Event>) {
    !HasOwner(Replay(s, events))
  }

  /** Nor does any run of requests. */
  lemma {:induction false} OwnerlessForGood(s: Access, events: seq<Event>)
    requires Inv(s) && !HasOwner(s)
    ensures OwnerlessAfter(s, events)
  {
    if events != [] {
      var n := |events| - 1;
      OwnerlessForGood(s, events[..n]);
      RunKeeps(s, events[..n]);
      NoOwnerStaysNoOwner(Replay(s, events[..n]), events[n].caller, events[n].request, events[n].around);
    }
  }

  // ----- termination -----

  ghost predicate TerminatedNow(s: Access, e: int) {
    EmployeeTerminated(s, Some(e))
  }

  /** The request moves a terminated Employee who is no Driver to another employment status. */
  predicate Reinstates(s: Access, r: Request, around: Surroundings, e: int) {
    && r.SetStatus? && r.worker == e && r.status != Terminated && around.workforceAllows
    && e in s.employees && !s.employees[e].isDriver
  }

  /** Nothing but a reinstatement ends a termination, and the account stays linked in any case. */
  lemma TerminationEndsByReinstatement(s: Access, caller: int, r: Request, around: Surroundings, u: int, e: int)
    requires Inv(s) && TerminatedNow(s, e) && Linked(s, u, e)
    ensures TerminatedNow(Next(s, caller, r, around), e) <==> !Reinstates(s, r, around, e)
    ensures Linked(Next(s, caller, r, around), u, e)
  {
    hide MayAny, CanGrant, GrantRefusal, LinkTargetRefusal, HasRole, WithParents, IsOwner, HasFinalRole;
  }

  /** Nobody stops being a Driver. */
  lemma DriversStayDrivers(s: Access, caller: int, r: Request, around: Surroundings, e: int)
    requires Inv(s) && e in s.employees && s.employees[e].isDriver
    ensures e in Next(s, caller, r, around).employees && Next(s, caller, r, around).employees[e].isDriver
    ensures TerminatedNow(s, e) ==> TerminatedNow(Next(s, caller, r, around), e)
  {
    hide MayAny, CanGrant, GrantRefusal, LinkTargetRefusal, HasRole, WithParents, IsOwner, HasFinalRole;
    hide AccountInv, OneRole, AtMostOneOwner, WellScoped, NoArchivedHolders, DriversAreLinked;
  }

  lemma {:induction false} DriverStaysTerminated(s: Access, events: seq<Event>, e: int)
    requires Inv(s) && TerminatedNow(s, e) && s.employees[e].isDriver
    ensures TerminatedNow(Replay(s, events), e) && Replay(s, events).employees[e].isDriver
  {
    if events != [] {
      var n := |events| - 1;
      DriverStaysTerminated(s, events[..n], e);
      RunKeeps(s, events[..n]);
      DriversStayDrivers(Replay(s, events[..n]), events[n].caller, events[n].request, events[n].around, e);
    }
  }

  ghost predicate TerminatedAfter(s: Access, events: seq<Event>, e: int) {
    TerminatedNow(Replay(s, events), e)
  }

  /** A terminated Employee stays terminated whatever follows exactly if they are a Driver. */
  lemma TerminationIsFinalForDrivers(s: Access, e: int)
    requires Inv(s) && TerminatedNow(s, e)
    ensures (forall events :: TerminatedAfter(s, events, e)) <==> s.employees[e].isDriver
  {
    if s.employees[e].isDriver {
      forall events ensures TerminatedAfter(s, events, e) {
        DriverStaysTerminated(s, events, e);
      }
    } else {
      var reinstate := [Event(0, SetStatus(e, Active), Surroundings({}, true))];
      assert Replay(s, reinstate[..0]) == s;
      assert !TerminatedAfter(s, reinstate, e);
    }
  }

  /** The Employee is terminated all along the run. */
  ghost predicate TerminatedThroughout(s: Access, events: seq<Event>, e: int) {
    forall k :: 0 <= k <= |events| ==> TerminatedAfter(s, events[..k], e)
  }

  /** While the Employee is terminated, whatever happens, the account stays linked and sealed. */
  lemma {:induction false} SealLastsWhileTerminated(s: Access, events: seq<Event>, u: int, e: int)
    requires Inv(s) && Linked(s, u, e) && TerminatedThroughout(s, events, e)
    ensures Linked(Replay(s, events), u, e) && IsSealed(Replay(s, events), u)
  {
    RunKeeps(s, events);
    assert events[..|events|] == events;
    if events != [] {
      var n := |events| - 1;
      assert forall k :: 0 <= k <= n ==> events[..n][..k] == events[..k];
      SealLastsWhileTerminated(s, events[..n], u, e);
      RunKeeps(s, events[..n]);
      TerminationEndsByReinstatement(
        Replay(s, events[..n]), events[n].caller, events[n].request, events[n].around, u, e);
    }
  }

  /**
   * For a Driver termination is a seal for ever: whatever steps follow, the account stays linked,
   * staged, without login, without roles and without extra permissions.
   */
  lemma SealLasts(s: Access, events: seq<Event>, u: int, e: int)
    requires Inv(s) && TerminatedNow(s, e) && Linked(s, u, e) && s.employees[e].isDriver
    ensures var s' := Replay(s, events);
            TerminatedNow(s', e) && Linked(s', u, e) && IsSealed(s', u)
  {
    forall k | 0 <= k <= |events| ensures TerminatedAfter(s, events[..k], e) {
      DriverStaysTerminated(s, events[..k], e);
    }
    DriverStaysTerminated(s, events, e);
    SealLastsWhileTerminated(s, events, u, e);
  }

  // ----- no amplification -----

  ghost predicate HeldThrough(s: Access, id: int, u: int, c: Code) {
    Holds(s, id, u) && KindOf(s, s.rows[id].grant.role) != OwnerRole && c in CodesOf(s, s.rows[id].grant.role)
  }

  /** u has the code from a role other than the owner's, or as an extra permission. */
  ghost predicate HeldBy(s: Access, u: int, c: Code) {
    (exists id :: HeldThrough(s, id, u, c)) || (u in s.users && c in s.users[u].overrides)
  }

  /** Somebody has the code in that way. */
  ghost predicate InReach(s: Access, c: Code) {
    exists u :: HeldBy(s, u, c)
  }

  /** Any permission of anyone but the owner, in any Branch, is a code in reach. */
  lemma PermissionsAreInReach(s: Access, u: int, branch: Option<int>, c: Code)
    requires Inv(s) && HasPermission(s, u, branch, c) && !IsOwner(s, u)
    ensures HeldBy(s, u, c)
  {
    if c !in s.users[u].overrides {
      var id :| id in s.rows && GrantsCode(s, id, u, branch, c);
      assert !OwnerRow(s, id, u);
      assert HeldThrough(s, id, u, c);
    }
  }

  lemma GrantedIsInReach(s: Access, caller: int, codes: set<Code>, c: Code)
    requires Inv(s) && !IsOwner(s, caller) && CanGrant(s, caller, codes) && c in codes
    ensures InReach(s, c)
  {
    PermissionsAreInReach(s, caller, None, c);
  }

  /** Rows that were already active give nothing new while the roles stay the same. */
  lemma OldRowIsInReach(s: Access, id: int, u: int, c: Code)
    requires HeldThrough(s, id, u, c)
    ensures InReach(s, c)
  {
    assert HeldBy(s, u, c);
  }

  /** Only the owner transfers ownership. */
  lemma TransferIsByOwner(s: Access, caller: int, u: int, replacement: Option<int>)
    requires Inv(s) && TransferRefusal(s, caller, u, replacement).None?
    ensures IsOwner(s, caller)
  {
    var id :| id in s.rows && TransferableRow(s, id, caller);
    assert OwnerRow(s, id, caller);
  }

  ghost function GrantOf(r: Request): Option<Grant> {
    match r
    case CreateUser(_, _, _, _, first) => first
    case Provision(_, g, _) => Some(g)
    case AssignRole(_, g) => Some(g)
    case _ => None
  }

  /** A row that a request by anyone but the owner adds carries a checked grant. */
  lemma NewRowWasGranted(s: Access, caller: int, r: Request, around: Surroundings, id: int, u: int)
    requires Inv(s) && !IsOwner(s, caller) && Holds(Next(s, caller, r, around), id, u) && !Holds(s, id, u)
    ensures GrantOf(r).Some? && Next(s, caller, r, around).rows[id].grant == GrantOf(r).value
    ensures CanGrant(s, caller, CodesOf(s, GrantOf(r).value.role)) && Next(s, caller, r, around).roles == s.roles
  {
    hide MayAny, CanGrant, GrantRefusal, LinkTargetRefusal, HasRole, WithParents, IsOwner, HasFinalRole, AccountInv;
    if r.TransferOwnership? && Refuses(s, caller, r, around).None? {
      TransferIsByOwner(s, caller, r.target, r.replacement);
    }
  }

  /** A code that a request adds to a role was within the caller's ceiling. */
  lemma NewRoleCodeWasGranted(s: Access, caller: int, r: Request, around: Surroundings, role: int, c: Code)
    requires c in CodesOf(Next(s, caller, r, around), role) && c !in CodesOf(s, role)
    ensures r.SetRolePermissions? && role in s.roles
    ensures c in WithParents(r.codes) - s.roles[role].codes
    ensures CanGrant(s, caller, WithParents(r.codes) - s.roles[role].codes)
  {
    hide MayAny, CanGrant, GrantRefusal, LinkTargetRefusal, HasRole, IsOwner, WithParents, IsFinal;
  }

  /** And so was a code that it adds to somebody's extra permissions. */
  lemma NewOverrideWasGranted(s: Access, caller: int, r: Request, around: Surroundings, u: int, c: Code)
    requires u in Next(s, caller, r, around).users && c in Next(s, caller, r, around).users[u].overrides
    requires !(u in s.users && c in s.users[u].overrides)
    ensures r.SetOverrides? && u in s.users
    ensures c in WithParents(r.codes) - s.users[u].overrides
    ensures CanGrant(s, caller, WithParents(r.codes) - s.users[u].overrides)
  {
    hide MayAny, CanGrant, GrantRefusal, LinkTargetRefusal, HasRole, IsOwner, WithParents, IsFinal;
  }

  lemma RowCodesAreInReach(s: Access, caller: int, r: Request, around: Surroundings, id: int, u: int, c: Code)
    requires Inv(s) && !IsOwner(s, caller) && HeldThrough(Next(s, caller, r, around), id, u, c)
    ensures InReach(s, c)
  {
    hide Next, Inv, IsOwner, CanGrant;
    if !Holds(s, id, u) {
      NewRowWasGranted(s, caller, r, around, id, u);
      GrantedIsInReach(s, caller, CodesOf(s, GrantOf(r).value.role), c);
    } else {
      RowsKeepTheirGrant(s, caller, r, around, id);
      var role := s.rows[id].grant.role;
      if c in CodesOf(s, role) {
        OldRowIsInReach(s, id, u, c);
      } else {
        NewRoleCodeWasGranted(s, caller, r, around, role, c);
        GrantedIsInReach(s, caller, WithParents(r.codes) - s.roles[role].codes, c);
      }
    }
  }

  lemma RowsKeepTheirGrant(s: Access, caller: int, r: Request, around: Surroundings, id: int)
    requires Inv(s) && id in s.rows
    ensures id in Next(s, caller, r, around).rows && Next(s, caller, r, around).rows[id].grant == s.rows[id].grant
    ensures KindOf(Next(s, caller, r, around), s.rows[id].grant.role) == KindOf(s, s.rows[id].grant.role)
  {
    hide AccountInv, OneRole, AtMostOneOwner, WellScoped, NoArchivedHolders, DriversAreLinked;
    hide MayAny, CanGrant, GrantRefusal, LinkTargetRefusal, HasRole, IsOwner, WithParents, IsFinal;
  }

  lemma OverridesAreInReach(s: Access, caller: int, r: Request, around: Surroundings, u: int, c: Code)
    requires Inv(s) && !IsOwner(s, caller)
    requires u in Next(s, caller, r, around).users && c in Next(s, caller, r, around).users[u].overrides
    ensures InReach(s, c)
  {
    hide Next, Inv, IsOwner, CanGrant;
    if u in s.users && c in s.users[u].overrides {
      assert HeldBy(s, u, c);
    } else {
      NewOverrideWasGranted(s, caller, r, around, u, c);
      GrantedIsInReach(s, caller, WithParents(r.codes) - s.users[u].overrides, c);
    }
  }

  lemma StepAddsNothing(s: Access, caller: int, r: Request, around: Surroundings, c: Code)
    requires Inv(s) && !IsOwner(s, caller) && InReach(Next(s, caller, r, around), c)
    ensures InReach(s, c)
  {
    var s' := Next(s, caller, r, around);
    var u :| HeldBy(s', u, c);
    if u in s'.users && c in s'.users[u].overrides {
      OverridesAreInReach(s, caller, r, around, u, c);
    } else {
      var id :| HeldThrough(s', id, u, c);
      RowCodesAreInReach(s, caller, r, around, id, u, c);
    }
  }

  /** No request of the run is made by the Company Owner of that moment. */
  ghost predicate WithoutTheOwner(s: Access, events: seq<Event>) {
    forall k :: 0 <= k < |events| ==> !IsOwner(Replay(s, events[..k]), events[k].caller)
  }

  lemma WithoutTheOwnerBefore(s: Access, events: seq<Event>)
    requires events != [] && WithoutTheOwner(s, events)
    ensures WithoutTheOwner(s, events[..|events| - 1])
    ensures !IsOwner(Replay(s, events[..|events| - 1]), events[|events| - 1].caller)
  {
    var n := |events| - 1;
    forall k | 0 <= k < n ensures events[..n][..k] == events[..k] {
    }
  }

  /**
   * Access never amplifies: while the owner does nothing, no sequence of requests, however the
   * callers cooperate, brings any code into reach that was not there at the start.
   */
  lemma {:induction false} NoAmplification(s: Access, events: seq<Event>, c: Code)
    requires Inv(s) && WithoutTheOwner(s, events) && InReach(Replay(s, events), c)
    ensures InReach(s, c)
  {
    if events != [] {
      var n := |events| - 1;
      var e := events[n];
      WithoutTheOwnerBefore(s, events);
      RunKeeps(s, events[..n]);
      StepAddsNothing(Replay(s, events[..n]), e.caller, e.request, e.around, c);
      NoAmplification(s, events[..n], c);
    }
  }

  /** In particular nobody but the owner ends up with a permission that nobody had. */
  lemma NoNewPermissions(s: Access, events: seq<Event>, u: int, branch: Option<int>, c: Code)
    requires Inv(s) && WithoutTheOwner(s, events)
    requires HasPermission(Replay(s, events), u, branch, c) && !IsOwner(Replay(s, events), u)
    ensures InReach(s, c)
  {
    RunKeeps(s, events);
    PermissionsAreInReach(Replay(s, events), u, branch, c);
    NoAmplification(s, events, c);
  }

  /** And no request lets its own caller, other than the owner, hold a code they did not hold. */
  lemma NobodyRaisesThemselves(s: Access, caller: int, r: Request, around: Surroundings, c: Code)
    requires Inv(s) && !IsOwner(s, caller) && caller in s.users && HeldBy(Next(s, caller, r, around), caller, c)
    ensures HeldBy(s, caller, c)
  {
    var s' := Next(s, caller, r, around);
    OwnOverridesStay(s, caller, r, around);
    if c !in s.users[caller].overrides {
      var id :| HeldThrough(s', id, caller, c);
      OwnRowsStay(s, caller, r, around, id);
      assert HoldsRole(s, caller, s.rows[id].grant.role);
      HeldRoleKeepsCodes(s, caller, r, around, s.rows[id].grant.role);
      hide Next, Inv, IsOwner;
      assert HeldThrough(s, id, caller, c);
    }
  }

  lemma OwnOverridesStay(s: Access, caller: int, r: Request, around: Surroundings)
    requires Inv(s) && caller in s.users
    ensures caller in Next(s, caller, r, around).users
    ensures Next(s, caller, r, around).users[caller].overrides <= s.users[caller].overrides
  {
    hide MayAny, CanGrant, GrantRefusal, LinkTargetRefusal, HasRole, WithParents, IsOwner, HasFinalRole, AccountInv;
  }

  lemma HeldRoleKeepsCodes(s: Access, caller: int, r: Request, around: Surroundings, role: int)
    requires Inv(s) && !IsOwner(s, caller) && HoldsRole(s, caller, role)
    ensures CodesOf(Next(s, caller, r, around), role) == CodesOf(s, role)
    ensures KindOf(Next(s, caller, r, around), role) == KindOf(s, role)
  {
    hide MayAny, CanGrant, GrantRefusal, LinkTargetRefusal, HasRole, WithParents, IsOwner, HasFinalRole, AccountInv;
  }

  lemma OwnRowsStay(s: Access, caller: int, r: Request, around: Surroundings, id: int)
    requires Inv(s) && !IsOwner(s, caller) && caller in s.users
    requires Holds(Next(s, caller, r, around), id, caller)
    ensures Holds(s, id, caller)
    ensures Next(s, caller, r, around).rows[id].grant == s.rows[id].grant
  {
    if r.TransferOwnership? && Refuses(s, caller, r, around).None? {
      TransferIsByOwner(s, caller, r.target, r.replacement);
    }
  }
}
