/**
 * The safety rules of the account services, read off the requests' effects: who acts at all, what
 * callers can do to themselves, and what every granted role and permission set is like.
 */
module AccessRules {
  import opened Base
  import opened AccessModel
  import opened AccessSteps
  import opened AccessInvariant
  import opened AccessTheorems

  // ----- what holds in every state -----

  /**
   * After every run: at most one active role for each account and at most one active owner, an
   * account without role exactly while it is staged, and then without login; every active role
   * is there, not archived, and in the scope that fits it.
   */
  lemma RolesAfterEveryRun(s: Access, events: seq<Event>)
    requires Inv(s)
    ensures var now := Replay(s, events);
            forall i, j :: (&& i in now.rows && j in now.rows && now.rows[i].isActive && now.rows[j].isActive
                            && (now.rows[i].user == now.rows[j].user
                                || now.rows[i].grant.role == now.rows[j].grant.role == now.ownerRole)) ==> i == j
    ensures var now := Replay(s, events);
            forall i :: i in now.rows && now.rows[i].isActive ==>
              && now.rows[i].user in now.users && !now.users[now.rows[i].user].isStaged
              && now.rows[i].grant.role in now.roles && !now.roles[now.rows[i].grant.role].isArchived
              && (now.roles[now.rows[i].grant.role].kind == OwnerRole <==> now.rows[i].grant.role == now.ownerRole)
    ensures var now := Replay(s, events);
            forall u :: u in now.users && now.users[u].isStaged ==>
              !now.users[u].canLogin && forall i :: i in now.rows && now.rows[i].user == u ==> !now.rows[i].isActive
    ensures var now := Replay(s, events);
            forall u :: u in now.users && !now.users[u].isStaged ==>
              exists i :: i in now.rows && now.rows[i].user == u && now.rows[i].isActive
  {
    RunKeeps(s, events);
    var now := Replay(s, events);
    hide Replay, WellScoped, DriversAreLinked, LinksAreUnique, TerminatedAreSealed;
    assert forall i :: i in now.rows && now.rows[i].isActive ==> Holds(now, i, now.rows[i].user);
    forall i, j | ActiveOwnerRow(now, i) && ActiveOwnerRow(now, j) ensures i == j {
    }
    assert forall i :: i in now.rows && now.rows[i].isActive && now.rows[i].grant.role == now.ownerRole ==> ActiveOwnerRow(now, i);
    assert forall i :: i in now.rows && now.rows[i].isActive ==> HasRole(now, now.rows[i].user);
    assert forall i, u :: Holds(now, i, u) ==> !IsArchived(now, now.rows[i].grant.role);
  }

  lemma ScopesAfterEveryRun(s: Access, events: seq<Event>)
    requires Inv(s)
    ensures var now := Replay(s, events);
            forall i :: i in now.rows ==>
              var g := now.rows[i].grant;
              && g.role in now.roles
              && (now.roles[g.role].kind == DriverRole <==> g.scope == SelfOnly)
              && (g.branch.Some? <==> g.scope == SpecificBranch)
              && (now.rows[i].isActive && g.role == now.ownerRole ==> g.scope == AllCompanyBranches)
  {
    RunKeeps(s, events);
    hide Replay, OneRole, AtMostOneOwner, NoArchivedHolders, DriversAreLinked, AccountInv;
    assert forall i :: i in Replay(s, events).rows ==> ScopeAccepts(Replay(s, events), Replay(s, events).rows[i]);
  }

  /**
   * And every link is to an Employee of the company who has one account, which is without role,
   * extra permission and login when they are terminated; whoever holds DRIVER is linked.
   */
  lemma LinksAfterEveryRun(s: Access, events: seq<Event>)
    requires Inv(s)
    ensures var now := Replay(s, events);
            forall u, v :: u in now.users && v in now.users && now.users[u].employee.Some? ==>
              && now.users[u].employee.value in now.employees
              && (now.users[u].employee == now.users[v].employee ==> u == v)
    ensures var now := Replay(s, events);
            forall u :: u in now.users && now.users[u].employee.Some?
                        && now.employees[now.users[u].employee.value].status == Terminated ==>
              && now.users[u].isStaged && !now.users[u].canLogin && now.users[u].overrides == {}
              && forall i :: i in now.rows && now.rows[i].user == u ==> !now.rows[i].isActive
    ensures var now := Replay(s, events);
            forall i :: (&& i in now.rows && now.rows[i].isActive && now.rows[i].grant.role in now.roles
                         && now.roles[now.rows[i].grant.role].kind == DriverRole) ==>
              now.rows[i].user in now.users && now.users[now.rows[i].user].employee.Some?
  {
    RunKeeps(s, events);
    var now := Replay(s, events);
    hide Replay, OneRole, AtMostOneOwner, WellScoped, NoArchivedHolders, StagedIffNoRole, StagedNeverLogsIn;
    assert forall i :: i in now.rows && now.rows[i].isActive ==> Holds(now, i, now.rows[i].user);
    assert forall i :: i in now.rows && now.rows[i].isActive ==> HasRole(now, now.rows[i].user);
    forall u, v | u in now.users && v in now.users && now.users[u].employee.Some? && now.users[u].employee == now.users[v].employee
      ensures u == v
    {
      assert Linked(now, u, now.users[u].employee.value) && Linked(now, v, now.users[u].employee.value);
    }
  }

  /** A new Employee is no Driver, a new Driver an Employee; neither touches accounts or anybody else. */
  lemma WorkforceAdds(s: Access, caller: int, status: EmploymentStatus, e: int, around: Surroundings)
    requires around.workforceAllows
    ensures var s' := Next(s, caller, Request.CreateEmployee(status), around);
            && s'.employees == s.employees[s.nextEmployee := Employee(status, false)]
            && s' == s.(employees := s'.employees, nextEmployee := s.nextEmployee + 1)
    ensures var s' := Next(s, caller, Request.CreateDriver(e), around);
            && s' == s.(employees := s'.employees)
            && s'.employees == if e in s.employees then s.employees[e := Employee(s.employees[e].status, true)] else s.employees
  {
    if e in s.employees && s.employees[e].isDriver {
      assert s.employees[e := s.employees[e]] == s.employees;
    }
  }

  // ----- who acts, and on whom -----

  predicate IsWorkforce(r: Request) {
    r.CreateEmployee? || r.CreateDriver? || r.SetStatus? || r.TerminateDriver?
  }

  /**
   * Only a signed-in account with a company-wide role changes anything; a DRIVER, a Branch-scoped
   * or a staged account never does. The one exception is an owner without login who hands over.
   */
  lemma OnlyCompanyWideAccountsAct(s: Access, caller: int, r: Request, around: Surroundings)
    requires Inv(s) && !IsWorkforce(r) && Next(s, caller, r, around) != s
    ensures caller in s.users && s.users[caller].isActive && !s.users[caller].isStaged
    ensures !IsDriverSubject(s, caller) && exists id :: AllCompanyRow(s, id, caller)
    ensures s.users[caller].canLogin || (r.TransferOwnership? && IsOwner(s, caller))
  {
    if InCompanyScope(s, caller) {
      var id :| id in s.rows && AllCompanyRow(s, id, caller);
      CompanyWideIsNoDriver(s, id, caller);
    } else {
      ActingNeedsScope(s, caller, r, around);
      TransferIsByOwner(s, caller, r.target, r.replacement);
      var id :| id in s.rows && OwnerRow(s, id, caller);
      assert AllCompanyRow(s, id, caller);
      CompanyWideIsNoDriver(s, id, caller);
    }
  }

  lemma CompanyWideIsNoDriver(s: Access, id: int, u: int)
    requires Inv(s) && AllCompanyRow(s, id, u)
    ensures !IsDriverSubject(s, u) && u in s.users && !s.users[u].isStaged
  {
    forall other ensures !DriverRow(s, other, u) {
      assert Holds(s, id, u);
    }
  }

  lemma ActingNeedsScope(s: Access, caller: int, r: Request, around: Surroundings)
    requires !IsWorkforce(r) && Refuses(s, caller, r, around).None? && !InCompanyScope(s, caller)
    ensures r.TransferOwnership? && caller in s.users && s.users[caller].isActive && !s.users[caller].isStaged
  {
    hide CanGrant, GrantRefusal, LinkTargetRefusal, HasRole, WithParents, IsOwner, HasFinalRole, InCompanyScope;
  }

  // ----- one's own access -----

  /**
   * Whatever a caller requests, short of handing over ownership, their own role and extra
   * permissions stay as they are, and their own sign-in is not taken away.
   */
  lemma NobodyChangesTheirOwnAccess(s: Access, caller: int, r: Request, around: Surroundings)
    requires Inv(s) && caller in s.users && !r.TransferOwnership?
    ensures var s' := Next(s, caller, r, around);
            && caller in s'.users && s'.users[caller].overrides == s.users[caller].overrides
            && (s.users[caller].canLogin ==> s'.users[caller].canLogin)
            && (s.users[caller].isActive ==> s'.users[caller].isActive)
            && s'.users[caller].isStaged == s.users[caller].isStaged
    ensures forall id :: Holds(Next(s, caller, r, around), id, caller) == Holds(s, id, caller)
  {
    if s.users[caller].isStaged {
      StagedCannotAct(s, caller, r, around);
    }
    OwnAccountStays(s, caller, r, around);
    forall id ensures Holds(Next(s, caller, r, around), id, caller) == Holds(s, id, caller) {
      OwnRowStays(s, caller, r, around, id);
    }
  }

  lemma StagedCannotAct(s: Access, caller: int, r: Request, around: Surroundings)
    requires Inv(s) && caller in s.users && s.users[caller].isStaged
    ensures Refuses(s, caller, r, around).None? ==> IsWorkforce(r)
  {
    hide CanGrant, GrantRefusal, LinkTargetRefusal, HasRole, WithParents, IsOwner, HasFinalRole;
    hide Tables, OneRole, AtMostOneOwner, WellScoped, NoArchivedHolders, DriversAreLinked;
  }

  lemma OwnAccountStays(s: Access, caller: int, r: Request, around: Surroundings)
    requires Inv(s) && caller in s.users && !r.TransferOwnership?
    requires s.users[caller].isStaged && Refuses(s, caller, r, around).None? ==> IsWorkforce(r)
    ensures var s' := Next(s, caller, r, around);
            && caller in s'.users && s'.users[caller].overrides == s.users[caller].overrides
            && (s.users[caller].canLogin ==> s'.users[caller].canLogin)
            && (s.users[caller].isActive ==> s'.users[caller].isActive)
            && s'.users[caller].isStaged == s.users[caller].isStaged
  {
    hide MayAny, CanGrant, GrantRefusal, LinkTargetRefusal, HasRole, WithParents, IsOwner, HasFinalRole;
    hide AccountInv, OneRole, AtMostOneOwner, WellScoped, NoArchivedHolders, DriversAreLinked;
  }

  lemma OwnRowStays(s: Access, caller: int, r: Request, around: Surroundings, id: int)
    requires Inv(s) && caller in s.users && !r.TransferOwnership?
    requires s.users[caller].isStaged && Refuses(s, caller, r, around).None? ==> IsWorkforce(r)
    ensures Holds(Next(s, caller, r, around), id, caller) == Holds(s, id, caller)
  {
    hide MayAny, CanGrant, GrantRefusal, LinkTargetRefusal, HasRole, WithParents, IsOwner, HasFinalRole;
    hide AccountInv, OneRole, AtMostOneOwner, WellScoped, NoArchivedHolders, DriversAreLinked;
  }

  // ----- what is granted -----

  ghost predicate UsableGrant(s: Access, g: Grant) {
    && g.role in s.roles && s.roles[g.role].isActive && !s.roles[g.role].isArchived
    && (g.branch.Some? ==> g.branch.value in s.branches)
  }

  lemma CheckedGrantIsUsable(s: Access, employee: Option<int>, g: Grant, driving: set<int>)
    requires GrantRefusal(s, employee, g, driving).None?
    ensures UsableGrant(s, g) && !EmployeeTerminated(s, employee)
  {
  }

  /** A role that becomes active is active and unarchived, in a Branch of the company if in one. */
  lemma GrantedRolesAreUsable(s: Access, caller: int, r: Request, around: Surroundings, id: int, u: int)
    requires Inv(s) && Holds(Next(s, caller, r, around), id, u) && !Holds(s, id, u)
    ensures UsableGrant(s, Next(s, caller, r, around).rows[id].grant)
    ensures u in Next(s, caller, r, around).users && !EmployeeTerminated(s, Next(s, caller, r, around).users[u].employee)
  {
    if r.TransferOwnership? && Refuses(s, caller, r, around).None? {
      TransferredRolesAreUsable(s, caller, r.target, r.replacement, id, u);
    } else {
      OrdinaryRolesAreUsable(s, caller, r, around, id, u);
    }
  }

  lemma TransferredRolesAreUsable(s: Access, caller: int, u: int, replacement: Option<int>, id: int, v: int)
    requires Inv(s) && TransferRefusal(s, caller, u, replacement).None?
    requires Holds(OwnershipTransferred(s, caller, u, replacement), id, v) && !Holds(s, id, v)
    ensures var s' := OwnershipTransferred(s, caller, u, replacement);
            UsableGrant(s, s'.rows[id].grant) && v in s'.users && !EmployeeTerminated(s, s'.users[v].employee)
  {
    hide HasRole, IsOwner, HasFinalRole, InCompanyScope, OneRole, AtMostOneOwner, WellScoped, DriversAreLinked;
    TransferParties(s, caller, u, replacement);
  }

  lemma OrdinaryRolesAreUsable(s: Access, caller: int, r: Request, around: Surroundings, id: int, u: int)
    requires Inv(s) && Holds(Next(s, caller, r, around), id, u) && !Holds(s, id, u)
    requires !(r.TransferOwnership? && Refuses(s, caller, r, around).None?)
    ensures UsableGrant(s, Next(s, caller, r, around).rows[id].grant)
    ensures u in Next(s, caller, r, around).users && !EmployeeTerminated(s, Next(s, caller, r, around).users[u].employee)
  {
    hide MayAny, CanGrant, HasRole, WithParents, IsOwner, HasFinalRole, TransferRefusal, GrantRefusal, UsableGrant;
    hide AccountInv, OneRole, AtMostOneOwner, WellScoped, NoArchivedHolders, DriversAreLinked, LinkTargetRefusal;
    match r {
      case CreateUser(employee, _, _, _, first) =>
        if first.Some? && Refuses(s, caller, r, around).None? {
          CheckedGrantIsUsable(s, employee, first.value, around.driving);
        }
      case Provision(v, g, _) =>
        if Refuses(s, caller, r, around).None? {
          CheckedGrantIsUsable(s, s.users[v].employee, g, around.driving);
        }
      case AssignRole(v, g) =>
        if Refuses(s, caller, r, around).None? {
          CheckedGrantIsUsable(s, s.users[v].employee, g, around.driving);
        }
      case _ =>
    }
  }

  ghost predicate WellFormedCodes(s: Access, codes: set<Code>) {
    Closed(codes) && codes <= WithParents(s.catalogue)
  }

  /** Every permission set holds its parents and known codes only, and DRIVER has none. */
  ghost predicate PermissionSets(s: Access) {
    && (forall r :: r in s.roles ==>
          WellFormedCodes(s, s.roles[r].codes) && (s.roles[r].kind == DriverRole ==> s.roles[r].codes == {}))
    && (forall u :: u in s.users ==> WellFormedCodes(s, s.users[u].overrides))
  }

  lemma ParentsStayKnown(s: Access, codes: set<Code>)
    requires codes <= s.catalogue
    ensures WellFormedCodes(s, WithParents(codes)) && WellFormedCodes(s, {})
  {
    OnePassCloses(codes, s.catalogue);
  }

  lemma PermissionSetsStayWellFormed(s: Access, caller: int, r: Request, around: Surroundings)
    requires PermissionSets(s)
    ensures PermissionSets(Next(s, caller, r, around))
  {
    ParentsStayKnown(s, {});
    if (r.SetOverrides? || r.SetRolePermissions?) && r.codes <= s.catalogue {
      ParentsStayKnown(s, r.codes);
    }
    assert WithParents({}) == {};
    hide MayAny, CanGrant, GrantRefusal, LinkTargetRefusal, HasRole, WithParents, IsOwner, HasFinalRole, Closed;
    var s' := Next(s, caller, r, around);
    assert s'.catalogue == s.catalogue;
    forall u | u in s'.users ensures WellFormedCodes(s', s'.users[u].overrides) {
      OverridesWellFormed(s, caller, r, around, u);
    }
    forall role | role in s'.roles
      ensures WellFormedCodes(s', s'.roles[role].codes) && (s'.roles[role].kind == DriverRole ==> s'.roles[role].codes == {})
    {
      RoleWellFormed(s, caller, r, around, role);
    }
  }

  lemma OverridesWellFormed(s: Access, caller: int, r: Request, around: Surroundings, u: int)
    requires PermissionSets(s) && u in Next(s, caller, r, around).users && WellFormedCodes(s, {})
    requires r.SetOverrides? && r.codes <= s.catalogue ==> WellFormedCodes(s, WithParents(r.codes))
    ensures WellFormedCodes(s, Next(s, caller, r, around).users[u].overrides)
  {
    hide MayAny, CanGrant, GrantRefusal, LinkTargetRefusal, HasRole, WithParents, IsOwner, HasFinalRole, WellFormedCodes;
  }

  lemma RoleWellFormed(s: Access, caller: int, r: Request, around: Surroundings, role: int)
    requires PermissionSets(s) && role in Next(s, caller, r, around).roles && WellFormedCodes(s, {})
    requires r.SetRolePermissions? && r.codes <= s.catalogue ==> WellFormedCodes(s, WithParents(r.codes))
    requires WithParents({}) == {}
    ensures var row := Next(s, caller, r, around).roles[role];
            WellFormedCodes(s, row.codes) && (row.kind == DriverRole ==> row.codes == {})
  {
    hide MayAny, CanGrant, GrantRefusal, LinkTargetRefusal, HasRole, WithParents, IsOwner, HasFinalRole, WellFormedCodes;
  }

  /** A DRIVER account comes by extra permissions only by being provisioned with them. */
  lemma DriverOverridesComeFromProvisioning(s: Access, caller: int, r: Request, around: Surroundings, u: int)
    requires Inv(s) && u in Next(s, caller, r, around).users
    requires IsDriverSubject(Next(s, caller, r, around), u) && Next(s, caller, r, around).users[u].overrides != {}
    ensures (u in s.users && IsDriverSubject(s, u) && s.users[u].overrides != {}) || (r.Provision? && r.target == u)
  {
    var s' := Next(s, caller, r, around);
    var id :| id in s'.rows && DriverRow(s', id, u);
    if Holds(s, id, u) {
      RowsKeepTheirGrant(s, caller, r, around, id);
      assert DriverRow(s, id, u);
      DriverKeepsNoOverrides(s, caller, r, around, u);
    } else {
      NewDriverHasNoOverrides(s, caller, r, around, id, u);
    }
  }

  /** Extra permissions are replaced by choosing others, go with a termination, and stay otherwise. */
  lemma OverridesStay(s: Access, caller: int, r: Request, around: Surroundings, u: int)
    requires u in s.users && s.nextUser !in s.users
    ensures var users := Next(s, caller, r, around).users;
            && u in users
            && (|| users[u].overrides == s.users[u].overrides
                || users[u].overrides == {}
                || (r.SetOverrides? && r.target == u && OverridesRefusal(s, caller, u, r.codes).None?))
  {
    hide CreateUserRefusal, LinkRefusal, UnlinkRefusal, ProvisionRefusal, UpdateUserRefusal, AssignRefusal, RevokeRefusal;
    hide RolePermissionsRefusal, ArchiveRefusal, StatusRefusal, IsFinal;
    hide MayAny, CanGrant, HasRole, WithParents, IsOwner, HasFinalRole, IsDriverSubject;
  }

  lemma DriverKeepsNoOverrides(s: Access, caller: int, r: Request, around: Surroundings, u: int)
    requires Inv(s) && u in s.users && u in Next(s, caller, r, around).users && IsDriverSubject(s, u)
    requires Next(s, caller, r, around).users[u].overrides != {}
    ensures s.users[u].overrides != {}
  {
    assert WithParents({}) == {};
    OverridesStay(s, caller, r, around, u);
    hide MayAny, CanGrant, WithParents, IsOwner, IsDriverSubject, Inv;
  }

  /** Four requests give roles; any other leaves accounts with roles they had. */
  lemma FourRequestsGiveRoles(s: Access, caller: int, r: Request, around: Surroundings, id: int, u: int)
    requires Holds(Next(s, caller, r, around), id, u) && !Holds(s, id, u)
    ensures Refuses(s, caller, r, around).None? && (r.CreateUser? || r.Provision? || r.AssignRole? || r.TransferOwnership?)
  {
    hide CreateUserRefusal, ProvisionRefusal, UpdateUserRefusal, AssignRefusal, RevokeRefusal, TransferRefusal;
    hide LinkRefusal, UnlinkRefusal, OverridesRefusal, RolePermissionsRefusal, ArchiveRefusal, StatusRefusal, IsFinal, WithParents;
  }

  lemma CreatedHasNoOverrides(s: Access, r: Request, id: int, u: int)
    requires r.CreateUser? && Holds(UserCreated(s, r), id, u) && !Holds(s, id, u)
    ensures u in UserCreated(s, r).users && UserCreated(s, r).users[u].overrides == {}
  {
  }

  lemma AssignedDriverHasNoOverrides(s: Access, caller: int, v: int, g: Grant, driving: set<int>, id: int, u: int)
    requires AssignRefusal(s, caller, v, g, driving).None?
    requires DriverRow(RoleAssigned(s, v, g), id, u) && !Holds(s, id, u)
    ensures u in s.users && s.users[u].overrides == {}
  {
    hide MayAny, CanGrant;
  }

  lemma TransferMakesNoDriver(s: Access, caller: int, v: int, replacement: Option<int>, id: int, u: int)
    requires Inv(s) && TransferRefusal(s, caller, v, replacement).None?
    ensures DriverRow(OwnershipTransferred(s, caller, v, replacement), id, u) ==> Holds(s, id, u)
  {
    hide InCompanyScope, IsOwner, HasFinalRole, HasRole, AccountInv, OneRole, AtMostOneOwner, NoArchivedHolders, DriversAreLinked;
  }

  lemma NewDriverHasNoOverrides(s: Access, caller: int, r: Request, around: Surroundings, id: int, u: int)
    requires Inv(s) && u in Next(s, caller, r, around).users
    requires DriverRow(Next(s, caller, r, around), id, u) && !Holds(s, id, u)
    requires Next(s, caller, r, around).users[u].overrides != {}
    ensures r.Provision? && r.target == u
  {
    FourRequestsGiveRoles(s, caller, r, around, id, u);
    hide MayAny, CanGrant, HasRole, GrantRefusal, LinkTargetRefusal, Inv, AssignRefusal, CreateUserRefusal, TransferRefusal;
    if r.CreateUser? {
      CreatedHasNoOverrides(s, r, id, u);
    } else if r.AssignRole? {
      AssignedDriverHasNoOverrides(s, caller, r.target, r.grant, around.driving, id, u);
    } else if r.TransferOwnership? {
      TransferMakesNoDriver(s, caller, r.target, r.replacement, id, u);
    }
  }

  /** No DRIVER account has extra permissions. */
  ghost predicate DriversBare(s: Access) {
    forall u :: u in s.users && IsDriverSubject(s, u) ==> s.users[u].overrides == {}
  }

  /** An accepted provisioning makes an account that still has extra permissions a DRIVER. */
  ghost predicate ProvisionsLadenDriver(s: Access, caller: int, r: Request, around: Surroundings) {
    && r.Provision? && ProvisionRefusal(s, caller, r.target, r.grant, around.driving).None?
    && KindOf(s, r.grant.role) == DriverRole && s.users[r.target].overrides != {}
  }

  lemma LadenDriverIsLaden(s: Access, caller: int, r: Request, around: Surroundings)
    requires Inv(s) && ProvisionsLadenDriver(s, caller, r, around)
    ensures !DriversBare(Next(s, caller, r, around))
  {
    var s' := Next(s, caller, r, around);
    assert DriverRow(s', s.nextRow, r.target);
    assert IsDriverSubject(s', r.target) && s'.users[r.target].overrides != {};
  }

  lemma NewDriverWasLaden(s: Access, caller: int, r: Request, around: Surroundings, id: int)
    requires Inv(s) && r.Provision? && r.target in Next(s, caller, r, around).users
    requires DriverRow(Next(s, caller, r, around), id, r.target) && !Holds(s, id, r.target)
    requires Next(s, caller, r, around).users[r.target].overrides != {}
    ensures ProvisionsLadenDriver(s, caller, r, around)
  {
    hide MayAny, CanGrant, HasRole;
    hide AccountInv, OneRole, AtMostOneOwner, NoArchivedHolders, DriversAreLinked;
  }

  /** DRIVER accounts stay without extra permissions except by provisioning one that has some. */
  lemma DriversStayBareUnlessProvisioned(s: Access, caller: int, r: Request, around: Surroundings)
    requires Inv(s) && DriversBare(s)
    ensures DriversBare(Next(s, caller, r, around)) <==> !ProvisionsLadenDriver(s, caller, r, around)
  {
    var s' := Next(s, caller, r, around);
    if ProvisionsLadenDriver(s, caller, r, around) {
      LadenDriverIsLaden(s, caller, r, around);
    }
    hide Next, Inv, ProvisionsLadenDriver;
    forall u | u in s'.users && IsDriverSubject(s', u) && s'.users[u].overrides != {}
      ensures ProvisionsLadenDriver(s, caller, r, around)
    {
      DriverOverridesComeFromProvisioning(s, caller, r, around, u);
      var id :| id in s'.rows && DriverRow(s', id, u);
      if Holds(s, id, u) {
        RowsKeepTheirGrant(s, caller, r, around, id);
        HeldDriverRow(s, s', id, u);
        DriverKeepsNoOverrides(s, caller, r, around, u);
        HoldersAreUsers(s, id, u);
      } else {
        NewDriverWasLaden(s, caller, r, around, id);
      }
    }
  }

  lemma HoldersAreUsers(s: Access, id: int, u: int)
    requires Inv(s) && Holds(s, id, u)
    ensures u in s.users
  {
  }

  lemma HeldDriverRow(s: Access, s': Access, id: int, u: int)
    requires Holds(s, id, u) && DriverRow(s', id, u) && s'.rows[id].grant == s.rows[id].grant
    requires KindOf(s', s.rows[id].grant.role) == KindOf(s, s.rows[id].grant.role)
    ensures IsDriverSubject(s, u)
  {
    assert DriverRow(s, id, u);
  }

  /** After the first k events no DRIVER has extra permissions. */
  ghost predicate BareAt(s: Access, events: seq<Event>, k: nat)
    requires k <= |events|
  {
    DriversBare(Replay(s, events[..k]))
  }

  /** Event k provisions a DRIVER that has some. */
  ghost predicate LadenAt(s: Access, events: seq<Event>, k: nat)
    requires k < |events|
  {
    ProvisionsLadenDriver(Replay(s, events[..k]), events[k].caller, events[k].request, events[k].around)
  }

  lemma BareStep(s: Access, events: seq<Event>, k: nat)
    requires Inv(s) && k < |events| && BareAt(s, events, k)
    ensures BareAt(s, events, k + 1) <==> !LadenAt(s, events, k)
  {
    RunKeeps(s, events[..k]);
    var e := events[k];
    DriversStayBareUnlessProvisioned(Replay(s, events[..k]), e.caller, e.request, e.around);
    hide Next, Inv, ProvisionsLadenDriver, DriversBare;
    assert events[..k + 1][..k] == events[..k];
  }

  /** Over a run: no state has a DRIVER with extra permissions, iff no event provisions a laden one. */
  lemma {:induction false} RunsKeepDriversBare(s: Access, events: seq<Event>, n: nat)
    requires Inv(s) && DriversBare(s) && n <= |events|
    ensures (forall k :: 0 <= k <= n ==> BareAt(s, events, k)) <==> forall k :: 0 <= k < n ==> !LadenAt(s, events, k)
  {
    if n == 0 {
      assert events[..0] == [];
    } else {
      RunsKeepDriversBare(s, events, n - 1);
      if BareAt(s, events, n - 1) {
        BareStep(s, events, n - 1);
      }
    }
  }
}
