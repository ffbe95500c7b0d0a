/**
 * Who is let through: the gates of the account services read off the tables, and for every request
 * the exact condition under which it is accepted.
 */
module AccessGates {
  import opened Base
  import opened AccessModel
  import opened AccessSteps
  import opened AccessInvariant
  import opened AccessTheorems

  // ----- gates -----

  /** The account has the code from its one company-wide role, or as an extra permission beside it. */
  ghost predicate HasCompanyWide(s: Access, u: int, id: int, c: Code)
    requires id in s.rows && s.rows[id].grant.role in s.roles && u in s.users
  {
    var role := s.roles[s.rows[id].grant.role];
    if role.kind == OwnerRole then c in s.catalogue else c in role.codes || c in s.users[u].overrides
  }

  /** An account's one active role is company-wide, and the account is active and may sign in. */
  ghost predicate ActsCompanyWide(s: Access, u: int, id: int) {
    && id in s.rows && s.rows[id].isActive && s.rows[id].user == u && s.rows[id].grant.scope == AllCompanyBranches
    && u in s.users && s.users[u].isActive && s.users[u].canLogin
  }

  /** The gate of the account services, for an account with a role: a company-wide one with such a code. */
  lemma GateOfTheOneRole(s: Access, u: int, id: int, codes: set<Code>)
    requires Inv(s) && id in s.rows && s.rows[id].isActive && s.rows[id].user == u
    ensures u in s.users && s.rows[id].grant.role in s.roles
    ensures MayAny(s, u, codes) <==> ActsCompanyWide(s, u, id) && exists c :: c in codes && HasCompanyWide(s, u, id, c)
  {
    assert Holds(s, id, u);
    assert forall other :: AllCompanyRow(s, other, u) ==> other == id;
    assert AllCompanyRow(s, id, u) <==> s.rows[id].grant.scope == AllCompanyBranches;
    assert ScopeAccepts(s, s.rows[id]);
    forall c ensures HasPermission(s, u, None, c) <==> ActsCompanyWide(s, u, id) && HasCompanyWide(s, u, id, c) {
      PermissionOfTheOneRole(s, u, id, None, c);
    }
  }

  /** An account without a role passes no gate. */
  lemma NoRoleNoGate(s: Access, u: int, codes: set<Code>)
    requires forall id :: id in s.rows && s.rows[id].isActive ==> s.rows[id].user != u
    ensures !MayAny(s, u, codes) && !InCompanyScope(s, u)
  {
  }

  /** The ceiling for an account with a company-wide role: its own codes, or anything for the owner. */
  lemma CeilingOfTheOneRole(s: Access, u: int, id: int, codes: set<Code>)
    requires Inv(s) && ActsCompanyWide(s, u, id)
    ensures s.rows[id].grant.role in s.roles
    ensures CanGrant(s, u, codes) <==>
            || s.roles[s.rows[id].grant.role].kind == OwnerRole
            || forall c :: c in codes ==> HasCompanyWide(s, u, id, c)
  {
    assert Holds(s, id, u) && ScopeAccepts(s, s.rows[id]);
    assert IsOwner(s, u) <==> OwnerRow(s, id, u);
    forall c ensures HasPermission(s, u, None, c) <==> HasCompanyWide(s, u, id, c) {
      PermissionOfTheOneRole(s, u, id, None, c);
    }
  }

  /** The owner is who holds the owner role, a driver subject who holds DRIVER. */
  lemma OwnerAndDriverIff(s: Access, u: int)
    requires Inv(s)
    ensures IsOwner(s, u) <==>
            exists id :: id in s.rows && s.rows[id].isActive && s.rows[id].user == u && s.rows[id].grant.role == s.ownerRole
    ensures IsDriverSubject(s, u) <==>
            exists id :: id in s.rows && s.rows[id].isActive && s.rows[id].user == u
                         && s.roles[s.rows[id].grant.role].kind == DriverRole
  {
    forall id | id in s.rows
      ensures OwnerRow(s, id, u) <==> s.rows[id].isActive && s.rows[id].user == u && s.rows[id].grant.role == s.ownerRole
      ensures DriverRow(s, id, u) <==>
              s.rows[id].isActive && s.rows[id].user == u && s.roles[s.rows[id].grant.role].kind == DriverRole
    {
      assert ScopeAccepts(s, s.rows[id]);
    }
  }

  // ----- what may be granted and linked -----

  ghost predicate IsTerminated(s: Access, employee: Option<int>) {
    employee.Some? && employee.value in s.employees && s.employees[employee.value].status == Terminated
  }

  /** An active role of the company, in a scope that fits it, for an account that may have it. */
  ghost predicate Grantable(s: Access, employee: Option<int>, g: Grant, driving: set<int>) {
    && !IsTerminated(s, employee)
    && g.role in s.roles && s.roles[g.role].isActive && !s.roles[g.role].isArchived
    && match s.roles[g.role].kind
       case OwnerRole => false
       case DriverRole =>
         g.scope == SelfOnly && g.branch.None? && employee.Some? && employee.value in s.employees && employee.value in driving
       case OtherRole =>
         match g.scope
         case AllCompanyBranches => g.branch.None?
         case SpecificBranch => g.branch.Some? && g.branch.value in s.branches
         case SelfOnly => false
  }

  lemma GrantableIff(s: Access, employee: Option<int>, g: Grant, driving: set<int>)
    ensures GrantRefusal(s, employee, g, driving).None? <==> Grantable(s, employee, g, driving)
  {
  }

  /** An Employee of the company who is not terminated and has no account. */
  ghost predicate Linkable(s: Access, e: int) {
    && e in s.employees && s.employees[e].status != Terminated
    && forall v :: v in s.users ==> s.users[v].employee != Some(e)
  }

  lemma LinkableIff(s: Access, e: int)
    ensures LinkTargetRefusal(s, e).None? <==> Linkable(s, e)
  {
    if Linkable(s, e) {
      forall v | v in s.users ensures !Linked(s, v, e) {
      }
    } else if e in s.employees && s.employees[e].status != Terminated {
      var v :| v in s.users && s.users[v].employee == Some(e);
      assert Linked(s, v, e);
    }
  }

  ghost predicate HasNoActiveRow(s: Access, u: int) {
    forall id :: id in s.rows && s.rows[id].user == u ==> !s.rows[id].isActive
  }

  // ----- which writes the database accepts -----

  /** No two active rows give one user the same, and at most one gives the owner role. */
  ghost predicate RowsAreUnique(s: Access, rows: map<int, Assignment>) {
    forall i, j ::
      (&& i in rows && j in rows && rows[i].isActive && rows[j].isActive
       && (|| (rows[i].user == rows[j].user && rows[i].grant == rows[j].grant)
           || (KindOf(s, rows[i].grant.role) == OwnerRole && KindOf(s, rows[j].grant.role) == OwnerRole))) ==> i == j
  }

  /** Triggers and indexes accept a row exactly if its scope fits its role and the table with it has unique rows. */
  lemma RowWriteAccepted(s: Access, id: int, r: Assignment)
    requires r.grant.role in s.roles && RowsAreUnique(s, s.rows)
    ensures RowAccepted(s, id, r) <==>
            var kind := s.roles[r.grant.role].kind;
            && (kind == DriverRole <==> r.grant.scope == SelfOnly)
            && (r.grant.branch.Some? <==> r.grant.scope == SpecificBranch)
            && (kind == OwnerRole && r.isActive ==> r.grant.scope == AllCompanyBranches)
            && RowsAreUnique(s, s.rows[id := r])
  {
    var rows := s.rows[id := r];
    if RowsAreUnique(s, rows) {
      forall other | other in s.rows && other != id && r.isActive && s.rows[other].isActive
        ensures !(s.rows[other].user == r.user && s.rows[other].grant == r.grant)
        ensures !(KindOf(s, s.rows[other].grant.role) == OwnerRole && KindOf(s, r.grant.role) == OwnerRole)
      {
        assert rows[other] == s.rows[other] && rows[id] == r;
      }
    }
  }

  /** Login only unstaged, links to Employees of the company, and none of them linked twice. */
  ghost predicate UsersAreSound(s: Access, users: map<int, User>) {
    && (forall u :: u in users ==> !(users[u].isStaged && users[u].canLogin))
    && (forall u :: u in users && users[u].employee.Some? ==> users[u].employee.value in s.employees)
    && (forall u, v :: u in users && v in users && users[u].employee.Some? && users[u].employee == users[v].employee ==> u == v)
  }

  /** And an account row exactly if the table with it is sound. */
  lemma UserWriteAccepted(s: Access, u: int, row: User)
    requires UsersAreSound(s, s.users)
    ensures UserAccepted(s, u, row) <==> UsersAreSound(s, s.users[u := row])
  {
    var users := s.users[u := row];
    assert forall v :: v in s.users && v != u ==> users[v] == s.users[v];
    assert users[u] == row;
  }

  // ----- when each request is accepted -----

  lemma CreateUserAccepted(s: Access, caller: int, r: Request, around: Surroundings)
    requires r.CreateUser?
    ensures Refuses(s, caller, r, around).None? <==>
            && MayAny(s, caller, {UsersCreate})
            && (if r.staged then !r.login && r.first.None? else r.first.Some? && MayAny(s, caller, {UsersEdit, RolesEdit}))
            && (r.employee.Some? ==> Linkable(s, r.employee.value))
            && (r.first.Some? ==>
                  && Grantable(s, r.employee, r.first.value, around.driving)
                  && CanGrant(s, caller, s.roles[r.first.value.role].codes))
  {
    hide MayAny, CanGrant, GrantRefusal, LinkTargetRefusal, Grantable, Linkable;
    if r.employee.Some? {
      LinkableIff(s, r.employee.value);
    }
    if r.first.Some? {
      GrantableIff(s, r.employee, r.first.value, around.driving);
      GrantableRoles(s, r.employee, r.first.value, around.driving);
    }
  }

  lemma GrantableRoles(s: Access, employee: Option<int>, g: Grant, driving: set<int>)
    ensures Grantable(s, employee, g, driving) ==> g.role in s.roles
  {
  }

  lemma LinkAccepted(s: Access, caller: int, u: int, e: int, around: Surroundings)
    ensures Refuses(s, caller, Request.LinkEmployee(u, e), around).None? <==>
            && MayAny(s, caller, {UsersEdit}) && u in s.users
            && (s.users[u].employee == Some(e) || (s.users[u].employee.None? && Linkable(s, e)))
  {
    hide MayAny, LinkTargetRefusal, Linkable;
    LinkableIff(s, e);
  }

  lemma UnlinkAccepted(s: Access, caller: int, u: int, around: Surroundings)
    ensures Refuses(s, caller, Request.UnlinkEmployee(u), around).None? <==>
            && MayAny(s, caller, {UsersEdit}) && u in s.users
            && (s.users[u].employee.Some? ==>
                  && s.users[u].employee.value in s.employees && !IsTerminated(s, s.users[u].employee)
                  && forall id :: id in s.rows && s.rows[id].user == u && s.rows[id].isActive ==>
                       !(s.rows[id].grant.role in s.roles && s.roles[s.rows[id].grant.role].kind == DriverRole))
  {
    hide MayAny;
    assert forall id :: id in s.rows ==>
             (HoldsKind(s, id, u, DriverRole) <==>
              && s.rows[id].user == u && s.rows[id].isActive
              && s.rows[id].grant.role in s.roles && s.roles[s.rows[id].grant.role].kind == DriverRole);
  }

  lemma ProvisionAccepted(s: Access, caller: int, u: int, g: Grant, login: bool, around: Surroundings)
    ensures Refuses(s, caller, Request.Provision(u, g, login), around).None? <==>
            && MayAny(s, caller, {UsersEdit}) && u in s.users && s.users[u].isStaged && HasNoActiveRow(s, u)
            && Grantable(s, s.users[u].employee, g, around.driving) && CanGrant(s, caller, s.roles[g.role].codes)
  {
    hide MayAny, CanGrant, GrantRefusal, Grantable;
    HasRoleIff(s, u);
    if u in s.users {
      GrantableIff(s, s.users[u].employee, g, around.driving);
      GrantableRoles(s, s.users[u].employee, g, around.driving);
    }
  }

  lemma HasRoleIff(s: Access, u: int)
    ensures HasRole(s, u) <==> !HasNoActiveRow(s, u)
  {
    if !HasNoActiveRow(s, u) {
      var id :| id in s.rows && s.rows[id].user == u && s.rows[id].isActive;
      assert Holds(s, id, u);
    }
  }

  /** Login needs a role on an unstaged account of an Employee not terminated; nobody shuts out themselves. */
  lemma UpdateUserAccepted(s: Access, caller: int, r: Request, around: Surroundings)
    requires r.UpdateUser?
    ensures Refuses(s, caller, r, around).None? <==>
            && InCompanyScope(s, caller)
            && (r.otherFields || r.allowLogin.Some? ==> MayAny(s, caller, {UsersEdit}))
            && (!r.otherFields && r.allowLogin.None? && r.activate.Some? ==> MayAny(s, caller, {UsersDeactivate, UsersEdit}))
            && r.target in s.users
            && (r.allowLogin == Some(true) ==>
                  && !s.users[r.target].isStaged && !HasNoActiveRow(s, r.target)
                  && !IsTerminated(s, s.users[r.target].employee))
            && (r.target == caller ==> r.activate != Some(false) && r.allowLogin != Some(false))
  {
    hide MayAny, InCompanyScope;
    HasRoleIff(s, r.target);
  }

  lemma AssignAccepted(s: Access, caller: int, u: int, g: Grant, around: Surroundings)
    ensures Refuses(s, caller, Request.AssignRole(u, g), around).None? <==>
            && MayAny(s, caller, {UsersEdit, RolesEdit}) && caller != u
            && u in s.users && s.users[u].isActive && !s.users[u].isStaged
            && Grantable(s, s.users[u].employee, g, around.driving) && CanGrant(s, caller, s.roles[g.role].codes)
            && (s.roles[g.role].kind == DriverRole ==> s.users[u].overrides == {})
  {
    hide MayAny, CanGrant;
    if u in s.users {
      GrantableIff(s, s.users[u].employee, g, around.driving);
    }
  }

  lemma RevokeAccepted(s: Access, caller: int, u: int, id: int, around: Surroundings)
    ensures Refuses(s, caller, Request.RevokeRole(u, id), around).None? <==>
            && MayAny(s, caller, {UsersEdit, RolesEdit}) && caller != u && u in s.users
            && id in s.rows && s.rows[id].user == u
            && (s.rows[id].grant.role in s.roles ==> s.roles[s.rows[id].grant.role].kind != OwnerRole)
            && !(&& s.users[u].canLogin && s.rows[id].isActive
                 && forall other :: other in s.rows && s.rows[other].user == u && s.rows[other].isActive ==> other == id)
  {
    hide MayAny;
    assert forall other :: other in s.rows ==> (Holds(s, other, u) <==> s.rows[other].user == u && s.rows[other].isActive);
  }

  ghost predicate IsReplacement(s: Access, role: int) {
    role in s.roles && s.roles[role].kind == OtherRole && s.roles[role].isActive && !s.roles[role].isArchived
  }

  /** The owner hands over to an account that may sign in; with login, a replacement role is needed. */
  lemma TransferAccepted(s: Access, caller: int, u: int, replacement: Option<int>, around: Surroundings)
    requires Inv(s)
    ensures Refuses(s, caller, Request.TransferOwnership(u, replacement), around).None? <==>
            && s.roles[s.ownerRole].isActive
            && caller in s.users && s.users[caller].isActive
            && (exists id :: id in s.rows && s.rows[id] == Assignment(caller, Grant(s.ownerRole, AllCompanyBranches, None), true))
            && u != caller && u in s.users && s.users[u].isActive && s.users[u].canLogin
            && (replacement.Some? ==> IsReplacement(s, replacement.value))
            && (s.users[caller].canLogin ==> replacement.Some?)
  {
    forall id | id in s.rows ensures TransferableRow(s, id, caller) <==>
        s.rows[id] == Assignment(caller, Grant(s.ownerRole, AllCompanyBranches, None), true) {
    }
    if id :| id in s.rows && TransferableRow(s, id, caller) {
      assert Holds(s, id, caller) && IsFinal(s, id, caller);
      assert OwnerRow(s, id, caller) && AllCompanyRow(s, id, caller);
      assert HasRole(s, caller);
    }
  }

  lemma OverridesAccepted(s: Access, caller: int, u: int, codes: set<Code>, around: Surroundings)
    ensures Refuses(s, caller, Request.SetOverrides(u, codes), around).None? <==>
            && MayAny(s, caller, {UsersEdit}) && caller != u && u in s.users && !IsOwner(s, u)
            && (codes == {} || !IsDriverSubject(s, u)) && codes <= s.catalogue
            && (WithParents(codes) <= s.users[u].overrides || !IsTerminated(s, s.users[u].employee))
            && CanGrant(s, caller, WithParents(codes) - s.users[u].overrides)
  {
    hide MayAny, CanGrant, IsOwner, IsDriverSubject, WithParents;
    if u in s.users {
      NothingMore(WithParents(codes), s.users[u].overrides);
    }
  }

  lemma NothingMore(a: set<Code>, b: set<Code>)
    ensures a - b == {} <==> a <= b
  {
    if a - b == {} {
      forall c | c in a ensures c in b {
        assert c !in a - b;
      }
    }
  }

  lemma RolePermissionsAccepted(s: Access, caller: int, role: int, codes: set<Code>, around: Surroundings)
    requires Inv(s)
    ensures Refuses(s, caller, Request.SetRolePermissions(role, codes), around).None? <==>
            && MayAny(s, caller, {RolesEdit}) && role in s.roles && !s.roles[role].isArchived && role != s.ownerRole
            && (s.roles[role].kind == DriverRole ==> codes == {}) && codes <= s.catalogue
            && (|| IsOwner(s, caller)
                || forall id :: id in s.rows && s.rows[id].isActive && s.rows[id].user == caller ==> s.rows[id].grant.role != role)
            && CanGrant(s, caller, WithParents(codes) - s.roles[role].codes)
  {
    hide MayAny, CanGrant, IsOwner, WithParents, OneRole, AtMostOneOwner, WellScoped, NoArchivedHolders, DriversAreLinked, AccountInv;
    assert forall id :: id in s.rows ==> (Holds(s, id, caller) <==> s.rows[id].isActive && s.rows[id].user == caller);
  }

  lemma RolesAccepted(s: Access, caller: int, role: int, rename: bool, activate: Option<bool>, around: Surroundings)
    ensures Refuses(s, caller, Request.CreateRole, around).None? <==> MayAny(s, caller, {RolesCreate})
    ensures Refuses(s, caller, Request.UpdateRole(role, rename, activate), around).None? <==>
            MayAny(s, caller, {RolesEdit}) && role in s.roles && !s.roles[role].isArchived && (rename ==> !s.roles[role].isProtected)
    ensures Refuses(s, caller, Request.ArchiveRole(role), around).None? <==>
            && MayAny(s, caller, {RolesDelete}) && role in s.roles && !s.roles[role].isProtected
            && forall id :: id in s.rows && s.rows[id].isActive ==> s.rows[id].grant.role != role
  {
    hide MayAny;
    assert forall id :: id in s.rows ==> (UsesRole(s, id, role) <==> s.rows[id].isActive && s.rows[id].grant.role == role);
  }

  /** Nobody terminates the owner's Employee or their own. */
  ghost predicate MayEnd(s: Access, caller: int, e: int) {
    && (forall v :: v in s.users && s.users[v].employee == Some(e) ==> v != caller && !IsOwner(s, v))
  }

  lemma MayEndIff(s: Access, caller: int, e: int)
    ensures TerminationRefusal(s, caller, e).None? <==> MayEnd(s, caller, e)
  {
    hide IsOwner;
    assert forall v :: v in s.users ==> (Linked(s, v, e) <==> s.users[v].employee == Some(e));
  }

  lemma EmploymentAccepted(s: Access, caller: int, e: int, status: EmploymentStatus, around: Surroundings)
    ensures Refuses(s, caller, Request.SetStatus(e, status), around).None? <==>
            && e in s.employees && around.workforceAllows
            && (status == s.employees[e].status || (!s.employees[e].isDriver && (status == Terminated ==> MayEnd(s, caller, e))))
    ensures Refuses(s, caller, Request.TerminateDriver(e), around).None? <==>
            && e in s.employees && around.workforceAllows && s.employees[e].isDriver
            && s.employees[e].status != Terminated && MayEnd(s, caller, e)
    ensures Refuses(s, caller, Request.CreateDriver(e), around).None? <==>
            e in s.employees && around.workforceAllows && !s.employees[e].isDriver
    ensures Refuses(s, caller, Request.CreateEmployee(status), around).None? <==> around.workforceAllows
  {
    hide TerminationRefusal, MayEnd;
    MayEndIff(s, caller, e);
  }

  // ----- what a refusal says -----

  /** The gate that the request has to pass before anything else is looked at. */
  ghost predicate PassesGate(s: Access, caller: int, r: Request) {
    match r
    case CreateUser(_, _, _, _, _) => MayAny(s, caller, {UsersCreate})
    case LinkEmployee(_, _) => MayAny(s, caller, {UsersEdit})
    case UnlinkEmployee(_) => MayAny(s, caller, {UsersEdit})
    case Provision(_, _, _) => MayAny(s, caller, {UsersEdit})
    case UpdateUser(_, otherFields, activate, allowLogin) =>
      && InCompanyScope(s, caller)
      && (otherFields || allowLogin.Some? ==> MayAny(s, caller, {UsersEdit}))
      && (!otherFields && allowLogin.None? && activate.Some? ==> MayAny(s, caller, {UsersDeactivate, UsersEdit}))
    case AssignRole(_, _) => MayAny(s, caller, {UsersEdit, RolesEdit})
    case RevokeRole(_, _) => MayAny(s, caller, {UsersEdit, RolesEdit})
    case SetOverrides(_, _) => MayAny(s, caller, {UsersEdit})
    case SetRolePermissions(_, _) => MayAny(s, caller, {RolesEdit})
    case CreateRole => MayAny(s, caller, {RolesCreate})
    case UpdateRole(_, _, _) => MayAny(s, caller, {RolesEdit})
    case ArchiveRole(_) => MayAny(s, caller, {RolesDelete})
    case _ => true
  }

  /** Who does not pass the gate is told nothing else. */
  lemma GateComesFirst(s: Access, caller: int, r: Request, around: Surroundings)
    requires !PassesGate(s, caller, r)
    ensures Refuses(s, caller, r, around) == Some(Forbidden)
  {
    hide MayAny, InCompanyScope;
  }

  /** What the reasons say that concern a grant and the account's Employee. */
  ghost predicate TrueOfGrant(s: Access, employee: Option<int>, g: Grant, driving: set<int>, x: Refusal) {
    match x
    case EmployeeIsTerminated => IsTerminated(s, employee)
    case RoleNotFound => g.role in s.roles ==> !s.roles[g.role].isActive || s.roles[g.role].isArchived
    case OwnerOnlyByTransfer => g.role in s.roles && s.roles[g.role].kind == OwnerRole
    case DriverNeedsEmployee => g.role in s.roles && s.roles[g.role].kind == DriverRole && employee.None?
    case DriverNeedsSelf => g.role in s.roles && s.roles[g.role].kind == DriverRole && g.scope != SelfOnly
    case EmployeeNotFound => employee.Some? && employee.value !in s.employees
    case NoCurrentDriver => g.role in s.roles && s.roles[g.role].kind == DriverRole && employee.Some? && employee.value !in driving
    case SelfOnlyForDriver => g.role in s.roles && s.roles[g.role].kind == OtherRole && g.scope == SelfOnly
    case BranchMustBeNull => g.branch.Some? && g.scope != SpecificBranch
    case BranchRequired => g.branch.None? && g.scope == SpecificBranch
    case BranchNotFound => g.branch.Some? && g.branch.value !in s.branches
    case _ => false
  }

  lemma GrantReasons(s: Access, employee: Option<int>, g: Grant, driving: set<int>)
    ensures var x := GrantRefusal(s, employee, g, driving); x.Some? ==> TrueOfGrant(s, employee, g, driving, x.value)
  {
  }

  ghost predicate TrueOfLink(s: Access, e: int, x: Refusal) {
    match x
    case EmployeeIsTerminated => IsTerminated(s, Some(e))
    case EmployeeAlreadyLinked => exists v :: v in s.users && s.users[v].employee == Some(e)
    case EmployeeNotFound => e !in s.employees
    case _ => false
  }

  lemma LinkReasons(s: Access, e: int)
    ensures var x := LinkTargetRefusal(s, e); x.Some? ==> TrueOfLink(s, e, x.value)
  {
  }

  ghost predicate TrueOfCreation(s: Access, caller: int, r: Request, driving: set<int>, x: Refusal)
    requires r.CreateUser?
  {
    || (x == Forbidden && !r.staged && !MayAny(s, caller, {UsersEdit, RolesEdit}))
    || (x == StagedMustBeBare && r.staged && (r.login || r.first.Some?))
    || (x == RoleRequired && !r.staged && r.first.None?)
    || (r.employee.Some? && TrueOfLink(s, r.employee.value, x))
    || (r.first.Some? && TrueOfGrant(s, r.employee, r.first.value, driving, x))
    || (x == GrantCeilingExceeded && r.first.Some? && !CanGrant(s, caller, CodesOf(s, r.first.value.role)))
  }

  lemma CreationReasons(s: Access, caller: int, r: Request, around: Surroundings)
    requires r.CreateUser? && PassesGate(s, caller, r) && Refuses(s, caller, r, around).Some?
    ensures TrueOfCreation(s, caller, r, around.driving, Refuses(s, caller, r, around).value)
  {
    hide MayAny, CanGrant, CodesOf, GrantRefusal, LinkTargetRefusal, TrueOfLink, TrueOfGrant;
    if r.employee.Some? {
      LinkReasons(s, r.employee.value);
    }
    if r.first.Some? {
      GrantReasons(s, r.employee, r.first.value, around.driving);
    }
  }

  /** What the reasons say that concern an existing account. */
  ghost predicate TrueOfAccount(s: Access, caller: int, r: Request, driving: set<int>, x: Refusal)
    requires r.LinkEmployee? || r.UnlinkEmployee? || r.UpdateUser? || r.Provision? || r.AssignRole? || r.RevokeRole?
  {
    var u := r.target;
    if u !in s.users then x == UserNotFound || (x == SelfAccessChange && u == caller)
    else
      var row := s.users[u];
      match x
      case SelfAccessChange => u == caller
      case UserNotFound => r.AssignRole? && !row.isActive
      case UserIsStaged => row.isStaged
      case UserNotStaged => !row.isStaged
      case AlreadyHasRole => !HasNoActiveRow(s, u)
      case AlreadyLinked => row.employee.Some?
      case OwnAccountProtected => r.UpdateUser? && u == caller && (r.activate == Some(false) || r.allowLogin == Some(false))
      case RoleRequired => r.UpdateUser? && r.allowLogin == Some(true) && HasNoActiveRow(s, u)
      case AssignmentNotFound => r.RevokeRole? && (r.row in s.rows ==> s.rows[r.row].user != u)
      case DisableLoginFirst => r.RevokeRole? && row.canLogin
      case OwnerOnlyByTransfer =>
        if r.RevokeRole? then r.row in s.rows && KindOf(s, s.rows[r.row].grant.role) == OwnerRole
        else (r.Provision? || r.AssignRole?) && TrueOfGrant(s, row.employee, r.grant, driving, x)
      case DriverRoleActive => exists id :: HoldsKind(s, id, u, DriverRole)
      case ClearOverridesFirst =>
        r.AssignRole? && row.overrides != {} && r.grant.role in s.roles && s.roles[r.grant.role].kind == DriverRole
      case GrantCeilingExceeded => (r.Provision? || r.AssignRole?) && !CanGrant(s, caller, CodesOf(s, r.grant.role))
      case RoleArchived => r.AssignRole? && r.grant.role in s.roles && s.roles[r.grant.role].isArchived
      case RoleInactive => r.AssignRole? && r.grant.role in s.roles && !s.roles[r.grant.role].isActive
      case _ =>
        || (r.LinkEmployee? && TrueOfLink(s, r.linkTo, x))
        || (x == EmployeeIsTerminated && IsTerminated(s, row.employee))
        || (x == EmployeeNotFound && row.employee.Some? && row.employee.value !in s.employees)
        || ((r.Provision? || r.AssignRole?) && TrueOfGrant(s, row.employee, r.grant, driving, x))
  }

  lemma AccountReasons(s: Access, caller: int, r: Request, around: Surroundings)
    requires r.LinkEmployee? || r.UnlinkEmployee? || r.UpdateUser? || r.RevokeRole?
    requires PassesGate(s, caller, r) && Refuses(s, caller, r, around).Some?
    ensures TrueOfAccount(s, caller, r, around.driving, Refuses(s, caller, r, around).value)
  {
    hide MayAny, InCompanyScope, HasRole, LinkTargetRefusal, IsFinal, HasNoActiveRow, TrueOfLink, TrueOfGrant;
    HasRoleIff(s, r.target);
    if r.LinkEmployee? {
      LinkReasons(s, r.linkTo);
    }
  }

  lemma GrantingReasons(s: Access, caller: int, r: Request, around: Surroundings)
    requires r.Provision? || r.AssignRole?
    requires PassesGate(s, caller, r) && Refuses(s, caller, r, around).Some?
    ensures TrueOfAccount(s, caller, r, around.driving, Refuses(s, caller, r, around).value)
  {
    hide MayAny, CanGrant, CodesOf, HasRole, GrantRefusal, HasNoActiveRow;
    HasRoleIff(s, r.target);
    if r.target in s.users {
      GrantReasons(s, s.users[r.target].employee, r.grant, around.driving);
    }
  }

  ghost predicate TrueOfTransfer(s: Access, caller: int, u: int, replacement: Option<int>, x: Refusal) {
    match x
    case OwnerRoleInactive => s.ownerRole in s.roles ==> !s.roles[s.ownerRole].isActive
    case Forbidden =>
      caller in s.users && if s.users[caller].canLogin then !InCompanyScope(s, caller) else !IsOwner(s, caller)
    case UserNotFound => u !in s.users || caller !in s.users || !s.users[caller].isActive
    case UserIsStaged => caller in s.users && s.users[caller].isStaged
    case NotTheOwner =>
      forall id :: id in s.rows ==> s.rows[id] != Assignment(caller, Grant(s.ownerRole, AllCompanyBranches, None), true)
    case TransferToSelf => u == caller
    case UserNotActive => u in s.users && !s.users[u].isActive
    case TargetMustLogIn => u in s.users && !s.users[u].canLogin
    case ReplacementRequired => replacement.None? && caller in s.users && s.users[caller].canLogin
    case RoleNotFound => replacement.Some? && replacement.value !in s.roles
    case RoleArchived => replacement.Some? && replacement.value in s.roles && s.roles[replacement.value].isArchived
    case RoleInactive => replacement.Some? && replacement.value in s.roles && !s.roles[replacement.value].isActive
    case ReplacementNotAllowed =>
      replacement.Some? && replacement.value in s.roles && s.roles[replacement.value].kind != OtherRole
    case _ => false
  }

  lemma TransferReasons(s: Access, caller: int, u: int, replacement: Option<int>)
    requires TransferRefusal(s, caller, u, replacement).Some?
    ensures TrueOfTransfer(s, caller, u, replacement, TransferRefusal(s, caller, u, replacement).value)
  {
    hide InCompanyScope, IsOwner, HasFinalRole;
    assert forall id :: id in s.rows ==>
             (TransferableRow(s, id, caller)
              <==> s.rows[id] == Assignment(caller, Grant(s.ownerRole, AllCompanyBranches, None), true));
  }

  /** What the reasons say that concern permissions and roles. */
  ghost predicate TrueOfPermissions(s: Access, caller: int, r: Request, x: Refusal) {
    match r
    case SetOverrides(u, codes) =>
      (match x
       case SelfAccessChange => u == caller
       case UserNotFound => u !in s.users
       case OwnerHasAll => IsOwner(s, u)
       case DriverTakesNoPermissions => codes != {} && IsDriverSubject(s, u)
       case UnknownCode => !(codes <= s.catalogue)
       case EmployeeIsTerminated => u in s.users && IsTerminated(s, s.users[u].employee)
       case GrantCeilingExceeded => u in s.users && !CanGrant(s, caller, WithParents(codes) - s.users[u].overrides)
       case _ => false)
    case SetRolePermissions(role, codes) =>
      (match x
       case RoleNotFound => role in s.roles ==> s.roles[role].isArchived
       case OwnerPermissionsAreAutomatic => role in s.roles && s.roles[role].kind == OwnerRole
       case OwnRolePermissionsEdit => HoldsRole(s, caller, role) && !IsOwner(s, caller)
       case DriverTakesNoPermissions => codes != {} && role in s.roles && s.roles[role].kind == DriverRole
       case UnknownCode => !(codes <= s.catalogue)
       case GrantCeilingExceeded => role in s.roles && !CanGrant(s, caller, WithParents(codes) - s.roles[role].codes)
       case _ => false)
    case UpdateRole(role, rename, _) =>
      (match x
       case RoleNotFound => role in s.roles ==> s.roles[role].isArchived
       case RoleProtected => rename && role in s.roles && s.roles[role].isProtected
       case _ => false)
    case ArchiveRole(role) =>
      (match x
       case RoleNotFound => role !in s.roles
       case RoleProtected => role in s.roles && s.roles[role].isProtected
       case RoleInUse => exists id :: id in s.rows && s.rows[id].isActive && s.rows[id].grant.role == role
       case _ => false)
    case _ => false
  }

  lemma PermissionReasons(s: Access, caller: int, r: Request, around: Surroundings)
    requires r.SetOverrides? || r.SetRolePermissions? || r.CreateRole? || r.UpdateRole? || r.ArchiveRole?
    requires PassesGate(s, caller, r) && Refuses(s, caller, r, around).Some?
    ensures TrueOfPermissions(s, caller, r, Refuses(s, caller, r, around).value)
  {
    hide MayAny, CanGrant, IsOwner, IsDriverSubject, WithParents, HoldsRole;
  }

  /** What the reasons say that concern employment. */
  ghost predicate TrueOfEmployment(s: Access, caller: int, r: Request, allowed: bool, x: Refusal) {
    match r
    case CreateEmployee(_) => x == WorkforceRefused && !allowed
    case CreateDriver(e) =>
      || (x == EmployeeNotFound && e !in s.employees)
      || (x == WorkforceRefused && (!allowed || (e in s.employees && s.employees[e].isDriver)))
    case SetStatus(e, status) =>
      (match x
       case EmployeeNotFound => e !in s.employees
       case WorkforceRefused => !allowed
       case WorkforceControlled => e in s.employees && s.employees[e].isDriver
       case OwnerTermination => status == Terminated && exists v :: Linked(s, v, e) && IsOwner(s, v)
       case OwnTermination => status == Terminated && Linked(s, caller, e)
       case _ => false)
    case TerminateDriver(e) =>
      (match x
       case EmployeeNotFound => e !in s.employees
       case AlreadyTerminated => IsTerminated(s, Some(e))
       case OwnerTermination => exists v :: Linked(s, v, e) && IsOwner(s, v)
       case OwnTermination => Linked(s, caller, e)
       case WorkforceRefused => !allowed || (e in s.employees && !s.employees[e].isDriver)
       case _ => false)
    case _ => false
  }

  lemma EmploymentReasons(s: Access, caller: int, r: Request, around: Surroundings)
    requires r.SetStatus? || r.TerminateDriver? || r.CreateDriver? || r.CreateEmployee?
    requires Refuses(s, caller, r, around).Some?
    ensures TrueOfEmployment(s, caller, r, around.workforceAllows, Refuses(s, caller, r, around).value)
  {
    hide IsOwner;
  }

  /** What each reason for a refusal says about the tables. */
  ghost predicate IsTrue(s: Access, caller: int, r: Request, around: Surroundings, x: Refusal) {
    if !PassesGate(s, caller, r) then x == Forbidden
    else
      match r
      case CreateUser(_, _, _, _, _) => TrueOfCreation(s, caller, r, around.driving, x)
      case LinkEmployee(_, _) => TrueOfAccount(s, caller, r, around.driving, x)
      case UnlinkEmployee(_) => TrueOfAccount(s, caller, r, around.driving, x)
      case Provision(_, _, _) => TrueOfAccount(s, caller, r, around.driving, x)
      case UpdateUser(_, _, _, _) => TrueOfAccount(s, caller, r, around.driving, x)
      case AssignRole(_, _) => TrueOfAccount(s, caller, r, around.driving, x)
      case RevokeRole(_, _) => TrueOfAccount(s, caller, r, around.driving, x)
      case TransferOwnership(u, replacement) => TrueOfTransfer(s, caller, u, replacement, x)
      case SetStatus(_, _) => TrueOfEmployment(s, caller, r, around.workforceAllows, x)
      case TerminateDriver(_) => TrueOfEmployment(s, caller, r, around.workforceAllows, x)
      case CreateDriver(_) => TrueOfEmployment(s, caller, r, around.workforceAllows, x)
      case CreateEmployee(_) => TrueOfEmployment(s, caller, r, around.workforceAllows, x)
      case _ => TrueOfPermissions(s, caller, r, x)
  }

  /** A refusal never gives a reason that is not so. */
  lemma RefusalsAreTrue(s: Access, caller: int, r: Request, around: Surroundings)
    requires Refuses(s, caller, r, around).Some?
    ensures IsTrue(s, caller, r, around, Refuses(s, caller, r, around).value)
  {
    hide PassesGate, TrueOfCreation, TrueOfAccount, TrueOfTransfer, TrueOfEmployment, TrueOfPermissions;
    hide CreateUserRefusal, LinkRefusal, UnlinkRefusal, ProvisionRefusal, UpdateUserRefusal, AssignRefusal, RevokeRefusal;
    hide TransferRefusal, OverridesRefusal, RolePermissionsRefusal, UpdateRoleRefusal, ArchiveRefusal, StatusRefusal;
    if !PassesGate(s, caller, r) {
      GateComesFirst(s, caller, r, around);
    } else {
      match r {
        case CreateUser(_, _, _, _, _) => CreationReasons(s, caller, r, around);
        case LinkEmployee(_, _) => AccountReasons(s, caller, r, around);
        case UnlinkEmployee(_) => AccountReasons(s, caller, r, around);
        case Provision(_, _, _) => GrantingReasons(s, caller, r, around);
        case UpdateUser(_, _, _, _) => AccountReasons(s, caller, r, around);
        case AssignRole(_, _) => GrantingReasons(s, caller, r, around);
        case RevokeRole(_, _) => AccountReasons(s, caller, r, around);
        case TransferOwnership(u, replacement) => TransferReasons(s, caller, u, replacement);
        case SetStatus(_, _) => EmploymentReasons(s, caller, r, around);
        case TerminateDriver(_) => EmploymentReasons(s, caller, r, around);
        case CreateDriver(_) => EmploymentReasons(s, caller, r, around);
        case CreateEmployee(_) => EmploymentReasons(s, caller, r, around);
        case _ => PermissionReasons(s, caller, r, around);
      }
    }
  }
}
