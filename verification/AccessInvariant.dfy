/**
 * What every request keeps. The clauses lean on one another: several requests keep one of them
 * only because another one already holds.
 */
module AccessInvariant {
  import opened Base
  import opened AccessModel
  import opened AccessSteps

  ghost predicate Tables(s: Access) {
    && (forall id :: id in s.rows ==>
          id < s.nextRow && s.rows[id].user in s.users && s.rows[id].grant.role in s.roles)
    && (forall u :: u in s.users ==> u < s.nextUser)
    && (forall r :: r in s.roles ==> r < s.nextRole)
    && (forall e :: e in s.employees ==> e < s.nextEmployee)
    && s.ownerRole in s.roles && s.roles[s.ownerRole].isProtected && !s.roles[s.ownerRole].isArchived
    && (forall r :: r in s.roles ==> (s.roles[r].kind == OwnerRole <==> r == s.ownerRole))
  }

  /** A user has at most one active role assignment. */
  ghost predicate OneRole(s: Access) {
    forall i, j, u :: Holds(s, i, u) && Holds(s, j, u) ==> i == j
  }

  /** An account is staged exactly while it has no active role. */
  ghost predicate StagedIffNoRole(s: Access) {
    forall u :: u in s.users ==> (s.users[u].isStaged <==> !HasRole(s, u))
  }

  ghost predicate StagedNeverLogsIn(s: Access) {
    forall u :: u in s.users ==> (s.users[u].canLogin ==> !s.users[u].isStaged)
  }

  ghost predicate ActiveOwnerRow(s: Access, id: int) {
    id in s.rows && s.rows[id].isActive && KindOf(s, s.rows[id].grant.role) == OwnerRole
  }

  /** The company has at most one active Company Owner. */
  ghost predicate AtMostOneOwner(s: Access) {
    forall i, j :: ActiveOwnerRow(s, i) && ActiveOwnerRow(s, j) ==> i == j
  }

  /** Self scope goes with DRIVER only, a Branch with Branch scope only, ownership is company-wide. */
  ghost predicate WellScoped(s: Access) {
    forall id :: id in s.rows ==> ScopeAccepts(s, s.rows[id])
  }

  predicate IsArchived(s: Access, role: int) {
    role in s.roles && s.roles[role].isArchived
  }

  /** Nobody holds an archived role. */
  ghost predicate NoArchivedHolders(s: Access) {
    forall id, u :: Holds(s, id, u) ==> !IsArchived(s, s.rows[id].grant.role)
  }

  /** Whoever holds DRIVER is linked to an Employee. */
  ghost predicate DriversAreLinked(s: Access) {
    forall id, u :: Holds(s, id, u) && KindOf(s, s.rows[id].grant.role) == DriverRole ==>
      u in s.users && s.users[u].employee.Some?
  }

  /** Each Employee is linked to at most one account. */
  ghost predicate LinksAreUnique(s: Access) {
    && (forall u :: u in s.users && s.users[u].employee.Some? ==> s.users[u].employee.value in s.employees)
    && (forall u, v, e :: Linked(s, u, e) && Linked(s, v, e) ==> u == v)
  }

  ghost predicate IsSealed(s: Access, u: int) {
    u in s.users && s.users[u].isStaged && !s.users[u].canLogin && s.users[u].overrides == {} && !HasRole(s, u)
  }

  /** The account of a terminated Employee has no role, no extra permission and no sign-in. */
  ghost predicate TerminatedAreSealed(s: Access) {
    forall u :: u in s.users && EmployeeTerminated(s, s.users[u].employee) ==> IsSealed(s, u)
  }

  ghost predicate RowInv(s: Access) {
    Tables(s) && OneRole(s) && AtMostOneOwner(s) && WellScoped(s) && NoArchivedHolders(s) && DriversAreLinked(s)
  }

  ghost predicate AccountInv(s: Access) {
    StagedIffNoRole(s) && StagedNeverLogsIn(s) && LinksAreUnique(s) && TerminatedAreSealed(s)
  }

  ghost predicate Inv(s: Access) {
    RowInv(s) && AccountInv(s)
  }

  // ----- changes to the assignment rows -----

  /** Revoking a user's active rows leaves that user without a role and everybody else as before. */
  lemma RevokedHolds(s: Access, u: int)
    ensures var s' := s.(rows := Revoked(s.rows, u));
            && (forall id, v :: Holds(s', id, v) <==> Holds(s, id, v) && v != u)
            && !HasRole(s', u) && forall v :: v != u ==> HasRole(s', v) == HasRole(s, v)
  {
    var s' := s.(rows := Revoked(s.rows, u));
    assert forall id, v :: Holds(s', id, v) <==> Holds(s, id, v) && v != u;
  }

  /** A new row gives its user one more role and changes nobody else. */
  lemma WithRowHolds(s: Access, u: int, g: Grant)
    requires s.nextRow !in s.rows
    ensures var s' := WithRow(s, u, g);
            && (forall id, v :: Holds(s', id, v) <==> Holds(s, id, v) || (id == s.nextRow && v == u))
            && HasRole(s', u) && forall v :: v != u ==> HasRole(s', v) == HasRole(s, v)
  {
    var s' := WithRow(s, u, g);
    assert Holds(s', s.nextRow, u);
    assert forall id, v :: Holds(s', id, v) <==> Holds(s, id, v) || (id == s.nextRow && v == u);
  }

  /** HasRole depends on the rows alone. */
  lemma SameRows(s: Access, s': Access)
    requires s.rows == s'.rows
    ensures forall id, v :: Holds(s, id, v) == Holds(s', id, v)
    ensures forall v :: HasRole(s, v) == HasRole(s', v)
    ensures s.users == s'.users ==> forall u, e :: Linked(s, u, e) == Linked(s', u, e)
  {
    assert s.users == s'.users ==> forall u, e :: Linked(s, u, e) == Linked(s', u, e);
    assert forall id, v :: Holds(s, id, v) == Holds(s', id, v);
  }

  /** No request but a transfer adds an owner row. */
  lemma OwnersAfter(s: Access, s': Access)
    requires AtMostOneOwner(s)
    requires forall id :: ActiveOwnerRow(s', id) ==> ActiveOwnerRow(s, id)
    ensures AtMostOneOwner(s')
  {
  }

  lemma RevokedKeepsRows(s: Access, u: int)
    requires RowInv(s)
    ensures RowInv(s.(rows := Revoked(s.rows, u)))
  {
    RevokedHolds(s, u);
    OwnersAfter(s, s.(rows := Revoked(s.rows, u)));
  }

  ghost predicate RoleMayBeAdded(s: Access, u: int, g: Grant) {
    && u in s.users && !HasRole(s, u) && g.role in s.roles && !IsArchived(s, g.role)
    && ScopeAccepts(s, Assignment(u, g, true))
    && (KindOf(s, g.role) == OwnerRole ==> forall id :: !ActiveOwnerRow(s, id))
    && (KindOf(s, g.role) == DriverRole ==> s.users[u].employee.Some?)
  }

  lemma WithRowKeepsRows(s: Access, u: int, g: Grant)
    requires RowInv(s) && RoleMayBeAdded(s, u, g)
    ensures RowInv(WithRow(s, u, g))
  {
    WithRowHolds(s, u, g);
    var s' := WithRow(s, u, g);
    assert forall id :: ActiveOwnerRow(s', id) ==> ActiveOwnerRow(s, id) || id == s.nextRow;
  }

  /** Changing an account without touching its Employee link is invisible to the rows. */
  lemma UserKeepsRows(s: Access, u: int, row: User)
    requires RowInv(s) && u in s.users && row.employee == s.users[u].employee
    ensures RowInv(WithUser(s, u, row))
  {
    SameRows(s, WithUser(s, u, row));
    OwnersAfter(s, WithUser(s, u, row));
  }

  lemma SameLinks(s: Access, s': Access)
    requires LinksAreUnique(s) && s'.users.Keys == s.users.Keys && s'.employees == s.employees
    requires forall u :: u in s.users ==> s'.users[u].employee == s.users[u].employee
    ensures LinksAreUnique(s')
  {
    assert forall u, e :: Linked(s', u, e) ==> Linked(s, u, e);
  }

  // ----- each request -----

  /** What passed the checks of a grant may be added once the account has no other role. */
  lemma CheckedGrantMayBeAdded(s: Access, u: int, g: Grant, driving: set<int>)
    requires u in s.users && GrantRefusal(s, s.users[u].employee, g, driving).None? && !HasRole(s, u)
    ensures RoleMayBeAdded(s, u, g)
  {
  }

  lemma AssignKeepsAccounts(s: Access, u: int, g: Grant)
    requires AccountInv(s) && s.nextRow !in s.rows && u in s.users && !s.users[u].isStaged
    requires !EmployeeTerminated(s, s.users[u].employee)
    ensures AccountInv(RoleAssigned(s, u, g))
  {
    RevokedHolds(s, u);
    WithRowHolds(s.(rows := Revoked(s.rows, u)), u, g);
    SameLinks(s, RoleAssigned(s, u, g));
    hide Holds, LinksAreUnique, HasRole;
  }

  lemma AssignKeeps(s: Access, caller: int, u: int, g: Grant, driving: set<int>)
    requires Inv(s) && AssignRefusal(s, caller, u, g, driving).None?
    ensures Inv(RoleAssigned(s, u, g))
  {
    hide MayAny, CanGrant, HasRole;
    var s1 := s.(rows := Revoked(s.rows, u));
    assert s.nextRow !in s.rows;
    hide Tables, OneRole, AtMostOneOwner, WellScoped, NoArchivedHolders, DriversAreLinked, AccountInv;
    RevokedHolds(s, u);
    RevokedKeepsRows(s, u);
    CheckedGrantMayBeAdded(s1, u, g, driving);
    WithRowKeepsRows(s1, u, g);
    AssignKeepsAccounts(s, u, g);
  }

  lemma RevokeKeeps(s: Access, caller: int, u: int, id: int)
    requires Inv(s) && RevokeRefusal(s, caller, u, id).None?
    ensures Inv(RoleRevoked(s, u, id))
  {
    DroppedKeepsRows(s, id);
    if IsFinal(s, id, u) {
      UserKeepsRows(s.(rows := s.rows[id := s.rows[id].(isActive := false)]), u, s.users[u].(isStaged := true));
    }
    DroppedHasRole(s, id);
    hide AccountInv, MayAny;
    RevokeKeepsAccounts(s, u, id);
  }

  lemma RevokeKeepsAccounts(s: Access, u: int, id: int)
    requires AccountInv(s) && OneRole(s) && u in s.users && id in s.rows && s.rows[id].user == u
    requires IsFinal(s, id, u) ==> !s.users[u].canLogin
    ensures AccountInv(RoleRevoked(s, u, id))
  {
    var s1 := s.(rows := s.rows[id := s.rows[id].(isActive := false)]);
    DroppedHasRole(s, id);
    SameRows(s1, RoleRevoked(s, u, id));
    SameLinks(s, RoleRevoked(s, u, id));
    hide Holds, IsFinal, LinksAreUnique, HasRole, OneRole;
  }

  lemma DroppedHasRole(s: Access, id: int)
    requires OneRole(s) && id in s.rows
    ensures var s1 := s.(rows := s.rows[id := s.rows[id].(isActive := false)]);
            forall v :: HasRole(s1, v) == (HasRole(s, v) && !IsFinal(s, id, v))
    ensures forall v :: IsFinal(s, id, v) ==> v == s.rows[id].user
  {
    var s1 := s.(rows := s.rows[id := s.rows[id].(isActive := false)]);
    assert forall i, v :: Holds(s1, i, v) <==> Holds(s, i, v) && i != id;
    forall v ensures HasRole(s1, v) == (HasRole(s, v) && !IsFinal(s, id, v)) {
      assert Holds(s, id, v) ==> IsFinal(s, id, v);
    }
  }

  lemma DroppedKeepsRows(s: Access, id: int)
    requires RowInv(s) && id in s.rows
    ensures RowInv(s.(rows := s.rows[id := s.rows[id].(isActive := false)]))
  {
    var s1 := s.(rows := s.rows[id := s.rows[id].(isActive := false)]);
    assert forall i, v :: Holds(s1, i, v) <==> Holds(s, i, v) && i != id;
    OwnersAfter(s, s1);
  }

  lemma ProvisionKeepsAccounts(s: Access, u: int, g: Grant, login: bool)
    requires AccountInv(s) && s.nextRow !in s.rows && u in s.users
    requires !EmployeeTerminated(s, s.users[u].employee)
    ensures AccountInv(UserProvisioned(s, u, g, login))
  {
    WithRowHolds(s, u, g);
    SameRows(WithRow(s, u, g), UserProvisioned(s, u, g, login));
    SameLinks(s, UserProvisioned(s, u, g, login));
    hide Holds, LinksAreUnique, HasRole;
  }

  lemma ProvisionKeeps(s: Access, caller: int, u: int, g: Grant, login: bool, driving: set<int>)
    requires Inv(s) && ProvisionRefusal(s, caller, u, g, driving).None?
    ensures Inv(UserProvisioned(s, u, g, login))
  {
    hide MayAny, CanGrant, HasRole;
    assert s.nextRow !in s.rows;
    hide Tables, OneRole, AtMostOneOwner, WellScoped, NoArchivedHolders, DriversAreLinked, AccountInv;
    CheckedGrantMayBeAdded(s, u, g, driving);
    WithRowKeepsRows(s, u, g);
    UserKeepsRows(WithRow(s, u, g), u, s.users[u].(isStaged := false, canLogin := login));
    ProvisionKeepsAccounts(s, u, g, login);
  }

  /** A request that leaves the rows alone and changes one account within the rules. */
  lemma UserChangeKeeps(s: Access, u: int, row: User)
    requires Inv(s) && u in s.users && UserAccepted(s, u, row) && row.isStaged == s.users[u].isStaged
    requires EmployeeTerminated(s, row.employee) ==> IsSealed(WithUser(s, u, row), u)
    requires row.employee.None? ==> forall id :: Holds(s, id, u) ==> KindOf(s, s.rows[id].grant.role) != DriverRole
    ensures Inv(WithUser(s, u, row))
  {
    var s' := WithUser(s, u, row);
    SameRows(s, s');
    OwnersAfter(s, s');
    forall v, w, e | Linked(s', v, e) && Linked(s', w, e) ensures v == w {
      assert v != u ==> Linked(s, v, e);
      assert w != u ==> Linked(s, w, e);
    }
  }

  lemma LinkKeeps(s: Access, caller: int, u: int, e: int)
    requires Inv(s) && LinkRefusal(s, caller, u, e).None?
    ensures Inv(UserLinked(s, u, e))
  {
    if s.users[u].employee == Some(e) {
      assert UserLinked(s, u, e) == s;
    } else {
      assert forall other :: other in s.users && s.users[other].employee == Some(e) ==> Linked(s, other, e);
      UserChangeKeeps(s, u, s.users[u].(employee := Some(e)));
    }
  }

  lemma UnlinkKeeps(s: Access, caller: int, u: int)
    requires Inv(s) && UnlinkRefusal(s, caller, u).None?
    ensures Inv(UserUnlinked(s, u))
  {
    if s.users[u].employee.None? {
      assert UserUnlinked(s, u) == s;
    } else {
      UserChangeKeeps(s, u, s.users[u].(employee := None));
    }
  }

  lemma UniqueLink(s: Access, u: int)
    requires LinksAreUnique(s) && u in s.users
    ensures s.users[u].employee.Some? ==>
              forall other :: other in s.users && other != u ==> s.users[other].employee != s.users[u].employee
  {
    if s.users[u].employee.Some? {
      var e := s.users[u].employee.value;
      forall other | other in s.users && other != u ensures s.users[other].employee != Some(e) {
        assert Linked(s, u, e) && (s.users[other].employee == Some(e) ==> Linked(s, other, e));
      }
    }
  }

  lemma UpdateUserKeeps(s: Access, caller: int, r: Request)
    requires Inv(s) && r.UpdateUser? && UpdateUserRefusal(s, caller, r).None?
    ensures Inv(UserUpdated(s, r))
  {
    SameRows(s, UserUpdated(s, r));
    UniqueLink(s, r.target);
    UserChangeKeeps(s, r.target, UserUpdated(s, r).users[r.target]);
  }

  lemma OverridesKeep(s: Access, caller: int, u: int, codes: set<Code>)
    requires Inv(s) && OverridesRefusal(s, caller, u, codes).None?
    ensures Inv(OverridesSet(s, u, codes))
  {
    SameRows(s, OverridesSet(s, u, codes));
    UniqueLink(s, u);
    if EmployeeTerminated(s, s.users[u].employee) {
      EmptyDifference(WithParents(codes), s.users[u].overrides);
    }
    UserChangeKeeps(s, u, s.users[u].(overrides := WithParents(codes)));
  }

  /** A request that leaves the rows and accounts alone and changes a role that is not an owner's. */
  lemma RoleChangeKeeps(s: Access, role: int, row: Role)
    requires Inv(s) && (row.kind == OwnerRole <==> role == s.ownerRole)
    requires role in s.roles ==> row.kind == s.roles[role].kind && row.isProtected == s.roles[role].isProtected
    requires row.isArchived ==> role in s.roles && !row.isProtected && forall id :: !UsesRole(s, id, role)
    requires role < s.nextRole
    ensures Inv(WithRole(s, role, row))
  {
    var s' := WithRole(s, role, row);
    SameRows(s, s');
    assert forall r :: r in s.roles ==> KindOf(s', r) == KindOf(s, r);
    OwnersAfter(s, s');
    assert row.isArchived ==> forall id, u :: Holds(s, id, u) ==> UsesRole(s, id, s.rows[id].grant.role);
  }

  lemma RolePermissionsKeep(s: Access, caller: int, role: int, codes: set<Code>)
    requires Inv(s) && RolePermissionsRefusal(s, caller, role, codes).None?
    ensures Inv(RolePermissionsSet(s, role, codes))
  {
    RoleChangeKeeps(s, role, RolePermissionsSet(s, role, codes).roles[role]);
  }

  lemma CreateRoleKeeps(s: Access)
    requires Inv(s)
    ensures Inv(RoleCreated(s))
  {
    var s1 := s.(nextRole := s.nextRole + 1);
    SameRows(s, s1);
    OwnersAfter(s, s1);
    RoleChangeKeeps(s1, s.nextRole, Role(OtherRole, false, true, false, {}));
  }

  lemma UpdateRoleKeeps(s: Access, caller: int, role: int, rename: bool, activate: Option<bool>)
    requires Inv(s) && UpdateRoleRefusal(s, caller, role, rename).None?
    ensures Inv(RoleUpdated(s, role, activate))
  {
    RoleChangeKeeps(s, role, RoleUpdated(s, role, activate).roles[role]);
  }

  lemma ArchiveKeeps(s: Access, caller: int, role: int)
    requires Inv(s) && ArchiveRefusal(s, caller, role).None?
    ensures Inv(RoleArchivedIn(s, role))
  {
    RoleChangeKeeps(s, role, s.roles[role].(isArchived := true));
  }

  /** Everything holds except that this account, which has no role, is not flagged as staged. */
  ghost predicate NewlyInserted(s: Access, u: int) {
    && RowInv(s) && StagedNeverLogsIn(s) && LinksAreUnique(s) && TerminatedAreSealed(s)
    && u in s.users && !HasRole(s, u) && !s.users[u].isStaged
    && (forall v :: v in s.users && v != u ==> (s.users[v].isStaged <==> !HasRole(s, v)))
  }

  /** A fresh account within the rules. */
  lemma NewAccountKeeps(s: Access, u: int, row: User)
    requires Inv(s) && u == s.nextUser && row.overrides == {} && !EmployeeTerminated(s, row.employee)
    requires row.employee.Some? ==> LinkTargetRefusal(s, row.employee.value).None?
    requires row.canLogin ==> !row.isStaged
    ensures var s1 := WithUser(s, u, row).(nextUser := u + 1);
            if row.isStaged then Inv(s1) else NewlyInserted(s1, u)
  {
    var s1 := WithUser(s, u, row).(nextUser := u + 1);
    SameRows(s, s1);
    OwnersAfter(s, s1);
    assert forall id :: !Holds(s, id, u);
    forall v, w, e | Linked(s1, v, e) && Linked(s1, w, e) ensures v == w {
      assert v != u ==> Linked(s, v, e);
      assert w != u ==> Linked(s, w, e);
    }
  }

  lemma FirstRoleCompletes(s: Access, u: int, g: Grant)
    requires NewlyInserted(s, u) && RoleMayBeAdded(s, u, g)
    requires !EmployeeTerminated(s, s.users[u].employee)
    ensures Inv(WithRow(s, u, g))
  {
    WithRowHolds(s, u, g);
    WithRowKeepsRows(s, u, g);
    SameLinks(s, WithRow(s, u, g));
    hide RowInv, RoleMayBeAdded, Holds, LinksAreUnique;
    assert AccountInv(WithRow(s, u, g));
  }

  lemma CreateUserKeeps(s: Access, caller: int, r: Request, driving: set<int>)
    requires Inv(s) && r.CreateUser? && CreateUserRefusal(s, caller, r, driving).None?
    ensures Inv(UserCreated(s, r))
  {
    hide Inv, NewlyInserted, MayAny, CanGrant, HasRole;
    var u := s.nextUser;
    var row := User(r.employee, r.isActive, r.login, r.staged, {});
    var s1 := WithUser(s, u, row).(nextUser := u + 1);
    NewAccountKeeps(s, u, row);
    if r.first.Some? {
      NewlyInsertedHasNoRole(s1, u);
      CheckedGrantMayBeAdded(s1, u, r.first.value, driving);
      FirstRoleCompletes(s1, u, r.first.value);
    }
  }

  lemma NewlyInsertedHasNoRole(s: Access, u: int)
    requires NewlyInserted(s, u)
    ensures u in s.users && !HasRole(s, u)
  {
  }

  lemma OwnerIsRevoked(s: Access, caller: int)
    requires RowInv(s) && exists id :: id in s.rows && TransferableRow(s, id, caller)
    ensures var s1 := s.(rows := Revoked(s.rows, caller));
            RowInv(s1) && !HasRole(s1, caller) && forall id :: !ActiveOwnerRow(s1, id)
  {
    var s1 := s.(rows := Revoked(s.rows, caller));
    RevokedHolds(s, caller);
    RevokedKeepsRows(s, caller);
    var id :| id in s.rows && TransferableRow(s, id, caller);
    assert ActiveOwnerRow(s, id);
    assert forall other :: ActiveOwnerRow(s1, other) ==> ActiveOwnerRow(s, other);
  }

  lemma GivingUpKeepsRows(s: Access, caller: int, replacement: Option<int>)
    requires RowInv(s) && caller in s.users && !HasRole(s, caller) && forall id :: !ActiveOwnerRow(s, id)
    requires replacement.Some? ==> ReplacementRefusal(s, replacement.value).None?
    ensures var s' := AfterOwner(s, caller, replacement); RowInv(s') && forall id :: !ActiveOwnerRow(s', id)
  {
    var s' := AfterOwner(s, caller, replacement);
    if replacement.Some? {
      WithRowKeepsRows(s, caller, Grant(replacement.value, AllCompanyBranches, None));
    } else {
      UserKeepsRows(s, caller, s.users[caller].(isStaged := true));
    }
    assert forall id :: ActiveOwnerRow(s', id) ==> ActiveOwnerRow(s, id);
  }

  lemma TakingKeepsRows(s: Access, u: int)
    requires RowInv(s) && u in s.users && forall id :: !ActiveOwnerRow(s, id)
    ensures RowInv(WithRow(s.(rows := Revoked(s.rows, u)), u, Grant(s.ownerRole, AllCompanyBranches, None)))
  {
    var s' := s.(rows := Revoked(s.rows, u));
    RevokedHolds(s, u);
    RevokedKeepsRows(s, u);
    assert forall id :: ActiveOwnerRow(s', id) ==> ActiveOwnerRow(s, id);
    WithRowKeepsRows(s', u, Grant(s.ownerRole, AllCompanyBranches, None));
  }

  lemma TransferKeepsRows(s: Access, caller: int, u: int, replacement: Option<int>)
    requires Inv(s) && TransferRefusal(s, caller, u, replacement).None?
    ensures RowInv(OwnershipTransferred(s, caller, u, replacement))
  {
    hide RowInv, AccountInv, HasRole, ActiveOwnerRow, InCompanyScope, IsOwner, HasFinalRole, TransferableRow, Revoked, WithRow;
    var s1 := s.(rows := Revoked(s.rows, caller));
    OwnerIsRevoked(s, caller);
    GivingUpKeepsRows(s1, caller, replacement);
    AfterOwnerKeepsTheRest(s1, caller, replacement);
    TakingKeepsRows(AfterOwner(s1, caller, replacement), u);
  }

  lemma AfterOwnerKeepsTheRest(s: Access, caller: int, replacement: Option<int>)
    requires caller in s.users
    ensures var s' := AfterOwner(s, caller, replacement); s'.users.Keys == s.users.Keys && s'.ownerRole == s.ownerRole
  {
  }

  /** The outgoing owner's own change: the replacement role, or staging. */
  function AfterOwner(s: Access, caller: int, replacement: Option<int>): Access
    requires caller in s.users
  {
    if replacement.Some? then WithRow(s, caller, Grant(replacement.value, AllCompanyBranches, None))
    else WithUser(s, caller, s.users[caller].(isStaged := true))
  }

  lemma TransferParties(s: Access, caller: int, u: int, replacement: Option<int>)
    requires Inv(s) && TransferRefusal(s, caller, u, replacement).None?
    ensures caller in s.users && u in s.users && caller != u
    ensures !s.users[caller].isStaged && !s.users[u].isStaged
    ensures !EmployeeTerminated(s, s.users[caller].employee) && !EmployeeTerminated(s, s.users[u].employee)
    ensures replacement.None? ==> !s.users[caller].canLogin
    ensures s.nextRow !in s.rows
  {
    var id :| id in s.rows && TransferableRow(s, id, caller);
    assert IsFinal(s, id, caller);
  }

  lemma TransferKeepsAccounts(s: Access, caller: int, u: int, replacement: Option<int>)
    requires AccountInv(s) && s.nextRow !in s.rows && s.nextRow + 1 !in s.rows
    requires caller in s.users && u in s.users && caller != u
    requires !s.users[caller].isStaged && !s.users[u].isStaged
    requires !EmployeeTerminated(s, s.users[caller].employee) && !EmployeeTerminated(s, s.users[u].employee)
    requires replacement.None? ==> !s.users[caller].canLogin
    ensures AccountInv(OwnershipTransferred(s, caller, u, replacement))
  {
    var s1 := s.(rows := Revoked(s.rows, caller));
    RevokedHolds(s, caller);
    var s2 := AfterOwner(s1, caller, replacement);
    if replacement.Some? {
      WithRowHolds(s1, caller, Grant(replacement.value, AllCompanyBranches, None));
    } else {
      SameRows(s1, s2);
    }
    var s3 := s2.(rows := Revoked(s2.rows, u));
    RevokedHolds(s2, u);
    WithRowHolds(s3, u, Grant(s.ownerRole, AllCompanyBranches, None));
    SameLinks(s, OwnershipTransferred(s, caller, u, replacement));
    hide Holds, LinksAreUnique, HasRole;
  }

  lemma TransferKeeps(s: Access, caller: int, u: int, replacement: Option<int>)
    requires Inv(s) && TransferRefusal(s, caller, u, replacement).None?
    ensures Inv(OwnershipTransferred(s, caller, u, replacement))
  {
    TransferKeepsRows(s, caller, u, replacement);
    TransferParties(s, caller, u, replacement);
    hide AccountInv, OwnershipTransferred;
    TransferKeepsAccounts(s, caller, u, replacement);
  }

  // ----- employment -----

  lemma EmploymentKeeps(s: Access, e: int, row: Employee)
    requires Inv(s) && e < s.nextEmployee
    requires row.status == Terminated ==>
               forall u :: u in s.users && s.users[u].employee == Some(e) ==> IsSealed(s, u)
    ensures Inv(s.(employees := s.employees[e := row]))
  {
    var s' := s.(employees := s.employees[e := row]);
    SameRows(s, s');
    OwnersAfter(s, s');
  }

  lemma AccessEndedHolds(s: Access, e: int)
    ensures var s' := AccessEnded(s, e);
            && (forall id, v :: Holds(s', id, v) <==> Holds(s, id, v) && !Linked(s, v, e))
            && (forall v :: HasRole(s', v) <==> HasRole(s, v) && !Linked(s, v, e))
            && (forall v, f :: Linked(s', v, f) == Linked(s, v, f))
  {
    var s' := AccessEnded(s, e);
    assert forall id, v :: Holds(s', id, v) <==> Holds(s, id, v) && !Linked(s, v, e);
    assert forall v, f :: Linked(s', v, f) == Linked(s, v, f);
  }

  lemma AccessEndedKeepsRows(s: Access, e: int)
    requires RowInv(s)
    ensures RowInv(AccessEnded(s, e))
  {
    AccessEndedHolds(s, e);
    OwnersAfter(s, AccessEnded(s, e));
  }

  lemma AccessEndedKeeps(s: Access, e: int)
    requires Inv(s)
    ensures Inv(AccessEnded(s, e))
    ensures forall u :: u in s.users && s.users[u].employee == Some(e) ==> IsSealed(AccessEnded(s, e), u)
  {
    AccessEndedKeepsRows(s, e);
    AccessEndedHolds(s, e);
    SameLinks(s, AccessEnded(s, e));
    hide RowInv, Holds, HasRole, LinksAreUnique;
    assert forall u :: u in s.users && s.users[u].employee == Some(e) ==> Linked(s, u, e);
  }

  lemma EndingCommutes(s: Access, e: int)
    requires e in s.employees
    ensures AccessEnded(WithStatus(s, e, Terminated), e)
         == AccessEnded(s, e).(employees := s.employees[e := s.employees[e].(status := Terminated)])
  {
    assert forall u :: Linked(WithStatus(s, e, Terminated), u, e) == Linked(s, u, e);
  }

  /** Status and access are changed together, in either order. */
  lemma TerminationKeeps(s: Access, e: int)
    requires Inv(s) && e in s.employees
    ensures Inv(AccessEnded(WithStatus(s, e, Terminated), e))
  {
    AccessEndedKeeps(s, e);
    EmploymentKeepsNext(s, e);
    EndingCommutes(s, e);
    hide Inv, IsSealed;
    EmploymentKeeps(AccessEnded(s, e), e, s.employees[e].(status := Terminated));
  }

  lemma EmploymentKeepsNext(s: Access, e: int)
    requires Inv(s) && e in s.employees
    ensures e < s.nextEmployee
  {
  }

  lemma NewEmployeeKeeps(s: Access, status: EmploymentStatus)
    requires Inv(s)
    ensures Inv(s.(employees := s.employees[s.nextEmployee := Employee(status, false)], nextEmployee := s.nextEmployee + 1))
  {
    var s1 := s.(nextEmployee := s.nextEmployee + 1);
    SameRows(s, s1);
    OwnersAfter(s, s1);
    EmploymentKeeps(s1, s.nextEmployee, Employee(status, false));
  }

  /** Every request, by any caller, keeps the invariant. */
  lemma NextKeeps(s: Access, caller: int, r: Request, around: Surroundings)
    requires Inv(s)
    ensures Inv(Next(s, caller, r, around))
  {
    hide Inv, CreateUserRefusal, LinkRefusal, UnlinkRefusal, ProvisionRefusal, UpdateUserRefusal, AssignRefusal;
    hide RevokeRefusal, TransferRefusal, OverridesRefusal, RolePermissionsRefusal, UpdateRoleRefusal, ArchiveRefusal;
    hide UserCreated, UserLinked, UserUnlinked, UserProvisioned, UserUpdated, RoleAssigned, RoleRevoked, RoleCreated;
    hide OwnershipTransferred, OverridesSet, RolePermissionsSet, RoleUpdated, RoleArchivedIn, StatusSet, AccessEnded;
    if Refuses(s, caller, r, around).None? {
      match r {
        case CreateUser(_, _, _, _, _) => CreateUserKeeps(s, caller, r, around.driving);
        case LinkEmployee(u, e) => LinkKeeps(s, caller, u, e);
        case UnlinkEmployee(u) => UnlinkKeeps(s, caller, u);
        case Provision(u, g, login) => ProvisionKeeps(s, caller, u, g, login, around.driving);
        case UpdateUser(_, _, _, _) => UpdateUserKeeps(s, caller, r);
        case AssignRole(u, g) => AssignKeeps(s, caller, u, g, around.driving);
        case RevokeRole(u, id) => RevokeKeeps(s, caller, u, id);
        case TransferOwnership(u, replacement) => TransferKeeps(s, caller, u, replacement);
        case SetOverrides(u, codes) => OverridesKeep(s, caller, u, codes);
        case SetRolePermissions(role, codes) => RolePermissionsKeep(s, caller, role, codes);
        case CreateRole => CreateRoleKeeps(s);
        case UpdateRole(role, rename, activate) => UpdateRoleKeeps(s, caller, role, rename, activate);
        case ArchiveRole(role) => ArchiveKeeps(s, caller, role);
        case CreateEmployee(status) => NewEmployeeKeeps(s, status);
        case CreateDriver(e) => CreateDriverKeeps(s, e);
        case SetStatus(e, status) => StatusKeeps(s, e, status);
        case TerminateDriver(e) => TerminationKeeps(s, e);
      }
    }
  }

  lemma CreateDriverKeeps(s: Access, e: int)
    requires Inv(s) && e in s.employees
    ensures Inv(s.(employees := s.employees[e := s.employees[e].(isDriver := true)]))
  {
    EmploymentKeeps(s, e, s.employees[e].(isDriver := true));
  }

  lemma StatusKeeps(s: Access, e: int, status: EmploymentStatus)
    requires Inv(s) && e in s.employees
    ensures Inv(StatusSet(s, e, status))
  {
    if status == Terminated && s.employees[e].status != Terminated {
      TerminationKeeps(s, e);
    } else {
      EmploymentKeeps(s, e, s.employees[e].(status := status));
    }
  }

  /** The invariant holds in every state of every run. */
  lemma {:induction false} RunKeeps(s: Access, events: seq<Event>)
    requires Inv(s)
    ensures Inv(Replay(s, events))
  {
    if events != [] {
      var n := |events| - 1;
      RunKeeps(s, events[..n]);
      NextKeeps(Replay(s, events[..n]), events[n].caller, events[n].request, events[n].around);
    }
  }
}
