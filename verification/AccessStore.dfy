/**
 * The account services as they write: row by row, each row passing the database's triggers and
 * constraints. Every service is proved to perform exactly its specified request, and never to
 * have a row write rejected on the way.
 */
module AccessStore {
  import opened Base
  import opened AccessModel
  import opened AccessSteps
  import opened AccessInvariant

  /** The owner-uniqueness trigger accepts a write exactly when at most one owner remains. */
  lemma OwnerTriggerIsExact(s: Access, id: int, r: Assignment)
    requires AtMostOneOwner(s)
    ensures OwnerUniqueAccepts(s, id, r) <==> AtMostOneOwner(s.(rows := s.rows[id := r]))
  {
    var s' := s.(rows := s.rows[id := r]);
    if !OwnerUniqueAccepts(s, id, r) {
      var other :| other in s.rows && other != id && ActiveOwnerRow(s, other);
      assert ActiveOwnerRow(s', other) && ActiveOwnerRow(s', id);
    } else {
      assert forall other :: other != id && ActiveOwnerRow(s', other) ==> ActiveOwnerRow(s, other);
    }
  }

  lemma NextRowsAreFree(s: Access)
    requires RowInv(s)
    ensures s.nextRow !in s.rows && s.nextRow + 1 !in s.rows
  {
  }

  lemma RevokingIsAccepted(s: Access, id: int)
    requires WellScoped(s) && id in s.rows
    ensures RowAccepted(s, id, s.rows[id].(isActive := false))
  {
  }

  /** The one-pass dependency loop over the chosen codes. */
  method Normalize(codes: set<Code>) returns (normalized: set<Code>)
    ensures normalized == WithParents(codes)
  {
    normalized := codes;
    var todo := codes;
    while todo != {}
      invariant todo <= codes
      invariant normalized == codes + set c | c in codes - todo && Parent(c).Some? :: Parent(c).value
    {
      var code := AnyMember(todo);
      if Parent(code).Some? && Parent(code).value !in normalized {
        normalized := normalized + {Parent(code).value};
      }
      todo := todo - {code};
    }
  }

  class Store {
    var users: map<int, User>
    var roles: map<int, Role>
    var rows: map<int, Assignment>
    var employees: map<int, Employee>
    const ownerRole: int
    const branches: set<int>
    const catalogue: set<Code>
    var nextUser: int
    var nextRole: int
    var nextRow: int
    var nextEmployee: int

    function State(): Access
      reads this
    {
      Access(users, roles, rows, employees, ownerRole, branches, catalogue, nextUser, nextRole, nextRow, nextEmployee)
    }

    constructor (s: Access)
      ensures State() == s
    {
      users, roles, rows, employees := s.users, s.roles, s.rows, s.employees;
      ownerRole, branches, catalogue := s.ownerRole, s.branches, s.catalogue;
      nextUser, nextRole, nextRow, nextEmployee := s.nextUser, s.nextRole, s.nextRow, s.nextEmployee;
    }

    // ----- single row writes -----

    /** Insert or update one assignment row; the triggers and indexes may reject it. */
    method PutRow(id: int, row: Assignment) returns (accepted: bool)
      modifies this`rows
      ensures accepted == RowAccepted(old(State()), id, row)
      ensures State() == if accepted then old(State()).(rows := old(rows)[id := row]) else old(State())
      ensures accepted && AtMostOneOwner(old(State())) ==> AtMostOneOwner(State())
    {
      accepted := RowAccepted(State(), id, row);
      if accepted {
        ghost var before := State();
        rows := rows[id := row];
        if AtMostOneOwner(before) {
          OwnerTriggerIsExact(before, id, row);
        }
      }
    }

    method InsertRow(u: int, g: Grant) returns (id: int)
      requires RowInv(State()) && RoleMayBeAdded(State(), u, g)
      modifies this`rows, this`nextRow
      ensures State() == WithRow(old(State()), u, g) && id == old(nextRow)
      ensures RowInv(State())
    {
      id := nextRow;
      ghost var before := State();
      AdditionIsAccepted(before, u, g);
      var accepted := PutRow(id, Assignment(u, g, true));
      assert accepted;
      nextRow := nextRow + 1;
      WithRowKeepsRows(before, u, g);
    }

    /** Revoke every active assignment of a user, one row after another. */
    method RevokeAll(u: int)
      requires RowInv(State())
      modifies this`rows
      ensures State() == old(State()).(rows := Revoked(old(rows), u))
      ensures RowInv(State()) && !HasRole(State(), u)
    {
      ghost var before := State();
      var todo := set id | id in rows && rows[id].isActive && rows[id].user == u;
      NothingRevokedYet(before.rows, u, todo);
      while |todo| > 0
        invariant todo <= before.rows.Keys && forall id :: id in todo ==> before.rows[id].user == u
        invariant State() == before.(rows := RevokedExcept(before.rows, u, todo))
        invariant WellScoped(State()) && AtMostOneOwner(State())
        decreases |todo|
      {
        hide AtMostOneOwner, RowInv, RevokedExcept;
        var id := AnyMember(todo);
        OneMoreRevoked(before.rows, u, todo, id);
        RevokingIsAccepted(State(), id);
        var accepted := PutRow(id, rows[id].(isActive := false));
        assert accepted;
        RevokedStaysWellScoped(before, u, todo - {id});
        todo := todo - {id};
      }
      NoneLeft(todo);
      AllRevoked(before.rows, u, todo);
      RevokedHolds(before, u);
      RevokedKeepsRows(before, u);
    }

    /** Insert or update one account row; the constraints may reject it. */
    method PutUser(u: int, row: User) returns (accepted: bool)
      modifies this`users
      ensures accepted == UserAccepted(old(State()), u, row)
      ensures State() == if accepted then WithUser(old(State()), u, row) else old(State())
    {
      accepted := UserAccepted(State(), u, row);
      if accepted {
        users := users[u := row];
      }
    }

    /** Replace a user's active extra permissions; they are rows of a table of their own. */
    method PutOverrides(u: int, codes: set<Code>)
      requires u in users
      modifies this`users
      ensures State() == WithUser(old(State()), u, old(users[u]).(overrides := codes))
    {
      users := users[u := users[u].(overrides := codes)];
    }

    // ----- services -----

    /** The account row and, for a provisioned account, its first assignment. */
    method InsertAccount(r: Request)
      requires r.CreateUser? && Inv(State())
      requires UserAccepted(State(), nextUser, User(r.employee, r.isActive, r.login, r.staged, {}))
      requires RowInv(AccountInserted(State(), r))
      requires r.first.Some? ==> RoleMayBeAdded(AccountInserted(State(), r), nextUser, r.first.value)
      modifies this`users, this`nextUser, this`rows, this`nextRow
      ensures State() == UserCreated(old(State()), r)
    {
      hide Inv, RowInv, RoleMayBeAdded, UserAccepted;
      var u := nextUser;
      var accepted := PutUser(u, User(r.employee, r.isActive, r.login, r.staged, {}));
      assert accepted;
      nextUser := nextUser + 1;
      if r.first.Some? {
        var id := InsertRow(u, r.first.value);
      }
    }

    method CreateUser(caller: int, r: Request, around: Surroundings) returns (refusal: Option<Refusal>)
      requires Inv(State()) && r.CreateUser?
      modifies this
      ensures refusal == Refuses(old(State()), caller, r, around)
      ensures State() == Next(old(State()), caller, r, around) && Inv(State())
      ensures refusal.None? ==>
                && old(nextUser) !in old(users)
                && users == old(users)[old(nextUser) := User(r.employee, r.isActive, r.login, r.staged, {})]
                && (r.first.None? ==> rows == old(rows))
                && (r.first.Some? ==>
                      && old(nextRow) !in old(rows)
                      && rows == old(rows)[old(nextRow) := Assignment(old(nextUser), r.first.value, true)])
      ensures roles == old(roles) && employees == old(employees)
      ensures refusal.Some? ==> users == old(users) && rows == old(rows)
    {
      refusal := CreateUserRefusal(State(), caller, r, around.driving);
      if refusal.Some? {
        return;
      }
      CreateUserKeeps(State(), caller, r, around.driving);
      CreationIsAccepted(State(), caller, r, around.driving);
      InsertAccount(r);
    }

    method LinkEmployee(caller: int, u: int, e: int, around: Surroundings) returns (refusal: Option<Refusal>)
      requires Inv(State())
      modifies this
      ensures refusal == Refuses(old(State()), caller, Request.LinkEmployee(u, e), around)
      ensures State() == Next(old(State()), caller, Request.LinkEmployee(u, e), around) && Inv(State())
      ensures refusal.None? ==>
                u in old(users) && users == old(users)[u := old(users[u]).(employee := Some(e))]
      ensures refusal.Some? ==> users == old(users)
      ensures rows == old(rows) && roles == old(roles) && employees == old(employees)
    {
      hide RowInv, StagedIffNoRole, TerminatedAreSealed, MayAny, HasRole;
      refusal := LinkRefusal(State(), caller, u, e);
      if refusal.Some? {
        return;
      }
      LinkKeeps(State(), caller, u, e);
      if users[u].employee == Some(e) {
        assert UserLinked(State(), u, e) == State();
        return;
      }
      assert forall other :: other in users && users[other].employee == Some(e) ==> Linked(State(), other, e);
      var accepted := PutUser(u, users[u].(employee := Some(e)));
      assert accepted;
    }

    method UnlinkEmployee(caller: int, u: int, around: Surroundings) returns (refusal: Option<Refusal>)
      requires Inv(State())
      modifies this
      ensures refusal == Refuses(old(State()), caller, Request.UnlinkEmployee(u), around)
      ensures State() == Next(old(State()), caller, Request.UnlinkEmployee(u), around) && Inv(State())
      ensures refusal.None? ==> u in old(users) && users == old(users)[u := old(users[u]).(employee := None)]
      ensures refusal.Some? ==> users == old(users)
      ensures rows == old(rows) && roles == old(roles) && employees == old(employees)
    {
      hide RowInv, StagedIffNoRole, TerminatedAreSealed, MayAny, HasRole;
      refusal := UnlinkRefusal(State(), caller, u);
      if refusal.Some? {
        return;
      }
      UnlinkKeeps(State(), caller, u);
      if users[u].employee.None? {
        assert UserUnlinked(State(), u) == State();
        return;
      }
      var accepted := PutUser(u, users[u].(employee := None));
      assert accepted;
    }

    method Provision(caller: int, u: int, g: Grant, login: bool, around: Surroundings) returns (refusal: Option<Refusal>)
      requires Inv(State())
      modifies this
      ensures refusal == Refuses(old(State()), caller, Request.Provision(u, g, login), around)
      ensures State() == Next(old(State()), caller, Request.Provision(u, g, login), around) && Inv(State())
      ensures refusal.None? ==>
                && u in old(users) && old(nextRow) !in old(rows)
                && users == old(users)[u := old(users[u]).(isStaged := false, canLogin := login)]
                && rows == old(rows)[old(nextRow) := Assignment(u, g, true)]
      ensures refusal.Some? ==> users == old(users) && rows == old(rows)
      ensures roles == old(roles) && employees == old(employees)
    {
      refusal := ProvisionRefusal(State(), caller, u, g, around.driving);
      if refusal.Some? {
        return;
      }
      ProvisionKeeps(State(), caller, u, g, login, around.driving);
      CheckedGrantMayBeAdded(State(), u, g, around.driving);
      UniqueLink(State(), u);
      var id := InsertRow(u, g);
      var accepted := PutUser(u, users[u].(isStaged := false, canLogin := login));
      assert accepted;
    }

    method UpdateUser(caller: int, r: Request, around: Surroundings) returns (refusal: Option<Refusal>)
      requires Inv(State()) && r.UpdateUser?
      modifies this
      ensures refusal == Refuses(old(State()), caller, r, around)
      ensures State() == Next(old(State()), caller, r, around) && Inv(State())
      ensures refusal.None? ==>
                && r.target in old(users)
                && users == old(users)[r.target := old(users)[r.target].(
                              isActive := if r.activate.Some? then r.activate.value else old(users)[r.target].isActive,
                              canLogin := if r.allowLogin.Some? then r.allowLogin.value else old(users)[r.target].canLogin)]
      ensures refusal.Some? ==> users == old(users)
      ensures rows == old(rows) && roles == old(roles) && employees == old(employees)
    {
      hide RowInv, StagedIffNoRole, TerminatedAreSealed, MayAny, HasRole;
      refusal := UpdateUserRefusal(State(), caller, r);
      if refusal.Some? {
        return;
      }
      UpdateUserKeeps(State(), caller, r);
      UniqueLink(State(), r.target);
      var row := users[r.target];
      if r.activate.Some? {
        row := row.(isActive := r.activate.value);
      }
      if r.allowLogin.Some? {
        row := row.(canLogin := r.allowLogin.value);
      }
      var accepted := PutUser(r.target, row);
      assert accepted;
    }

    method AssignRole(caller: int, u: int, g: Grant, around: Surroundings) returns (refusal: Option<Refusal>)
      requires Inv(State())
      modifies this
      ensures refusal == Refuses(old(State()), caller, Request.AssignRole(u, g), around)
      ensures State() == Next(old(State()), caller, Request.AssignRole(u, g), around) && Inv(State())
      ensures refusal.None? ==>
                && old(nextRow) !in old(rows) && rows.Keys == old(rows.Keys) + {old(nextRow)}
                && rows[old(nextRow)] == Assignment(u, g, true)
                && (forall id :: id in old(rows) && old(rows)[id].user == u ==> rows[id] == old(rows)[id].(isActive := false))
                && (forall id :: id in old(rows) && old(rows)[id].user != u ==> rows[id] == old(rows)[id])
      ensures refusal.Some? ==> rows == old(rows)
      ensures users == old(users) && roles == old(roles) && employees == old(employees)
    {
      NextRowsAreFree(State());
      hide RowInv, AccountInv, RoleMayBeAdded, HasRole, AssignRefusal;
      refusal := AssignRefusal(State(), caller, u, g, around.driving);
      if refusal.Some? {
        return;
      }
      AssignKeeps(State(), caller, u, g, around.driving);
      AssignMayProceed(State(), caller, u, g, around.driving);
      RevokeAll(u);
      var id := InsertRow(u, g);
    }

    method RevokeRole(caller: int, u: int, id: int, around: Surroundings) returns (refusal: Option<Refusal>)
      requires Inv(State())
      modifies this
      ensures refusal == Refuses(old(State()), caller, Request.RevokeRole(u, id), around)
      ensures State() == Next(old(State()), caller, Request.RevokeRole(u, id), around) && Inv(State())
      ensures refusal.None? ==>
                && id in old(rows) && old(rows)[id].user == u && u in old(users)
                && rows == old(rows)[id := old(rows)[id].(isActive := false)]
                && users == old(users)[u := old(users)[u].(isStaged := users[u].isStaged)]
                && (users[u].isStaged <==>
                      old(users)[u].isStaged || forall other :: other in rows && rows[other].user == u ==> !rows[other].isActive)
      ensures refusal.Some? ==> users == old(users) && rows == old(rows)
      ensures roles == old(roles) && employees == old(employees)
    {
      refusal := RevokeRefusal(State(), caller, u, id);
      if refusal.Some? {
        return;
      }
      RevokeKeeps(State(), caller, u, id);
      UniqueLink(State(), u);
      if !rows[id].isActive {
        assert rows == rows[id := rows[id].(isActive := false)];
        return;
      }
      var final := IsFinal(State(), id, u);
      RevokingIsAccepted(State(), id);
      var accepted := PutRow(id, rows[id].(isActive := false));
      assert accepted;
      if final {
        accepted := PutUser(u, users[u].(isStaged := true));
        assert accepted;
      }
    }

    /** Step 1 of a transfer: the caller's owner row, found and revoked. */
    method RevokeOwnerRow(caller: int)
      requires RowInv(State()) && exists id :: id in rows && TransferableRow(State(), id, caller)
      modifies this`rows
      ensures State() == old(State()).(rows := Revoked(old(rows), caller))
      ensures RowInv(State()) && !HasRole(State(), caller) && NoActiveOwner(State())
    {
      ghost var before := State();
      var id :| id in rows && TransferableRow(State(), id, caller);
      RevokingIsAccepted(State(), id);
      var accepted := PutRow(id, rows[id].(isActive := false));
      assert accepted;
      OnlyRowRevoked(before, id, caller);
    }

    /** Steps 1 and 2: the outgoing owner is left with the replacement role, or staged. */
    method GiveUpOwnership(caller: int, replacement: Option<int>)
      requires RowInv(State()) && exists id :: id in rows && TransferableRow(State(), id, caller)
      requires replacement.Some? ==> ReplacementRefusal(State(), replacement.value).None?
      requires caller in users && LinksAreUnique(State()) && (replacement.None? ==> !users[caller].canLogin)
      modifies this`rows, this`nextRow, this`users
      ensures State() == AfterOwner(old(State()).(rows := Revoked(old(rows), caller)), caller, replacement)
      ensures RowInv(State()) && NoActiveOwner(State())
    {
      UniqueLink(State(), caller);
      RevokeOwnerRow(caller);
      ghost var before := State();
      if replacement.None? {
        UserKeepsRows(before, caller, users[caller].(isStaged := true));
        var accepted := PutUser(caller, users[caller].(isStaged := true));
        assert accepted;
        NoOwnerAmong(before, State());
      } else {
        RevokeAll(caller);
        NothingToRevoke(before, caller);
        var id := InsertRow(caller, Grant(replacement.value, AllCompanyBranches, None));
        NoOwnerAmong(before, State());
      }
    }

    /** Step 3: whatever role the target has is revoked, and the target becomes the owner. */
    method TakeOwnership(u: int)
      requires RowInv(State()) && NoActiveOwner(State()) && u in users
      modifies this`rows, this`nextRow
      ensures var revoked := old(State()).(rows := Revoked(old(rows), u));
              State() == WithRow(revoked, u, Grant(ownerRole, AllCompanyBranches, None))
      ensures RowInv(State())
    {
      ghost var before := State();
      RevokeAll(u);
      NoOwnerAmong(before, State());
      var id := InsertRow(u, Grant(ownerRole, AllCompanyBranches, None));
    }

    method TransferOwnership(caller: int, u: int, replacement: Option<int>, around: Surroundings)
      returns (refusal: Option<Refusal>)
      requires Inv(State())
      modifies this
      ensures refusal == Refuses(old(State()), caller, Request.TransferOwnership(u, replacement), around)
      ensures State() == Next(old(State()), caller, Request.TransferOwnership(u, replacement), around) && Inv(State())
      ensures refusal.None? ==> HandedOver(old(State()), State(), caller, u, replacement)
      ensures refusal.Some? ==> users == old(users) && rows == old(rows)
      ensures roles == old(roles) && employees == old(employees)
    {
      hide RowInv, LinksAreUnique, HandedOver;
      refusal := TransferRefusal(State(), caller, u, replacement);
      if refusal.Some? {
        return;
      }
      TransferHandsOver(State(), caller, u, replacement);
      TransferKeeps(State(), caller, u, replacement);
      TransferParties(State(), caller, u, replacement);
      GiveUpOwnership(caller, replacement);
      TakeOwnership(u);
    }

    method SetOverrides(caller: int, u: int, codes: set<Code>, around: Surroundings) returns (refusal: Option<Refusal>)
      requires Inv(State())
      modifies this
      ensures refusal == Refuses(old(State()), caller, Request.SetOverrides(u, codes), around)
      ensures State() == Next(old(State()), caller, Request.SetOverrides(u, codes), around) && Inv(State())
      ensures refusal.None? ==>
                && u in old(users) && users.Keys == old(users.Keys)
                && (forall v :: v in users && v != u ==> users[v] == old(users)[v])
                && users[u] == old(users)[u].(overrides := users[u].overrides)
                && forall c :: c in users[u].overrides <==> c in codes || exists d :: d in codes && Parent(d) == Some(c)
      ensures refusal.Some? ==> users == old(users)
      ensures rows == old(rows) && roles == old(roles) && employees == old(employees)
    {
      refusal := OverridesRefusal(State(), caller, u, codes);
      if refusal.Some? {
        return;
      }
      OverridesKeep(State(), caller, u, codes);
      var normalized := Normalize(codes);
      PutOverrides(u, normalized);
    }

    /** Delete all codes of a role, then insert the new ones one by one. */
    method ReplaceCodes(role: int, codes: set<Code>)
      requires role in roles
      modifies this`roles
      ensures State() == WithRole(old(State()), role, old(roles[role]).(codes := codes))
    {
      roles := roles[role := roles[role].(codes := {})];
      var todo := codes;
      assert codes - todo == {};
      while todo != {}
        invariant todo <= codes && role in roles
        invariant roles == old(roles)[role := old(roles[role]).(codes := codes - todo)]
      {
        var code := AnyMember(todo);
        roles := roles[role := roles[role].(codes := roles[role].codes + {code})];
        assert codes - (todo - {code}) == codes - todo + {code};
        todo := todo - {code};
      }
      assert codes - todo == codes;
    }

    method SetRolePermissions(caller: int, role: int, codes: set<Code>, around: Surroundings)
      returns (refusal: Option<Refusal>)
      requires Inv(State())
      modifies this
      ensures refusal == Refuses(old(State()), caller, Request.SetRolePermissions(role, codes), around)
      ensures State() == Next(old(State()), caller, Request.SetRolePermissions(role, codes), around) && Inv(State())
      ensures refusal.None? ==>
                && role in old(roles) && roles.Keys == old(roles.Keys)
                && (forall r :: r in roles && r != role ==> roles[r] == old(roles)[r])
                && roles[role] == old(roles)[role].(codes := roles[role].codes)
                && forall c :: c in roles[role].codes <==> c in codes || exists d :: d in codes && Parent(d) == Some(c)
      ensures refusal.Some? ==> roles == old(roles)
      ensures users == old(users) && rows == old(rows) && employees == old(employees)
    {
      refusal := RolePermissionsRefusal(State(), caller, role, codes);
      if refusal.Some? {
        return;
      }
      RolePermissionsKeep(State(), caller, role, codes);
      var normalized := Normalize(codes);
      ReplaceCodes(role, normalized);
    }

    method CreateRole(caller: int, around: Surroundings) returns (refusal: Option<Refusal>)
      requires Inv(State())
      modifies this
      ensures refusal == Refuses(old(State()), caller, Request.CreateRole, around)
      ensures State() == Next(old(State()), caller, Request.CreateRole, around) && Inv(State())
      ensures refusal.None? ==>
                && old(nextRole) !in old(roles) && roles.Keys == old(roles.Keys) + {old(nextRole)}
                && roles[old(nextRole)] == Role(OtherRole, false, true, false, {})
                && (forall r :: r in old(roles) ==> roles[r] == old(roles)[r])
                && (forall u :: !HoldsRole(State(), u, old(nextRole)))
      ensures users == old(users) && rows == old(rows) && employees == old(employees)
    {
      refusal := CreateRoleRefusal(State(), caller);
      if refusal.None? {
        CreateRoleKeeps(State());
        NewRoleIsUnheld(State());
        roles, nextRole := roles[nextRole := Role(OtherRole, false, true, false, {})], nextRole + 1;
      }
    }

    method UpdateRole(caller: int, role: int, rename: bool, activate: Option<bool>, around: Surroundings)
      returns (refusal: Option<Refusal>)
      requires Inv(State())
      modifies this
      ensures refusal == Refuses(old(State()), caller, Request.UpdateRole(role, rename, activate), around)
      ensures State() == Next(old(State()), caller, Request.UpdateRole(role, rename, activate), around) && Inv(State())
      ensures refusal.None? ==>
                && roles.Keys == old(roles.Keys) && (forall r :: r in roles && r != role ==> roles[r] == old(roles)[r])
                && role in old(roles) && roles[role] == old(roles)[role].(isActive := roles[role].isActive)
                && roles[role].isActive == (if activate.Some? then activate.value else old(roles[role].isActive))
                && !roles[role].isArchived && (rename ==> !roles[role].isProtected)
      ensures users == old(users) && rows == old(rows) && employees == old(employees)
    {
      hide Inv, MayAny;
      refusal := UpdateRoleRefusal(State(), caller, role, rename);
      if refusal.None? {
        UpdateRoleKeeps(State(), caller, role, rename, activate);
        if activate.Some? {
          roles := roles[role := roles[role].(isActive := activate.value)];
        } else {
          assert roles == roles[role := roles[role]];
        }
      }
    }

    method ArchiveRole(caller: int, role: int, around: Surroundings) returns (refusal: Option<Refusal>)
      requires Inv(State())
      modifies this
      ensures refusal == Refuses(old(State()), caller, Request.ArchiveRole(role), around)
      ensures State() == Next(old(State()), caller, Request.ArchiveRole(role), around) && Inv(State())
      ensures refusal.None? ==>
                && role in old(roles) && roles[role] == old(roles)[role].(isArchived := true) && !roles[role].isProtected
                && (forall id :: id in rows && rows[id].isActive ==> rows[id].grant.role != role)
                && roles.Keys == old(roles.Keys) && (forall r :: r in roles && r != role ==> roles[r] == old(roles)[r])
      ensures users == old(users) && rows == old(rows) && employees == old(employees)
    {
      refusal := ArchiveRefusal(State(), caller, role);
      if refusal.None? {
        ArchiveKeeps(State(), caller, role);
        assert forall u, id :: id in rows && Holds(State(), id, u) && rows[id].grant.role == role ==> UsesRole(State(), id, role);
        roles := roles[role := roles[role].(isArchived := true)];
      }
    }

    /** End the linked account's access inside the termination, if there is such an account. */
    method EndAccess(e: int)
      requires RowInv(State()) && LinksAreUnique(State())
      modifies this`rows, this`users
      ensures State() == AccessEnded(old(State()), e)
      ensures users.Keys == old(users.Keys) && rows.Keys == old(rows.Keys)
              && (forall v :: v in users ==>
                    users[v] == if old(users)[v].employee == Some(e) then User(Some(e), false, false, true, {}) else old(users)[v])
              && (forall id :: id in rows ==>
                    rows[id] == if old(rows)[id].user in old(users) && old(users)[old(rows)[id].user].employee == Some(e)
                              then old(rows)[id].(isActive := false) else old(rows)[id])
    {
      ghost var before := State();
      if u :| u in users && Linked(State(), u, e) {
        UniqueLink(State(), u);
        RevokeAll(u);
        PutOverrides(u, {});
        var accepted := PutUser(u, users[u].(canLogin := false, isActive := false, isStaged := true));
        assert accepted;
        OnlyLinkedEnds(before, u, e);
      } else {
        assert users == AccessEnded(before, e).users;
        assert rows == AccessEnded(before, e).rows;
      }
    }

    method TerminateDriver(caller: int, e: int, around: Surroundings) returns (refusal: Option<Refusal>)
      requires Inv(State())
      modifies this
      ensures refusal == Refuses(old(State()), caller, Request.TerminateDriver(e), around)
      ensures State() == Next(old(State()), caller, Request.TerminateDriver(e), around) && Inv(State())
      ensures refusal.None? ==>
                && e in old(employees) && employees == old(employees)[e := old(employees)[e].(status := Terminated)]
                && users.Keys == old(users.Keys) && rows.Keys == old(rows.Keys)
                && (forall v :: v in users ==>
                      users[v] == if old(users)[v].employee == Some(e) then User(Some(e), false, false, true, {}) else old(users)[v])
                && (forall id :: id in rows ==>
                      rows[id] == if old(rows)[id].user in old(users) && old(users)[old(rows)[id].user].employee == Some(e)
                                  then old(rows)[id].(isActive := false) else old(rows)[id])
      ensures refusal.Some? ==> users == old(users) && rows == old(rows) && employees == old(employees)
      ensures roles == old(roles)
    {
      refusal := TerminateDriverRefusal(State(), caller, e, around.workforceAllows);
      if refusal.None? {
        TerminationKeeps(State(), e);
        SetStatusColumn(e, Terminated);
        EndAccess(e);
      }
    }

    method SetStatusColumn(e: int, status: EmploymentStatus)
      requires Inv(State()) && e in employees
      modifies this`employees
      ensures State() == WithStatus(old(State()), e, status)
      ensures RowInv(State()) && LinksAreUnique(State())
    {
      StatusKeepsRows(State(), e, status);
      employees := employees[e := employees[e].(status := status)];
    }

    method SetStatus(caller: int, e: int, status: EmploymentStatus, around: Surroundings) returns (refusal: Option<Refusal>)
      requires Inv(State())
      modifies this
      ensures refusal == Refuses(old(State()), caller, Request.SetStatus(e, status), around)
      ensures State() == Next(old(State()), caller, Request.SetStatus(e, status), around) && Inv(State())
      ensures refusal.None? ==>
                e in old(employees) && employees == old(employees)[e := old(employees)[e].(status := status)]
      ensures refusal.None? && status == Terminated && old(employees)[e].status != Terminated ==>
                && users.Keys == old(users.Keys) && rows.Keys == old(rows.Keys)
                && (forall v :: v in users ==>
                      users[v] == if old(users)[v].employee == Some(e) then User(Some(e), false, false, true, {}) else old(users)[v])
                && (forall id :: id in rows ==>
                      rows[id] == if old(rows)[id].user in old(users) && old(users)[old(rows)[id].user].employee == Some(e)
                                  then old(rows)[id].(isActive := false) else old(rows)[id])
      ensures !(refusal.None? && status == Terminated && old(employees)[e].status != Terminated) ==>
                users == old(users) && rows == old(rows)
      ensures refusal.Some? ==> employees == old(employees)
      ensures roles == old(roles)
    {
      refusal := StatusRefusal(State(), caller, e, status, around.workforceAllows);
      if refusal.None? {
        StatusKeeps(State(), e, status);
        var terminating := status == Terminated && employees[e].status != Terminated;
        SetStatusColumn(e, status);
        if terminating {
          EndAccess(e);
        }
      }
    }
  }

  /**
   * All roles of both are revoked; then the caller has the replacement role, company-wide, or is
   * staged, and the target is the one company-wide owner.
   */
  ghost predicate HandedOver(s: Access, s': Access, caller: int, u: int, replacement: Option<int>) {
    && caller in s.users && s.nextRow !in s.rows && s.nextRow + 1 !in s.rows
    && (forall id :: id in s.rows ==>
          && id in s'.rows && s'.rows[id].user == s.rows[id].user && s'.rows[id].grant == s.rows[id].grant
          && (s'.rows[id].isActive <==> s.rows[id].isActive && s.rows[id].user != caller && s.rows[id].user != u))
    && (if replacement.Some? then
          && s'.users == s.users && s'.rows.Keys == s.rows.Keys + {s.nextRow, s.nextRow + 1}
          && s'.rows[s.nextRow] == Assignment(caller, Grant(replacement.value, AllCompanyBranches, None), true)
          && s'.rows[s.nextRow + 1] == Assignment(u, Grant(s.ownerRole, AllCompanyBranches, None), true)
        else
          && s'.users == s.users[caller := s.users[caller].(isStaged := true)]
          && s'.rows.Keys == s.rows.Keys + {s.nextRow}
          && s'.rows[s.nextRow] == Assignment(u, Grant(s.ownerRole, AllCompanyBranches, None), true))
  }

  lemma TransferHandsOver(s: Access, caller: int, u: int, replacement: Option<int>)
    requires Inv(s) && TransferRefusal(s, caller, u, replacement).None?
    ensures HandedOver(s, OwnershipTransferred(s, caller, u, replacement), caller, u, replacement)
  {
    NextRowsAreFree(s);
    hide Inv, InCompanyScope, IsOwner, HasFinalRole, ReplacementRefusal, OwnershipTransferred, HandedOver;
    OrderedWritesHandOver(s, caller, u, replacement);
  }

  lemma OrderedWritesHandOver(s: Access, caller: int, u: int, replacement: Option<int>)
    requires caller in s.users && u != caller && s.nextRow !in s.rows && s.nextRow + 1 !in s.rows
    ensures HandedOver(s, OwnershipTransferred(s, caller, u, replacement), caller, u, replacement)
  {
  }

  /** What passed the checks may be inserted once the account's other roles are revoked. */
  lemma AssignMayProceed(s: Access, caller: int, u: int, g: Grant, driving: set<int>)
    requires AssignRefusal(s, caller, u, g, driving).None?
    ensures RoleMayBeAdded(s.(rows := Revoked(s.rows, u)), u, g)
  {
    RevokedHolds(s, u);
    CheckedGrantMayBeAdded(s.(rows := Revoked(s.rows, u)), u, g, driving);
  }

  ghost predicate NoActiveOwner(s: Access) {
    forall id :: !ActiveOwnerRow(s, id)
  }

  lemma NoOwnerAmong(s: Access, s': Access)
    requires NoActiveOwner(s)
    requires forall id :: ActiveOwnerRow(s', id) ==> ActiveOwnerRow(s, id)
    ensures NoActiveOwner(s')
  {
  }

  /** Revoking a user's only active row revokes all of them. */
  lemma OnlyRowRevoked(s: Access, id: int, u: int)
    requires RowInv(s) && id in s.rows && TransferableRow(s, id, u)
    ensures var s' := s.(rows := s.rows[id := s.rows[id].(isActive := false)]);
            && s' == s.(rows := Revoked(s.rows, u)) && RowInv(s') && !HasRole(s', u) && NoActiveOwner(s')
  {
    var s' := s.(rows := s.rows[id := s.rows[id].(isActive := false)]);
    forall other | other in s.rows ensures s'.rows[other] == Revoked(s.rows, u)[other] {
      assert s.rows[other].isActive ==> Holds(s, other, s.rows[other].user);
    }
    assert s'.rows == Revoked(s.rows, u);
    RevokedHolds(s, u);
    RevokedKeepsRows(s, u);
    assert ActiveOwnerRow(s, id);
    assert forall other :: ActiveOwnerRow(s', other) ==> ActiveOwnerRow(s, other);
  }

  lemma NothingToRevoke(s: Access, u: int)
    requires !HasRole(s, u)
    ensures Revoked(s.rows, u) == s.rows
  {
    forall id | id in s.rows ensures Revoked(s.rows, u)[id] == s.rows[id] {
      assert !Holds(s, id, u);
    }
  }

  lemma OnlyLinkedEnds(s: Access, u: int, e: int)
    requires LinksAreUnique(s) && Linked(s, u, e)
    ensures AccessEnded(s, e) == s.(rows := Revoked(s.rows, u), users := s.users[u := User(Some(e), false, false, true, {})])
  {
    assert forall v :: Linked(s, v, e) <==> v == u;
    assert AccessEnded(s, e).rows == Revoked(s.rows, u);
    assert AccessEnded(s, e).users == s.users[u := User(Some(e), false, false, true, {})];
  }

  lemma StatusKeepsRows(s: Access, e: int, status: EmploymentStatus)
    requires Inv(s) && e in s.employees
    ensures RowInv(WithStatus(s, e, status)) && LinksAreUnique(WithStatus(s, e, status))
  {
    var s' := WithStatus(s, e, status);
    SameRows(s, s');
    OwnersAfter(s, s');
  }

  /** The rows of a user revoked, but for those still to do. */
  function RevokedExcept(rows: map<int, Assignment>, u: int, todo: set<int>): map<int, Assignment> {
    map id | id in rows :: if rows[id].user == u && id !in todo then rows[id].(isActive := false) else rows[id]
  }

  lemma NothingRevokedYet(rows: map<int, Assignment>, u: int, todo: set<int>)
    requires forall id :: id in rows && rows[id].isActive && rows[id].user == u ==> id in todo
    ensures RevokedExcept(rows, u, todo) == rows
  {
    forall id | id in rows ensures RevokedExcept(rows, u, todo)[id] == rows[id] {
    }
  }

  lemma OneMoreRevoked(rows: map<int, Assignment>, u: int, todo: set<int>, id: int)
    requires id in todo && id in rows && rows[id].user == u
    ensures id in RevokedExcept(rows, u, todo) && RevokedExcept(rows, u, todo)[id] == rows[id]
    ensures RevokedExcept(rows, u, todo)[id := rows[id].(isActive := false)] == RevokedExcept(rows, u, todo - {id})
  {
  }

  lemma AllRevoked(rows: map<int, Assignment>, u: int, todo: set<int>)
    requires forall id :: id !in todo
    ensures RevokedExcept(rows, u, todo) == Revoked(rows, u)
  {
    forall id | id in rows ensures RevokedExcept(rows, u, todo)[id] == Revoked(rows, u)[id] {
    }
    assert RevokedExcept(rows, u, todo).Keys == Revoked(rows, u).Keys;
  }

  lemma RevokedStaysWellScoped(s: Access, u: int, todo: set<int>)
    requires WellScoped(s)
    ensures WellScoped(s.(rows := RevokedExcept(s.rows, u, todo)))
  {
  }

  lemma NoneLeft<T>(s: set<T>)
    requires |s| == 0
    ensures forall x :: x !in s
  {
  }

  lemma AdditionIsAccepted(s: Access, u: int, g: Grant)
    requires RowInv(s) && RoleMayBeAdded(s, u, g)
    ensures RowAccepted(s, s.nextRow, Assignment(u, g, true))
  {
    assert forall id :: !Holds(s, id, u);
    assert forall id :: id in s.rows && s.rows[id].isActive ==> Holds(s, id, s.rows[id].user);
    assert KindOf(s, g.role) == OwnerRole ==> forall id :: id in s.rows && s.rows[id].isActive ==> !ActiveOwnerRow(s, id);
  }

  function AccountInserted(s: Access, r: Request): Access
    requires r.CreateUser?
  {
    WithUser(s, s.nextUser, User(r.employee, r.isActive, r.login, r.staged, {})).(nextUser := s.nextUser + 1)
  }

  /** Nobody holds a role that does not exist yet. */
  lemma NewRoleIsUnheld(s: Access)
    requires Inv(s)
    ensures s.nextRole !in s.roles && forall u :: !HoldsRole(RoleCreated(s), u, s.nextRole)
  {
    forall u ensures !HoldsRole(RoleCreated(s), u, s.nextRole) {
      assert forall id :: id in s.rows ==> s.rows[id].grant.role != s.nextRole;
    }
  }

  lemma NewAccountIsAccepted(s: Access, row: User)
    requires Inv(s) && (row.canLogin ==> !row.isStaged)
    requires row.employee.Some? ==> LinkTargetRefusal(s, row.employee.value).None?
    ensures UserAccepted(s, s.nextUser, row)
  {
    assert forall other :: other in s.users && s.users[other].employee.Some? ==> Linked(s, other, s.users[other].employee.value);
  }

  lemma CreationIsAccepted(s: Access, caller: int, r: Request, driving: set<int>)
    requires Inv(s) && r.CreateUser? && CreateUserRefusal(s, caller, r, driving).None?
    ensures UserAccepted(s, s.nextUser, User(r.employee, r.isActive, r.login, r.staged, {}))
    ensures RowInv(AccountInserted(s, r))
    ensures r.first.Some? ==> RoleMayBeAdded(AccountInserted(s, r), s.nextUser, r.first.value)
  {
    hide Inv, NewlyInserted, MayAny, CanGrant, HasRole, UserAccepted, RoleMayBeAdded, RowInv;
    var row := User(r.employee, r.isActive, r.login, r.staged, {});
    NewAccountIsAccepted(s, row);
    NewAccountKeeps(s, s.nextUser, row);
    InsertedRows(AccountInserted(s, r), s.nextUser);
    if r.first.Some? {
      NewlyInsertedHasNoRole(AccountInserted(s, r), s.nextUser);
      CheckedGrantMayBeAdded(AccountInserted(s, r), s.nextUser, r.first.value, driving);
    }
  }

  lemma InsertedRows(s: Access, u: int)
    requires Inv(s) || NewlyInserted(s, u)
    ensures RowInv(s)
  {
  }
}
