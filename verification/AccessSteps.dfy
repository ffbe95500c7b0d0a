/**
 * The account lifecycle as a specification: for every request, who is refused and why, and what
 * the tables are afterwards. A refused request changes nothing.
 */
module AccessSteps {
  import opened Base
  import opened AccessModel

  datatype Request =
    | CreateUser(employee: Option<int>, isActive: bool, login: bool, staged: bool, first: Option<Grant>)
    | LinkEmployee(target: int, linkTo: int)
    | UnlinkEmployee(target: int)
    | Provision(target: int, grant: Grant, login: bool)
    | UpdateUser(target: int, otherFields: bool, activate: Option<bool>, allowLogin: Option<bool>)
    | AssignRole(target: int, grant: Grant)
    | RevokeRole(target: int, row: int)
    | TransferOwnership(target: int, replacement: Option<int>)
    | SetOverrides(target: int, codes: set<Code>)
    | SetRolePermissions(role: int, codes: set<Code>)
    | CreateRole
    | UpdateRole(role: int, rename: bool, activate: Option<bool>)
    | ArchiveRole(role: int)
    | CreateEmployee(status: EmploymentStatus)
    | CreateDriver(worker: int)
    | SetStatus(worker: int, status: EmploymentStatus)
    | TerminateDriver(worker: int)

  /** What other domains decide: who drives right now, and whether Workforce lets the caller write. */
  datatype Surroundings = Surroundings(driving: set<int>, workforceAllows: bool)

  // ----- row changes -----

  function Revoked(rows: map<int, Assignment>, u: int): map<int, Assignment> {
    map id | id in rows :: if rows[id].user == u then rows[id].(isActive := false) else rows[id]
  }

  function WithRow(s: Access, u: int, g: Grant): Access {
    s.(rows := s.rows[s.nextRow := Assignment(u, g, true)], nextRow := s.nextRow + 1)
  }

  function WithUser(s: Access, u: int, row: User): Access {
    s.(users := s.users[u := row])
  }

  // ----- accounts -----

  function CreateUserRefusal(s: Access, caller: int, r: Request, driving: set<int>): Option<Refusal>
    requires r.CreateUser?
  {
    if !MayAny(s, caller, {UsersCreate}) then Some(Forbidden)
    else if r.staged && (r.login || r.first.Some?) then Some(StagedMustBeBare)
    else if !r.staged && !MayAny(s, caller, {UsersEdit, RolesEdit}) then Some(Forbidden)
    else if !r.staged && r.first.None? then Some(RoleRequired)
    else if r.employee.Some? && LinkTargetRefusal(s, r.employee.value).Some? then LinkTargetRefusal(s, r.employee.value)
    else if r.first.None? then None
    else if GrantRefusal(s, r.employee, r.first.value, driving).Some? then GrantRefusal(s, r.employee, r.first.value, driving)
    else if !CanGrant(s, caller, CodesOf(s, r.first.value.role)) then Some(GrantCeilingExceeded)
    else None
  }

  function UserCreated(s: Access, r: Request): Access
    requires r.CreateUser?
  {
    var u := s.nextUser;
    var s1 := WithUser(s, u, User(r.employee, r.isActive, r.login, r.staged, {})).(nextUser := u + 1);
    if r.first.Some? then WithRow(s1, u, r.first.value) else s1
  }

  function LinkRefusal(s: Access, caller: int, u: int, e: int): Option<Refusal> {
    if !MayAny(s, caller, {UsersEdit}) then Some(Forbidden)
    else if u !in s.users then Some(UserNotFound)
    else if s.users[u].employee == Some(e) then None
    else if s.users[u].employee.Some? then Some(AlreadyLinked)
    else LinkTargetRefusal(s, e)
  }

  function UserLinked(s: Access, u: int, e: int): Access
    requires u in s.users
  {
    WithUser(s, u, s.users[u].(employee := Some(e)))
  }

  function UnlinkRefusal(s: Access, caller: int, u: int): Option<Refusal> {
    if !MayAny(s, caller, {UsersEdit}) then Some(Forbidden)
    else if u !in s.users then Some(UserNotFound)
    else if s.users[u].employee.None? then None
    else if s.users[u].employee.value !in s.employees then Some(EmployeeNotFound)
    else if EmployeeTerminated(s, s.users[u].employee) then Some(EmployeeIsTerminated)
    else if exists id :: id in s.rows && HoldsKind(s, id, u, DriverRole) then Some(DriverRoleActive)
    else None
  }

  function UserUnlinked(s: Access, u: int): Access
    requires u in s.users
  {
    WithUser(s, u, s.users[u].(employee := None))
  }

  function ProvisionRefusal(s: Access, caller: int, u: int, g: Grant, driving: set<int>): Option<Refusal> {
    if !MayAny(s, caller, {UsersEdit}) then Some(Forbidden)
    else if u !in s.users then Some(UserNotFound)
    else if !s.users[u].isStaged then Some(UserNotStaged)
    else if HasRole(s, u) then Some(AlreadyHasRole)
    else if GrantRefusal(s, s.users[u].employee, g, driving).Some? then GrantRefusal(s, s.users[u].employee, g, driving)
    else if !CanGrant(s, caller, CodesOf(s, g.role)) then Some(GrantCeilingExceeded)
    else None
  }

  function UserProvisioned(s: Access, u: int, g: Grant, login: bool): Access
    requires u in s.users
  {
    WithUser(WithRow(s, u, g), u, s.users[u].(isStaged := false, canLogin := login))
  }

  function UpdateUserRefusal(s: Access, caller: int, r: Request): Option<Refusal>
    requires r.UpdateUser?
  {
    var u := r.target;
    if (r.otherFields || r.allowLogin.Some?) && !MayAny(s, caller, {UsersEdit}) then Some(Forbidden)
    else if !r.otherFields && r.allowLogin.None? && r.activate.Some? && !MayAny(s, caller, {UsersDeactivate, UsersEdit})
    then Some(Forbidden)
    else if !InCompanyScope(s, caller) then Some(Forbidden)
    else if u !in s.users then Some(UserNotFound)
    else if r.allowLogin == Some(true) && s.users[u].isStaged then Some(UserIsStaged)
    else if r.allowLogin == Some(true) && EmployeeTerminated(s, s.users[u].employee) then Some(EmployeeIsTerminated)
    else if r.allowLogin == Some(true) && !HasRole(s, u) then Some(RoleRequired)
    else if u == caller && (r.activate == Some(false) || r.allowLogin == Some(false)) then Some(OwnAccountProtected)
    else None
  }

  function UserUpdated(s: Access, r: Request): Access
    requires r.UpdateUser? && r.target in s.users
  {
    var row := s.users[r.target];
    WithUser(s, r.target, row.(
      isActive := if r.activate.Some? then r.activate.value else row.isActive,
      canLogin := if r.allowLogin.Some? then r.allowLogin.value else row.canLogin))
  }

  // ----- role assignments -----

  function AssignRefusal(s: Access, caller: int, u: int, g: Grant, driving: set<int>): Option<Refusal> {
    if !MayAny(s, caller, {UsersEdit, RolesEdit}) then Some(Forbidden)
    else if caller == u then Some(SelfAccessChange)
    else if u !in s.users || !s.users[u].isActive then Some(UserNotFound)
    else if s.users[u].isStaged then Some(UserIsStaged)
    else if g.role !in s.roles then Some(RoleNotFound)
    else if s.roles[g.role].isArchived then Some(RoleArchived)
    else if !s.roles[g.role].isActive then Some(RoleInactive)
    else if s.roles[g.role].kind == OwnerRole then Some(OwnerOnlyByTransfer)
    else if GrantRefusal(s, s.users[u].employee, g, driving).Some? then GrantRefusal(s, s.users[u].employee, g, driving)
    else if !CanGrant(s, caller, CodesOf(s, g.role)) then Some(GrantCeilingExceeded)
    else if s.roles[g.role].kind == DriverRole && s.users[u].overrides != {} then Some(ClearOverridesFirst)
    else None
  }

  function RoleAssigned(s: Access, u: int, g: Grant): Access {
    WithRow(s.(rows := Revoked(s.rows, u)), u, g)
  }

  function RevokeRefusal(s: Access, caller: int, u: int, id: int): Option<Refusal> {
    if !MayAny(s, caller, {UsersEdit, RolesEdit}) then Some(Forbidden)
    else if caller == u then Some(SelfAccessChange)
    else if u !in s.users then Some(UserNotFound)
    else if id !in s.rows || s.rows[id].user != u then Some(AssignmentNotFound)
    else if KindOf(s, s.rows[id].grant.role) == OwnerRole then Some(OwnerOnlyByTransfer)
    else if IsFinal(s, id, u) && s.users[u].canLogin then Some(DisableLoginFirst)
    else None
  }

  function RoleRevoked(s: Access, u: int, id: int): Access
    requires u in s.users && id in s.rows
  {
    var s1 := s.(rows := s.rows[id := s.rows[id].(isActive := false)]);
    if IsFinal(s, id, u) then WithUser(s1, u, s.users[u].(isStaged := true)) else s1
  }

  // ----- ownership -----

  predicate TransferableRow(s: Access, id: int, u: int) {
    Holds(s, id, u) && s.rows[id].grant == Grant(s.ownerRole, AllCompanyBranches, None)
  }

  function ReplacementRefusal(s: Access, role: int): Option<Refusal> {
    if role !in s.roles then Some(RoleNotFound)
    else if s.roles[role].isArchived then Some(RoleArchived)
    else if !s.roles[role].isActive then Some(RoleInactive)
    else if s.roles[role].kind != OtherRole then Some(ReplacementNotAllowed)
    else None
  }

  predicate HasFinalRole(s: Access, u: int) {
    exists id :: id in s.rows && IsFinal(s, id, u)
  }

  function TransferRefusal(s: Access, caller: int, u: int, replacement: Option<int>): Option<Refusal> {
    if s.ownerRole !in s.roles || !s.roles[s.ownerRole].isActive then Some(OwnerRoleInactive)
    else if caller !in s.users || !s.users[caller].isActive then Some(UserNotFound)
    else if s.users[caller].isStaged then Some(UserIsStaged)
    else if s.users[caller].canLogin && !InCompanyScope(s, caller) then Some(Forbidden)
    else if !s.users[caller].canLogin && !IsOwner(s, caller) then Some(Forbidden)
    else if !(exists id :: id in s.rows && TransferableRow(s, id, caller)) then Some(NotTheOwner)
    else if u == caller then Some(TransferToSelf)
    else if u !in s.users then Some(UserNotFound)
    else if !s.users[u].isActive then Some(UserNotActive)
    else if !s.users[u].canLogin then Some(TargetMustLogIn)
    else if replacement.Some? && ReplacementRefusal(s, replacement.value).Some? then ReplacementRefusal(s, replacement.value)
    else if replacement.None? && HasFinalRole(s, caller) && s.users[caller].canLogin then Some(ReplacementRequired)
    else None
  }

  function OwnershipTransferred(s: Access, caller: int, u: int, replacement: Option<int>): Access
    requires caller in s.users
  {
    var s1 := s.(rows := Revoked(s.rows, caller));
    var s2 := if replacement.Some? then WithRow(s1, caller, Grant(replacement.value, AllCompanyBranches, None))
              else WithUser(s1, caller, s.users[caller].(isStaged := true));
    WithRow(s2.(rows := Revoked(s2.rows, u)), u, Grant(s.ownerRole, AllCompanyBranches, None))
  }

  // ----- permissions and roles -----

  function OverridesRefusal(s: Access, caller: int, u: int, codes: set<Code>): Option<Refusal> {
    if !MayAny(s, caller, {UsersEdit}) then Some(Forbidden)
    else if caller == u then Some(SelfAccessChange)
    else if u !in s.users then Some(UserNotFound)
    else if IsOwner(s, u) then Some(OwnerHasAll)
    else if codes != {} && IsDriverSubject(s, u) then Some(DriverTakesNoPermissions)
    else if !(codes <= s.catalogue) then Some(UnknownCode)
    else if WithParents(codes) - s.users[u].overrides != {} && EmployeeTerminated(s, s.users[u].employee)
    then Some(EmployeeIsTerminated)
    else if !CanGrant(s, caller, WithParents(codes) - s.users[u].overrides) then Some(GrantCeilingExceeded)
    else None
  }

  function OverridesSet(s: Access, u: int, codes: set<Code>): Access
    requires u in s.users
  {
    WithUser(s, u, s.users[u].(overrides := WithParents(codes)))
  }

  predicate HoldsRole(s: Access, u: int, role: int) {
    exists id :: id in s.rows && Holds(s, id, u) && s.rows[id].grant.role == role
  }

  function RolePermissionsRefusal(s: Access, caller: int, role: int, codes: set<Code>): Option<Refusal> {
    if !MayAny(s, caller, {RolesEdit}) then Some(Forbidden)
    else if role !in s.roles || s.roles[role].isArchived then Some(RoleNotFound)
    else if s.roles[role].isProtected && s.roles[role].kind == OwnerRole then Some(OwnerPermissionsAreAutomatic)
    else if !IsOwner(s, caller) && HoldsRole(s, caller, role) then Some(OwnRolePermissionsEdit)
    else if s.roles[role].kind == DriverRole && codes != {} then Some(DriverTakesNoPermissions)
    else if !(codes <= s.catalogue) then Some(UnknownCode)
    else if !CanGrant(s, caller, WithParents(codes) - s.roles[role].codes) then Some(GrantCeilingExceeded)
    else None
  }

  function WithRole(s: Access, role: int, row: Role): Access {
    s.(roles := s.roles[role := row])
  }

  function RolePermissionsSet(s: Access, role: int, codes: set<Code>): Access
    requires role in s.roles
  {
    WithRole(s, role, s.roles[role].(codes := WithParents(codes)))
  }

  function CreateRoleRefusal(s: Access, caller: int): Option<Refusal> {
    if !MayAny(s, caller, {RolesCreate}) then Some(Forbidden) else None
  }

  function RoleCreated(s: Access): Access {
    WithRole(s, s.nextRole, Role(OtherRole, false, true, false, {})).(nextRole := s.nextRole + 1)
  }

  function UpdateRoleRefusal(s: Access, caller: int, role: int, rename: bool): Option<Refusal> {
    if !MayAny(s, caller, {RolesEdit}) then Some(Forbidden)
    else if role !in s.roles || s.roles[role].isArchived then Some(RoleNotFound)
    else if rename && s.roles[role].isProtected then Some(RoleProtected)
    else None
  }

  function RoleUpdated(s: Access, role: int, activate: Option<bool>): Access
    requires role in s.roles
  {
    WithRole(s, role, s.roles[role].(isActive := if activate.Some? then activate.value else s.roles[role].isActive))
  }

  predicate UsesRole(s: Access, id: int, role: int) {
    id in s.rows && s.rows[id].isActive && s.rows[id].grant.role == role
  }

  function ArchiveRefusal(s: Access, caller: int, role: int): Option<Refusal> {
    if !MayAny(s, caller, {RolesDelete}) then Some(Forbidden)
    else if role !in s.roles then Some(RoleNotFound)
    else if s.roles[role].isProtected then Some(RoleProtected)
    else if exists id :: id in s.rows && UsesRole(s, id, role) then Some(RoleInUse)
    else None
  }

  function RoleArchivedIn(s: Access, role: int): Access
    requires role in s.roles
  {
    WithRole(s, role, s.roles[role].(isArchived := true))
  }

  // ----- employment -----

  function TerminationRefusal(s: Access, caller: int, e: int): Option<Refusal> {
    if exists u :: u in s.users && Linked(s, u, e) && IsOwner(s, u) then Some(OwnerTermination)
    else if caller in s.users && Linked(s, caller, e) then Some(OwnTermination)
    else None
  }

  /** The linked account loses its roles, its extra permissions and its sign-in, and is staged. */
  function AccessEnded(s: Access, e: int): Access {
    s.(rows := map id | id in s.rows ::
                 if Linked(s, s.rows[id].user, e) then s.rows[id].(isActive := false) else s.rows[id],
       users := map u | u in s.users ::
                  if Linked(s, u, e) then User(Some(e), false, false, true, {}) else s.users[u])
  }

  function WithStatus(s: Access, e: int, status: EmploymentStatus): Access
    requires e in s.employees
  {
    s.(employees := s.employees[e := s.employees[e].(status := status)])
  }

  function StatusRefusal(s: Access, caller: int, e: int, status: EmploymentStatus, allowed: bool): Option<Refusal> {
    if e !in s.employees then Some(EmployeeNotFound)
    else if !allowed then Some(WorkforceRefused)
    else if status == s.employees[e].status then None
    else if s.employees[e].isDriver then Some(WorkforceControlled)
    else if status == Terminated then TerminationRefusal(s, caller, e)
    else None
  }

  function StatusSet(s: Access, e: int, status: EmploymentStatus): Access
    requires e in s.employees
  {
    if status == Terminated && s.employees[e].status != Terminated
    then AccessEnded(WithStatus(s, e, status), e) else WithStatus(s, e, status)
  }

  function TerminateDriverRefusal(s: Access, caller: int, e: int, allowed: bool): Option<Refusal> {
    if e !in s.employees then Some(EmployeeNotFound)
    else if s.employees[e].status == Terminated then Some(AlreadyTerminated)
    else if TerminationRefusal(s, caller, e).Some? then TerminationRefusal(s, caller, e)
    else if !s.employees[e].isDriver || !allowed then Some(WorkforceRefused)
    else None
  }

  function CreateDriverRefusal(s: Access, e: int, allowed: bool): Option<Refusal> {
    if e !in s.employees then Some(EmployeeNotFound)
    else if !allowed || s.employees[e].isDriver then Some(WorkforceRefused)
    else None
  }

  // ----- one request -----

  function Refuses(s: Access, caller: int, r: Request, around: Surroundings): Option<Refusal> {
    match r
    case CreateUser(_, _, _, _, _) => CreateUserRefusal(s, caller, r, around.driving)
    case LinkEmployee(u, e) => LinkRefusal(s, caller, u, e)
    case UnlinkEmployee(u) => UnlinkRefusal(s, caller, u)
    case Provision(u, g, _) => ProvisionRefusal(s, caller, u, g, around.driving)
    case UpdateUser(_, _, _, _) => UpdateUserRefusal(s, caller, r)
    case AssignRole(u, g) => AssignRefusal(s, caller, u, g, around.driving)
    case RevokeRole(u, id) => RevokeRefusal(s, caller, u, id)
    case TransferOwnership(u, replacement) => TransferRefusal(s, caller, u, replacement)
    case SetOverrides(u, codes) => OverridesRefusal(s, caller, u, codes)
    case SetRolePermissions(role, codes) => RolePermissionsRefusal(s, caller, role, codes)
    case CreateRole => CreateRoleRefusal(s, caller)
    case UpdateRole(role, rename, _) => UpdateRoleRefusal(s, caller, role, rename)
    case ArchiveRole(role) => ArchiveRefusal(s, caller, role)
    case CreateEmployee(_) => if around.workforceAllows then None else Some(WorkforceRefused)
    case CreateDriver(e) => CreateDriverRefusal(s, e, around.workforceAllows)
    case SetStatus(e, status) => StatusRefusal(s, caller, e, status, around.workforceAllows)
    case TerminateDriver(e) => TerminateDriverRefusal(s, caller, e, around.workforceAllows)
  }

  function Performed(s: Access, caller: int, r: Request, around: Surroundings): Access
    requires Refuses(s, caller, r, around).None?
  {
    match r
    case CreateUser(_, _, _, _, _) => UserCreated(s, r)
    case LinkEmployee(u, e) => UserLinked(s, u, e)
    case UnlinkEmployee(u) => UserUnlinked(s, u)
    case Provision(u, g, login) => UserProvisioned(s, u, g, login)
    case UpdateUser(_, _, _, _) => UserUpdated(s, r)
    case AssignRole(u, g) => RoleAssigned(s, u, g)
    case RevokeRole(u, id) => RoleRevoked(s, u, id)
    case TransferOwnership(u, replacement) => OwnershipTransferred(s, caller, u, replacement)
    case SetOverrides(u, codes) => OverridesSet(s, u, codes)
    case SetRolePermissions(role, codes) => RolePermissionsSet(s, role, codes)
    case CreateRole => RoleCreated(s)
    case UpdateRole(role, _, activate) => RoleUpdated(s, role, activate)
    case ArchiveRole(role) => RoleArchivedIn(s, role)
    case CreateEmployee(status) =>
      s.(employees := s.employees[s.nextEmployee := Employee(status, false)], nextEmployee := s.nextEmployee + 1)
    case CreateDriver(e) => s.(employees := s.employees[e := s.employees[e].(isDriver := true)])
    case SetStatus(e, status) => StatusSet(s, e, status)
    case TerminateDriver(e) => AccessEnded(WithStatus(s, e, Terminated), e)
  }

  /** A request by a caller: performed, or refused with everything left as it was. */
  function Next(s: Access, caller: int, r: Request, around: Surroundings): Access {
    if Refuses(s, caller, r, around).None? then Performed(s, caller, r, around) else s
  }

  datatype Event = Event(caller: int, request: Request, around: Surroundings)

  function Replay(s: Access, events: seq<Event>): Access {
    if events == [] then s
    else
      var n := |events| - 1;
      Next(Replay(s, events[..n]), events[n].caller, events[n].request, events[n].around)
  }
}
