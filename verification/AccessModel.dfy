/**
 * Accounts, roles and permissions of one company: the tables, the database's permission
 * function and row triggers, and the decisions every service makes before it writes.
 */
module AccessModel {
  import opened Base

  // ----- the tables -----

  datatype Area =
    | Company | Branches | Roles | Users | Payroll | PayItems
    | PayRates | Drivers | Dispatch | Settings | Employees | Ledger

  datatype Code =
    | View(area: Area)
    | CompanyEdit | BranchesCreate | BranchesEdit | RolesCreate | RolesEdit | RolesDelete
    | UsersCreate | UsersEdit | UsersDeactivate
    | PayrollEdit | PayrollEntry | PayrollPeriodCreate | PayrollApprove | PayrollFinalize
    | PayItemsEdit | PayRatesEdit | DriversCreate | DriversEdit | DispatchEdit
    | SettingsManage | EmployeesManage | LedgerAuditView
    | OtherCode(name: string)

  datatype RoleKind = OwnerRole | DriverRole | OtherRole

  datatype Scope = AllCompanyBranches | SpecificBranch | SelfOnly

  datatype EmploymentStatus = Active | Inactive | Terminated

  datatype User = User(employee: Option<int>, isActive: bool, canLogin: bool, isStaged: bool, overrides: set<Code>)

  datatype Role = Role(kind: RoleKind, isProtected: bool, isActive: bool, isArchived: bool, codes: set<Code>)

  datatype Grant = Grant(role: int, scope: Scope, branch: Option<int>)

  datatype Assignment = Assignment(user: int, grant: Grant, isActive: bool)

  datatype Employee = Employee(status: EmploymentStatus, isDriver: bool)

  /**
   * One company. Role codes are unique in it, so ownerRole is the one role coded COMPANY_OWNER.
   * The next identifiers stand for the tables' sequences.
   */
  datatype Access = Access(
    users: map<int, User>, roles: map<int, Role>, rows: map<int, Assignment>, employees: map<int, Employee>,
    ownerRole: int, branches: set<int>, catalogue: set<Code>,
    nextUser: int, nextRole: int, nextRow: int, nextEmployee: int)

  datatype Refusal =
    | Forbidden | SelfAccessChange | GrantCeilingExceeded | OwnRolePermissionsEdit
    | EmployeeIsTerminated | OwnerTermination | OwnTermination
    | UserNotFound | UserNotActive | UserIsStaged | UserNotStaged | AlreadyHasRole
    | RoleNotFound | RoleArchived | RoleInactive | OwnerOnlyByTransfer | RoleProtected | RoleInUse
    | DriverNeedsEmployee | DriverNeedsSelf | BranchMustBeNull | EmployeeNotFound | NoCurrentDriver
    | SelfOnlyForDriver | BranchRequired | BranchNotFound
    | ClearOverridesFirst | AssignmentNotFound | DisableLoginFirst
    | StagedMustBeBare | RoleRequired | AlreadyLinked | EmployeeAlreadyLinked | DriverRoleActive
    | OwnAccountProtected | NotTheOwner | TransferToSelf | TargetMustLogIn | ReplacementNotAllowed
    | ReplacementRequired | OwnerRoleInactive | OwnerPermissionsAreAutomatic | OwnerHasAll
    | DriverTakesNoPermissions | UnknownCode | WorkforceControlled | AlreadyTerminated | WorkforceRefused

  // ----- reading the tables -----

  function KindOf(s: Access, role: int): RoleKind {
    if role in s.roles then s.roles[role].kind else OtherRole
  }

  predicate Holds(s: Access, id: int, u: int) {
    id in s.rows && s.rows[id].isActive && s.rows[id].user == u
  }

  predicate HoldsKind(s: Access, id: int, u: int, k: RoleKind) {
    Holds(s, id, u) && KindOf(s, s.rows[id].grant.role) == k
  }

  predicate HasRole(s: Access, u: int) {
    exists id :: id in s.rows && Holds(s, id, u)
  }

  /** The active assignment is the user's only one. */
  predicate IsFinal(s: Access, id: int, u: int) {
    Holds(s, id, u) && forall other :: other in s.rows && Holds(s, other, u) ==> other == id
  }

  predicate CompanyWide(g: Grant) {
    g.scope == AllCompanyBranches && g.branch == None
  }

  predicate OwnerRow(s: Access, id: int, u: int) {
    HoldsKind(s, id, u, OwnerRole) && CompanyWide(s.rows[id].grant)
  }

  predicate IsOwner(s: Access, u: int) {
    exists id :: id in s.rows && OwnerRow(s, id, u)
  }

  predicate DriverRow(s: Access, id: int, u: int) {
    Holds(s, id, u) && (s.rows[id].grant.scope == SelfOnly || KindOf(s, s.rows[id].grant.role) == DriverRole)
  }

  predicate IsDriverSubject(s: Access, u: int) {
    exists id :: id in s.rows && DriverRow(s, id, u)
  }

  function CodesOf(s: Access, role: int): set<Code> {
    if role in s.roles then s.roles[role].codes else {}
  }

  // ----- the database's permission function -----

  predicate InScope(g: Grant, branch: Option<int>) {
    CompanyWide(g) || (branch.Some? && g.scope == SpecificBranch && g.branch == branch)
  }

  predicate GrantsCode(s: Access, id: int, u: int, branch: Option<int>, c: Code) {
    Holds(s, id, u) && c in CodesOf(s, s.rows[id].grant.role) && InScope(s.rows[id].grant, branch)
  }

  predicate ReachesBranch(s: Access, id: int, u: int, branch: Option<int>) {
    Holds(s, id, u) && InScope(s.rows[id].grant, branch)
  }

  /** What sec.fn_UserHasPermission answers; branch None asks about the whole company. */
  predicate HasPermission(s: Access, u: int, branch: Option<int>, c: Code) {
    && u in s.users && s.users[u].isActive && s.users[u].canLogin && !s.users[u].isStaged
    && !IsDriverSubject(s, u)
    && (if IsOwner(s, u) then c in s.catalogue
        else
          || (exists id :: id in s.rows && GrantsCode(s, id, u, branch, c))
          || (c in s.users[u].overrides && exists id :: id in s.rows && ReachesBranch(s, id, u, branch)))
  }

  // ----- the row triggers and constraints -----

  /** The scope-authority trigger and the scope/branch check of one assignment row. */
  predicate ScopeAccepts(s: Access, r: Assignment) {
    && (KindOf(s, r.grant.role) == DriverRole <==> r.grant.scope == SelfOnly)
    && (r.grant.branch.Some? <==> r.grant.scope == SpecificBranch)
    && (KindOf(s, r.grant.role) == OwnerRole && r.isActive ==> CompanyWide(r.grant))
  }

  /** The owner-uniqueness trigger: no other active owner row when this one becomes active. */
  predicate OwnerUniqueAccepts(s: Access, id: int, r: Assignment) {
    r.isActive && KindOf(s, r.grant.role) == OwnerRole ==>
      forall other :: other in s.rows && other != id ==>
        !(s.rows[other].isActive && KindOf(s, s.rows[other].grant.role) == OwnerRole)
  }

  /** The unique indexes over active assignments of one user, role and scope. */
  predicate IndexAccepts(s: Access, id: int, r: Assignment) {
    r.isActive ==>
      forall other :: other in s.rows && other != id && s.rows[other].isActive ==>
        !(s.rows[other].user == r.user && s.rows[other].grant == r.grant)
  }

  predicate RowAccepted(s: Access, id: int, r: Assignment) {
    ScopeAccepts(s, r) && OwnerUniqueAccepts(s, id, r) && IndexAccepts(s, id, r)
  }

  /** The constraints of one account row: staged never logs in, and Employee links are unique. */
  predicate UserAccepted(s: Access, u: int, row: User) {
    && (row.isStaged ==> !row.canLogin)
    && (row.employee.Some? ==> row.employee.value in s.employees)
    && (row.employee.Some? ==>
          forall other :: other in s.users && other != u ==> s.users[other].employee != row.employee)
  }

  // ----- gates -----

  predicate AllCompanyRow(s: Access, id: int, u: int) {
    Holds(s, id, u) && s.rows[id].grant.scope == AllCompanyBranches
  }

  predicate InCompanyScope(s: Access, u: int) {
    && u in s.users && s.users[u].isActive && s.users[u].canLogin
    && exists id :: id in s.rows && AllCompanyRow(s, id, u)
  }

  predicate MayAny(s: Access, u: int, codes: set<Code>) {
    InCompanyScope(s, u) && exists c :: c in codes && HasPermission(s, u, None, c)
  }

  /** The grant ceiling: everything granted is held company-wide by the granter. */
  predicate CanGrant(s: Access, caller: int, codes: set<Code>) {
    codes == {} || IsOwner(s, caller) || forall c :: c in codes ==> HasPermission(s, caller, None, c)
  }

  predicate EmployeeTerminated(s: Access, employee: Option<int>) {
    employee.Some? && employee.value in s.employees && s.employees[employee.value].status == Terminated
  }

  predicate Linked(s: Access, u: int, e: int) {
    u in s.users && s.users[u].employee == Some(e)
  }

  function ScopeRefusal(s: Access, g: Grant): Option<Refusal> {
    if g.scope != SpecificBranch then
      if g.branch.Some? then Some(BranchMustBeNull) else None
    else if g.branch.None? then Some(BranchRequired)
    else if g.branch.value !in s.branches then Some(BranchNotFound)
    else None
  }

  /**
   * May this grant be given to an account with this Employee link? The Employees that have a
   * current Driver assignment at this instant are an input.
   */
  function GrantRefusal(s: Access, employee: Option<int>, g: Grant, driving: set<int>): Option<Refusal> {
    if EmployeeTerminated(s, employee) then Some(EmployeeIsTerminated)
    else if g.role !in s.roles || !s.roles[g.role].isActive || s.roles[g.role].isArchived then Some(RoleNotFound)
    else if s.roles[g.role].kind == OwnerRole then Some(OwnerOnlyByTransfer)
    else if s.roles[g.role].kind == DriverRole then
      if employee.None? then Some(DriverNeedsEmployee)
      else if g.scope != SelfOnly then Some(DriverNeedsSelf)
      else if g.branch.Some? then Some(BranchMustBeNull)
      else if employee.value !in s.employees then Some(EmployeeNotFound)
      else if employee.value !in driving then Some(NoCurrentDriver)
      else None
    else if g.scope == SelfOnly then Some(SelfOnlyForDriver)
    else ScopeRefusal(s, g)
  }

  function LinkTargetRefusal(s: Access, e: int): Option<Refusal> {
    if e !in s.employees then Some(EmployeeNotFound)
    else if EmployeeTerminated(s, Some(e)) then Some(EmployeeIsTerminated)
    else if exists u :: u in s.users && Linked(s, u, e) then Some(EmployeeAlreadyLinked)
    else None
  }

  // ----- dependent permissions -----

  /** The permission a permission depends on. */
  function Parent(c: Code): Option<Code> {
    match c
    case CompanyEdit => Some(View(Company))
    case BranchesCreate => Some(View(Branches))
    case BranchesEdit => Some(View(Branches))
    case RolesCreate => Some(View(Roles))
    case RolesEdit => Some(View(Roles))
    case RolesDelete => Some(View(Roles))
    case UsersCreate => Some(View(Users))
    case UsersEdit => Some(View(Users))
    case UsersDeactivate => Some(View(Users))
    case PayrollEdit => Some(View(Payroll))
    case PayrollEntry => Some(View(Payroll))
    case PayrollPeriodCreate => Some(View(Payroll))
    case PayrollApprove => Some(View(Payroll))
    case PayrollFinalize => Some(View(Payroll))
    case PayItemsEdit => Some(View(PayItems))
    case PayRatesEdit => Some(View(PayRates))
    case DriversCreate => Some(View(Drivers))
    case DriversEdit => Some(View(Drivers))
    case DispatchEdit => Some(View(Dispatch))
    case SettingsManage => Some(View(Settings))
    case EmployeesManage => Some(View(Employees))
    case LedgerAuditView => Some(View(Ledger))
    case _ => None
  }

  ghost predicate Closed(codes: set<Code>) {
    forall c :: c in codes && Parent(c).Some? ==> Parent(c).value in codes
  }

  /** The codes and their parents. */
  function WithParents(codes: set<Code>): set<Code> {
    codes + set c | c in codes && Parent(c).Some? :: Parent(c).value
  }

  lemma ParentsHaveNoParents(c: Code)
    ensures Parent(c).Some? ==> Parent(Parent(c).value).None?
  {
  }

  /** One pass over the chosen codes is enough: the result is the least closed superset. */
  lemma OnePassCloses(codes: set<Code>, other: set<Code>)
    ensures codes <= WithParents(codes) && Closed(WithParents(codes))
    ensures codes <= other && Closed(other) ==> WithParents(codes) <= other
  {
    forall c: Code {
      ParentsHaveNoParents(c);
    }
  }

  /** The permissions that are of no use without the view permission of their area. */
  function NeedsView(area: Area): set<Code> {
    match area
    case Company => {CompanyEdit}
    case Branches => {BranchesCreate, BranchesEdit}
    case Roles => {RolesCreate, RolesEdit, RolesDelete}
    case Users => {UsersCreate, UsersEdit, UsersDeactivate}
    case Payroll => {PayrollEdit, PayrollEntry, PayrollPeriodCreate, PayrollApprove, PayrollFinalize}
    case PayItems => {PayItemsEdit}
    case PayRates => {PayRatesEdit}
    case Drivers => {DriversCreate, DriversEdit}
    case Dispatch => {DispatchEdit}
    case Settings => {SettingsManage}
    case Employees => {EmployeesManage}
    case Ledger => {LedgerAuditView}
  }

  /** A set with its parents has a view permission if it had it or anything that needs it; nothing else is added. */
  lemma ViewsComeAlong(codes: set<Code>, c: Code)
    ensures c in WithParents(codes) <==> c in codes || (c.View? && codes * NeedsView(c.area) != {})
  {
    if c.View? {
      assert forall d :: d in NeedsView(c.area) <==> Parent(d) == Some(c);
      assert codes * NeedsView(c.area) != {} <==> exists d :: d in codes && d in NeedsView(c.area) by {
        if d :| d in codes && d in NeedsView(c.area) {
          assert d in codes * NeedsView(c.area);
        }
      }
    }
  }
}
