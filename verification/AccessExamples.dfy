/**
 * Concrete companies: the invariant is satisfiable, a termination can be undone, a company can
 * lose its owner, and a DRIVER can have extra permissions.
 */
module AccessExamples {
  import opened Base
  import opened AccessModel
  import opened AccessSteps
  import opened AccessInvariant
  import opened AccessTheorems
  import opened AccessRules

  const OWNER := 1
  const CLERK := 2
  const OWNER_ROLE_ID := 1
  const CLERK_ROLE_ID := 2
  const WORKER := 7

  function OwnerAccount(): User { User(None, true, true, false, {}) }

  function ClerkAccount(): User { User(Some(WORKER), false, false, true, {}) }

  /** An owner, and a clerk whose Employee has been terminated or not. */
  function SmallCompany(status: EmploymentStatus): Access {
    Access(
      map[OWNER := OwnerAccount(), CLERK := ClerkAccount()],
      map[OWNER_ROLE_ID := Role(OwnerRole, true, true, false, {}), CLERK_ROLE_ID := Role(OtherRole, false, true, false, {})],
      map[1 := Assignment(OWNER, Grant(OWNER_ROLE_ID, AllCompanyBranches, None), true)],
      map[WORKER := Employee(status, false)],
      OWNER_ROLE_ID, {}, {UsersEdit}, 3, 3, 2, 8)
  }

  lemma SmallCompanyIsSound(status: EmploymentStatus)
    ensures Inv(SmallCompany(status)) && !HasRole(SmallCompany(status), CLERK)
  {
    assert Holds(SmallCompany(status), 1, OWNER);
  }

  lemma OwnerMayEdit(status: EmploymentStatus)
    ensures IsOwner(SmallCompany(status), OWNER)
    ensures MayAny(SmallCompany(status), OWNER, {UsersEdit})
  {
    var s := SmallCompany(status);
    assert Holds(s, 1, OWNER) && OwnerRow(s, 1, OWNER) && AllCompanyRow(s, 1, OWNER);
    assert HasPermission(s, OWNER, None, UsersEdit);
  }

  function Around(): Surroundings { Surroundings({}, true) }

  function ClerkGrant(): Grant { Grant(CLERK_ROLE_ID, AllCompanyBranches, None) }

  lemma Reinstated()
    ensures Next(SmallCompany(Terminated), OWNER, SetStatus(WORKER, Active), Around()) == SmallCompany(Active)
  {
  }

  lemma Provisioned()
    ensures var s' := Next(SmallCompany(Active), OWNER, Provision(CLERK, ClerkGrant(), true), Around());
            CLERK in s'.users && s'.users[CLERK].canLogin && Linked(s', CLERK, WORKER)
  {
    SmallCompanyIsSound(Active);
    OwnerMayEdit(Active);
    hide Inv, MayAny, IsOwner, HasRole;
    assert CodesOf(SmallCompany(Active), CLERK_ROLE_ID) == {};
    assert ProvisionRefusal(SmallCompany(Active), OWNER, CLERK, ClerkGrant(), {}).None?;
  }

  /**
   * The seal is not for ever: an Employee without a Driver can be moved from Terminated back to
   * Active, and the account, still linked and staged, can then be provisioned with login.
   */
  lemma ReinstatementBreaksTheSeal() returns (s: Access, events: seq<Event>)
    ensures Inv(s) && TerminatedNow(s, WORKER) && Linked(s, CLERK, WORKER) && IsSealed(s, CLERK)
    ensures CLERK in Replay(s, events).users && Replay(s, events).users[CLERK].canLogin
    ensures Linked(Replay(s, events), CLERK, WORKER)
  {
    s := SmallCompany(Terminated);
    SmallCompanyIsSound(Terminated);
    events := [Event(OWNER, SetStatus(WORKER, Active), Around()), Event(OWNER, Provision(CLERK, ClerkGrant(), true), Around())];
    Reinstated();
    Provisioned();
    hide Next, Inv, IsOwner, HasRole;
    assert events[..1][..0] == [];
    assert Replay(s, events[..1]) == SmallCompany(Active);
  }

  // ----- a company with a manager and a DRIVER role -----

  const MANAGER := 3
  const MANAGER_ROLE_ID := 3
  const DRIVER_ROLE_ID := 4

  function ManagerCodes(): set<Code> { {UsersEdit, View(Users)} }

  function ManagerAccount(): User { User(None, true, true, false, {}) }

  /** An owner, a manager who may edit users, and a clerk who is to become a DRIVER. */
  function LargerCompany(clerkCodes: set<Code>): Access {
    Access(
      map[OWNER := OwnerAccount(), CLERK := ClerkAccount().(overrides := clerkCodes), MANAGER := ManagerAccount()],
      map[OWNER_ROLE_ID := Role(OwnerRole, true, true, false, {}),
          CLERK_ROLE_ID := Role(OtherRole, false, true, false, {}),
          MANAGER_ROLE_ID := Role(OtherRole, false, true, false, ManagerCodes()),
          DRIVER_ROLE_ID := Role(DriverRole, true, true, false, {})],
      map[1 := Assignment(OWNER, Grant(OWNER_ROLE_ID, AllCompanyBranches, None), true),
          2 := Assignment(MANAGER, Grant(MANAGER_ROLE_ID, AllCompanyBranches, None), true)],
      map[WORKER := Employee(Active, true)],
      OWNER_ROLE_ID, {}, ManagerCodes(), 4, 5, 3, 8)
  }

  lemma HoldersInLargerCompany(clerkCodes: set<Code>)
    ensures var s := LargerCompany(clerkCodes);
            && HasRole(s, OWNER) && HasRole(s, MANAGER) && !HasRole(s, CLERK)
            && (forall id, u :: Holds(s, id, u) <==> (id == 1 && u == OWNER) || (id == 2 && u == MANAGER))
  {
    var s := LargerCompany(clerkCodes);
    assert Holds(s, 1, OWNER) && Holds(s, 2, MANAGER);
  }

  lemma LargerRowsAreSound(clerkCodes: set<Code>)
    ensures RowInv(LargerCompany(clerkCodes))
  {
    HoldersInLargerCompany(clerkCodes);
    hide HasRole;
  }

  lemma LargerCompanyIsSound(clerkCodes: set<Code>)
    ensures Inv(LargerCompany(clerkCodes)) && DriversBare(LargerCompany(clerkCodes))
    ensures !HasRole(LargerCompany(clerkCodes), CLERK)
  {
    LargerRowsAreSound(clerkCodes);
    HoldersInLargerCompany(clerkCodes);
    hide HasRole, Holds, RowInv;
  }

  lemma ManagerMayEdit(clerkCodes: set<Code>)
    ensures MayAny(LargerCompany(clerkCodes), MANAGER, {UsersEdit, RolesEdit})
    ensures MayAny(LargerCompany(clerkCodes), MANAGER, {UsersEdit})
    ensures CanGrant(LargerCompany(clerkCodes), MANAGER, ManagerCodes())
  {
    var s := LargerCompany(clerkCodes);
    assert Holds(s, 2, MANAGER) && AllCompanyRow(s, 2, MANAGER);
    forall c | c in ManagerCodes() ensures HasPermission(s, MANAGER, None, c) {
      assert GrantsCode(s, 2, MANAGER, None, c);
    }
  }

  // ----- the owner is assigned an ordinary role -----

  lemma OwnerReassigned()
    ensures var s := LargerCompany({});
            OwnerIsReassigned(s, MANAGER, AssignRole(OWNER, ClerkGrant()), Around())
  {
    var s := LargerCompany({});
    assert Holds(s, 1, OWNER) && OwnerRow(s, 1, OWNER);
    ManagerMayEdit({});
    hide Inv, MayAny, HasRole;
    assert CodesOf(s, CLERK_ROLE_ID) == {};
    assert AssignRefusal(s, MANAGER, OWNER, ClerkGrant(), {}).None?;
  }

  /**
   * A manager who may edit users gives the owner a role without codes; the company then has no
   * owner, whatever requests follow.
   */
  lemma OwnerIsLostForGood() returns (s: Access, r: Request)
    ensures Inv(s) && HasOwner(s) && !IsOwner(s, MANAGER)
    ensures !HasOwner(Next(s, MANAGER, r, Around()))
    ensures forall events :: OwnerlessAfter(Next(s, MANAGER, r, Around()), events)
  {
    s := LargerCompany({});
    r := AssignRole(OWNER, ClerkGrant());
    LargerCompanyIsSound({});
    assert Holds(s, 1, OWNER) && ActiveOwnerRow(s, 1);
    assert HasOwner(s);
    OwnerHoldsOwnerRow(s, 1);
    OwnerReassigned();
    hide Next, Inv, IsOwner, HasOwner, ActiveOwnerRow, OwnerIsReassigned;
    OwnerIsKeptUnlessReassigned(s, MANAGER, r, Around());
    NextKeeps(s, MANAGER, r, Around());
    forall events ensures OwnerlessAfter(Next(s, MANAGER, r, Around()), events) {
      OwnerlessForGood(Next(s, MANAGER, r, Around()), events);
    }
  }

  // ----- a DRIVER with extra permissions -----

  function DriverGrant(): Grant { Grant(DRIVER_ROLE_ID, SelfOnly, None) }

  function Driving(): Surroundings { Surroundings({WORKER}, true) }

  lemma StagedClerkTakesCodes()
    ensures Next(LargerCompany({}), MANAGER, SetOverrides(CLERK, ManagerCodes()), Driving()) == LargerCompany(ManagerCodes())
  {
    var s := LargerCompany({});
    LargerCompanyIsSound({});
    ManagerMayEdit({});
    hide Inv, MayAny, HasRole, CanGrant;
    assert !IsOwner(s, CLERK) && !IsDriverSubject(s, CLERK);
    assert WithParents(ManagerCodes()) == ManagerCodes();
    assert ManagerCodes() - s.users[CLERK].overrides == ManagerCodes();
    assert OverridesRefusal(s, MANAGER, CLERK, ManagerCodes()).None?;
    assert OverridesSet(s, CLERK, ManagerCodes()) == LargerCompany(ManagerCodes());
  }

  lemma LadenClerkIsProvisioned()
    ensures ProvisionsLadenDriver(LargerCompany(ManagerCodes()), MANAGER, Provision(CLERK, DriverGrant(), true), Driving())
  {
    var s := LargerCompany(ManagerCodes());
    LargerCompanyIsSound(ManagerCodes());
    ManagerMayEdit(ManagerCodes());
    hide Inv, MayAny, HasRole;
    assert CodesOf(s, DRIVER_ROLE_ID) == {};
    assert ProvisionRefusal(s, MANAGER, CLERK, DriverGrant(), {WORKER}).None?;
    assert UsersEdit in s.users[CLERK].overrides;
  }

  /** Extra permissions given to the staged account survive its provisioning as DRIVER. */
  lemma DriverEndsUpLaden() returns (s: Access, events: seq<Event>)
    ensures Inv(s) && DriversBare(s) && !DriversBare(Replay(s, events))
  {
    s := LargerCompany({});
    LargerCompanyIsSound({});
    LargerCompanyIsSound(ManagerCodes());
    events := [Event(MANAGER, SetOverrides(CLERK, ManagerCodes()), Driving()),
               Event(MANAGER, Provision(CLERK, DriverGrant(), true), Driving())];
    StagedClerkTakesCodes();
    LadenClerkIsProvisioned();
    LadenDriverIsLaden(LargerCompany(ManagerCodes()), MANAGER, events[1].request, Driving());
    hide Next, Inv, ProvisionsLadenDriver, DriversBare;
    assert events[..1][..0] == [];
    assert Replay(s, events[..1]) == LargerCompany(ManagerCodes());
  }
}
