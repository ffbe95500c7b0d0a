# Payroll administration: verified model

A Dafny 4.11 model of the parts of the payroll administration backend whose correctness is hardest
to see from one function: effective-dated Branch configuration, the compensation lock protocol, the
account and role lifecycle, and a few hand-written scanners and validators. `dafny verify
dfyconfig.toml` checks everything.

Every request is one database transaction (`backend/app/dependencies.py:31-45`): a request that
raises leaves the tables as they were. Dates are whole numbers of days; identifiers are integers.

## Branch configuration and capacity

A PayDefinition applies to a Branch through versions with inclusive date windows. `ConfigHistory`
holds the version table and what it means: a function from keys and dates to an optional setting.
`ConfigWrites` shows that each of the four ways of writing a version is exactly "from this date on,
the new setting". `CompanyConfig.Company` is the imperative side: single statements that the database
may refuse, `ApplyConfig` over them, and the requests around it. `CapacitySweep` and `BranchCapacity`
show that the grouped event sweep answers the question it stands for. `ConfigRuns` takes all of this
to whole runs, `ConfigView` says what the current/pending pair of the screens tells, and
`ConfigExamples` has a run in which the pair hides a version and an early date is refused.

The docstring of `branch_config.py` (lines 8-11) lists three cases of a write and promises that an
earlier date replaces a pending version in place. The code has a fourth case, re-closing the
predecessor, and refuses the date when a closed version starts on or after it. The model follows the
code and shows that this is the only refusal of a write: the overlap constraint is never hit.

## Locks

`LockMachine` is a lock table with shared and exclusive modes, fair queues, re-entrant locks held to
the end, private pending writes and atomic commits. `LockProofs` and `LockTheorems` prove deadlock
freedom, termination and serialisability for any transactions that follow the protocol. `LockPaths`
gives the lock sequences of the actual paths as functions of their parameters and shows that all
follow one order:

capacity, definition request, Company row, Setup rows, Employee, accounts, transfer requests,
assignments, Branch workflow, period rows, Status keys, Branch configuration, RateDefinition
structures, PayDefinition row, configuration key, schedule rows.

`LockEffects` says which locks each path ends up with and what it does to the configuration.

The foreign keys of inserted rows share the rows they name, wherever the insert happens to stand:
every path names the account it acts for, an approval also the request's creator and submitter, and
a period's layout names its PayDefinitions. Those shares matter where somebody locks the row for
update. For PayDefinitions the structure locks keep such a writer away
(`LockSystem.PathsAreInOrder`). For accounts nothing does: termination locks the Employee's account
for update (`employee_access.py:29-36`) before the Driver's transfer requests, assignments, Branch
workflows and periods, and whoever acts as this account may already hold one of those when its first
row names the account. The two then wait for each other. `workforce/service.py:732-735` avoids the
same situation for assignments by a weaker lock.

So the paths are not free of deadlock, and `LockHazard.PairDeadlocksIff` says exactly which two of
them can deadlock: one ends the access of the account that the other acts as, and both lock a
transfer request, an assignment, a Branch workflow or a period; or two terminations of different
Employees end the access of each other's actor. That concerns period creation, Driver-owned writes,
source writes, submissions, Setup policies, transfers and terminations alike; configuration writes,
approvals, direct creations, retirements and structure changes deadlock with no other path. For any
number of transactions `LockSystem.PathsNeverDeadlock` excludes deadlock as long as none of them
names, out of order, an account whose access another one ends. Each PayDefinition is taken to have
the one RateDefinition, if any, that its writers look up (`LockSystem.AtHome`, `LockHazard.Housed`).

It refines the order written down in `branch_compensation_config_concurrency.py`. Two remarks on
where code and documentation differ. Approval inserts its own RateDefinition and PayDefinition
before it takes the Branch configuration lock, although the written order has the Branch lock first;
nobody else can hold locks on rows that are not committed yet, so only the later, shared
PayDefinition lock is part of its path. And the documentation has period creation take the Company
currency first, which `create_period_from_candidate` does not; the model allows both.

## Access

`AccessModel` has the tables, the permission function and triggers of
`migrations/sql/0092_companyrole_runtime_authority.sql`, which supersede those of migrations 0020 and
0021, and the decisions that the services share. `AccessSteps` specifies every request: who is
refused, for which reason and in which order, and the tables afterwards. `AccessStore.Store` performs
the requests as the services do, row by row against the triggers, and is proved to perform exactly
the specified request without ever having a row rejected; its contracts also say, field by field,
what each request leaves behind. `AccessGates` reads the gates off the tables, gives for every
request the exact condition under which it is accepted, and shows that no refusal gives a reason that
is not so. `AccessInvariant`, `AccessRules` and `AccessTheorems` hold what follows for every request
and every run.

Three promises do not hold as one might expect, and are proved with their exact condition and, in
`AccessExamples`, with a concrete run. An ordinary role assignment to the current owner is not
refused and leaves the company without an owner, whatever follows. A termination seals the linked
account for ever exactly if the Employee is a Driver; any other can be set Active again by
`update_employee`. And `provision_user` does not look at extra permissions, so provisioning a staged
account that has some as DRIVER, and nothing else, makes a DRIVER with extra permissions; the
permission function ignores them.

## Text scanners and validators

`StatementSplit` (the shared splitter and the regular-expression one), `InitialSplit` and
`CommentNormalizer` specify their scanners by tokens; the loops are methods proved against that.
`StatementLaws`, `NormalizerLaws` and the laws in `InitialSplit` say in terms of the text alone what
becomes of literals, comments, dollar blocks and every other character.
A line comment is removed together with its line end, so that normalising joins lines and is not
idempotent: two dashes can meet, or a dollar-quote tag be completed. `SecondPass` proves exactly
when a second pass changes nothing. `OrdinalTopology`, `ScheduleResolver` and `ReadScope` characterise
their decisions exactly. A window without a day would mislead the read scope
(`ReadScope.EmptyWindowMisleads`); tenures never produce one.

`ordinal_tier.py` (lines 11-13) promises exact contributions and one rounding of their sum. The code
rounds every contribution, and the model follows the code. The two can differ, by a quantum already
at a quantity of two (`OneRounding.HalvesAreLost`). `OneRounding.RoundsOnceIff` says exactly when
they agree for a quantity, and `RoundsOnceForAllIff` for all quantities, by finitely many of them.
They always agree for values of four decimals, the only ones that the schedule schema
(`backend/app/compensation/schemas.py:18`) accepts. `OrdinalTopology.UnitByUnitIffFine` compares
with the unrounded amount instead.

## Model

| member | source | states |
|---|---|---|
| ConfigWrites.CreateVersion | backend/app/compensation/branch_config.py:195-197 | The first version of a key leaves a well-formed history and reads as: the new setting from its date on, every other day and key as before |
| ConfigWrites.CloseAndOpen | backend/app/compensation/branch_config.py:230-243 | Closing the open version the day before and inserting its successor: both intermediate tables pass the constraints, and the result is exactly the override from the date |
| ConfigWrites.AmendOpen | backend/app/compensation/branch_config.py:198-229 | Amending the open version in place, or moving it earlier when nothing precedes it, is exactly the override from the date |
| ConfigWrites.MoveEarlier | backend/app/compensation/branch_config.py:203-229 | Re-closing the predecessor and then moving the open version earlier passes the constraints after each statement and is exactly the override from the date |
| CompanyConfig.Company.AmendOpenVersion | backend/app/compensation/branch_config.py:198-229 | The in-place branch fails exactly when it would swallow a whole closed version, and then writes nothing; otherwise it is the override |
| CompanyConfig.Company.WriteVersion | backend/app/compensation/branch_config.py:175-253 | The versioned write, all four cases: refused exactly when a closed version of the key starts on or after the date, never by a database constraint, and otherwise an override from the date that touches no other key |
| CompanyConfig.Company.ApplyConfig | backend/app/compensation/branch_config.py:158-266 | Succeeds exactly when the definition may be set, no closed version is swallowed and an activation fits the Branch limit on every day from the date on; every refusal is explained by its condition, with the exact count for capacity |
| CompanyConfig.SwallowsIsPredecessorTest | backend/app/compensation/branch_config.py:203-221 | Looking at the version that ends the day before the open one decides whether any closed version at all would be swallowed |
| CompanyConfig.CheckedFromIsFits | backend/app/compensation/branch_config.py:255-258 | Sweeping from the earlier of today and the date is the same as checking every day from the date on, once capacity held before |
| CompanyConfig.OpenPeriodMaxEnd | backend/app/compensation/branch_config.py:67-80 | The latest end of a non-terminal period of the Branch that contains today: an upper bound that is attained, None exactly without such a period |
| CompanyConfig.ResolveEffectiveFrom | backend/app/compensation/branch_config.py:83-98 | Refused exactly for a requested date inside an open period, with the day after it as earliest date; otherwise the requested date, the day after the period, or today |
| CompanyConfig.ActivationDate | backend/app/compensation/branch_config.py:67-98 | Read off the periods: without a period of the Branch that is not terminal and has today in it, both ends included, a requested date is taken as it is and a missing one is today; with one, no date up to its end is given |
| CompanyConfig.Company.UpdateBranchConfig | backend/app/compensation/branch_config.py:384-407 | A single update succeeds under an exact condition, is one step of the run semantics and changes nothing when refused; for every period of the Branch that is not terminal and has today in it, every definition reads on every day up to its end as before |
| CompanyConfig.Company.BulkUpdateBranchConfig | backend/app/compensation/branch_config.py:410-480 | A bulk update overrides every target Branch, all active ones or the listed, from its own resolved date or changes none; it succeeds exactly when each Branch could be written alone, and every definition reads as before up to the end of every period, in any of them, that is not terminal and has today in it |
| CompanyConfig.Company.ValidateBranches | backend/app/compensation/branch_config.py:443-454 | The first pass collects exactly the Branches whose date is refused |
| CompanyConfig.Company.ApplyToBranches | backend/app/compensation/branch_config.py:461-470 | The second pass overrides the Branches one after another and fails exactly when one of them could not be written on its own |
| CompanyConfig.OtherBranchesUnaffected | backend/app/compensation/branch_config.py:461-470 | Writing one Branch never changes whether another Branch can be written |
| CompanyConfig.Company.CreateDefinition | backend/app/compensation/definitions.py:608-635 | A new definition is refused exactly when the Company has its allowed number of active ones |
| CompanyConfig.Company.ApproveRequest | backend/app/compensation/definitions.py:504-574 | Approval succeeds exactly for a pending, complete request at the expected revision, with room for a definition in the Company and for it in the Branch on every day; it then marks the request, creates the definition and activates it after every period that is not terminal and has today in it, and otherwise leaves everything as it was |
| CompanyConfig.Company.RetireDefinition | backend/app/compensation/definitions.py:819-862 | Retirement is monotonic, preserves every version and keeps all limits |
| ConfigHistory.ConfiguredFromThenOn | backend/app/compensation/branch_config.py:8-11 | In a well-formed history a configured day is followed by configured days only: the versions form a chain without a gap |
| ConfigHistory.Predecessor | backend/app/compensation/branch_config.py:203-216 | As soon as any closed version exists, one ends the day before the open version starts |
| ConfigRuns.EveryReachableStateIsSafe | backend/app/compensation/capacity.py:49-108 | In every state of every run from empty tables, version histories are well-formed and every Branch is within its limit on every day, past days included |
| ConfigRuns.RowsRefineTheLog | backend/app/compensation/branch_config.py:175-253 | After any run the tables read, for every key and day, as the last write that had started by then |
| ConfigRuns.RetirementIsFinal | backend/app/compensation/definitions.py:842-860 | A retired definition is retired in every later state |
| ConfigView.CurrentIsToday | backend/app/compensation/branch_config.py:272-282 | The current version of the pair is what applies today |
| ConfigView.PairTellsTheFuture | backend/app/compensation/branch_config.py:269-293 | Current and pending version together tell every later day exactly when no closed version lies ahead |
| ConfigExamples.ThreeVersions | backend/app/compensation/branch_config.py:230-243 | A run from empty tables to three versions of one key, two of them still to start |
| ConfigExamples.PairHidesTheNextVersion | backend/app/compensation/branch_config.py:269-293 | In that history the pair hides the version that starts next, and is wrong about the day it starts |
| ConfigExamples.EarlyDateIsRefused | backend/app/compensation/branch_config.py:203-221 | And there a date on or before a closed version's start is refused |
| CapacitySweep.SweepIsPointwise | backend/app/compensation/capacity.py:69-92 | The grouped event sweep finds no row exactly when every day is within the limit, and otherwise the earliest day over it with its exact count |
| CapacitySweep.SumUpToIsCount | backend/app/compensation/capacity.py:69-86 | Starts minus ends up to a day count the intervals active on that day |
| BranchCapacity.RowsAreDefinitions | backend/app/compensation/capacity.py:56-68 | On a checked day the counted version rows correspond one to one to the active definitions of the Branch |
| BranchCapacity.ConceptsSpelledOut | backend/app/compensation/capacity.py:16-68 | The number that is limited: the active definitions of which a version row for the Branch covers the day and is active, and one for Status |
| BranchCapacity.ActiveIntervals | backend/app/compensation/capacity.py:56-69 | The clipped intervals count, on every day from the given one on, exactly the active definitions |
| BranchCapacity.EnforceBranchInputCapacity | backend/app/compensation/capacity.py:49-108 | Accepts exactly when every day from the given one on has its active definitions and the Status concept within the limit; otherwise reports the first such day with its exact count |
| LockTheorems.SomeoneCanMove | backend/app/branch_compensation_config_concurrency.py:19-40 | Deadlock freedom: transactions whose every request is re-entrant, in the global order, or shielded by a lock that keeps its opponents away always include one that can move while any is unfinished |
| LockTheorems.RunsEnd | backend/app/branch_compensation_config_concurrency.py:19-40 | Every run is bounded by the work of its programs |
| LockTheorems.EveryRunEndsCommitted | backend/app/branch_compensation_config_concurrency.py:19-40 | A run of such transactions that cannot go on has committed them all |
| LockTheorems.CommitIsAtomic | backend/app/dependencies.py:31-45 | A commit publishes what the whole transaction would have done alone at that moment, and nothing else ever publishes |
| LockTheorems.RunsAreSerial | backend/app/branch_compensation_config_concurrency.py:3-17 | However transactions interleave, the committed configuration is that of the committed ones run alone, one after another, in commit order |
| LockTheorems.SnapshotsAreCoherent | backend/app/branch_compensation_config_concurrency.py:8-17 | Whatever a guarded reader has read so far, item by item, equals what is committed right now |
| LockProofs.CompatibleKept | backend/app/branch_compensation_config_concurrency.py:49-57 | No step makes two transactions hold one lock in conflicting modes |
| LockEffects.ExclusiveMeansAlone | backend/app/branch_compensation_config_concurrency.py:49-57 | In every state of every run, a lock that an open transaction has taken exclusively is one that no other open transaction has taken |
| LockEffects.NobodyOvertakes | backend/app/branch_compensation_config_concurrency.py:49-57 | A queued request is not granted while a conflicting request for the lock that queued earlier waits |
| LockEffects.ReentryNeverWaits | backend/app/branch_compensation_config_concurrency.py:52 | Whoever has a lock as strongly as it is wanted takes it again in one step |
| LockProofs.StepKeepsInv | backend/app/branch_compensation_config_concurrency.py:3-17 | Every step keeps the lock table, the queues and the isolation of every open transaction |
| LockPaths.EveryPathFollows | backend/app/branch_compensation_config_concurrency.py:19-43 | Every listed path, for every Branch, definition, currency, assignment, period and account it may name, follows the global order, but for the rows its foreign keys share, and reads and writes configuration only under the Branch lock |
| LockPaths.ConfigWriteFollows | backend/app/compensation/branch_config.py:436-441 | The single and the bulk configuration writer lock all Branches, then the definition, and re-lock both in each write |
| LockPaths.ApprovalFollows | backend/app/compensation/definitions.py:508-567 | Approval locks capacity and request, names its actor and the request's creator and submitter in the order of its statements, and then takes Branch configuration, definition and key in the global order |
| LockPaths.PeriodCreationFollows | backend/app/payroll/period_creation.py:440-514 | Period creation reads the layout under the Branch lock, around the ascending structure locks; its rows share its account and, in any order, the layout's definitions |
| LockEffects.CatalogueLocks | backend/app/compensation/definitions.py:819-842 | Approval, direct creation and retirement end with the Company capacity lock, retirement and structure changes with the definition and its structure for update |
| LockEffects.ConfigurationLocks | backend/app/compensation/branch_config.py:436-441 | The writers end with the lock of every Branch and key they write, sharing the definition; period creation with its Branch, its workflow and all structures of the layout |
| LockEffects.WorkflowLocks | backend/app/compensation/driver_context.py:25-46 | Driver-owned writes, transfers and terminations, source writes, submissions and Setup policies end with the assignments, Branch workflows, periods, schedules, accounts and Setup rows they name, in the stated modes |
| LockSystem.PathsAreInOrder | backend/app/payroll/period_creation.py:445-461 | What the foreign keys of a layout or a row share out of order is shielded: whoever locks a definition for update holds its structure, and only ending an account's access locks the account |
| LockSystem.PathsNeverDeadlock | backend/app/compensation/driver_context.py:25-46 | Any number of config writers, approvals, creations, retirements, structure changes, period creators, Driver-owned writers, transfers, terminations, source writers, submissions and Setup policies never reach a state in which all are stuck, as long as none names, out of order, an account whose access another of them ends |
| LockHazard.PairDeadlocksIff | backend/app/admin/employee_access.py:29-36 | Any two paths can deadlock exactly if one ends the access of the account that the other acts as and both lock a transfer request, assignment, Branch workflow or period, or if they end the access of each other's actor; two paths of one Employee never do |
| LockHazard.OthersNeverDeadlock | backend/app/branch_compensation_config_concurrency.py:19-40 | Two paths that end nobody's access never deadlock |
| LockHazard.QuietPathsNeverDeadlock | backend/app/branch_compensation_config_concurrency.py:19-40 | A configuration write, approval, direct creation, retirement or structure change never deadlocks with another path, whoever acts |
| LockHazard.CreationAndEndingDeadlockIff | backend/app/admin/employee_access.py:29-36 | A period creation and a termination can deadlock exactly if the termination ends the access of the account that creates the period, and its Branches include the period's |
| LockHazard.CreatorLosesAccess | backend/app/payroll/period_creation.py:936-943 | The smallest such pair, run into a deadlock |
| LockHazard.SourceWriterLosesAccess | backend/app/workforce/service.py:719-724 | A source writer that holds a period and the termination of its account's Employee, run into a deadlock |
| LockHazard.TheyEndEachOther | backend/app/workforce/service.py:719-724 | Two terminations that end the access of each other's actor, run into a deadlock |
| LockSystem.LayoutIsCommitted | backend/app/payroll/period_creation.py:438-447 | A layout read definition by definition is the configuration left by whole writes, never a half-done one |
| LockSystem.HeldConfigurationIsFrozen | backend/app/payroll/period_creation.py:438-460 | From the moment the creator holds the Branch lock until it commits, no other transaction changes that Branch's configuration, so what it reads before and after the structure locks agrees |
| LockEffects.WhatAConfigWriteDoes | backend/app/compensation/branch_config.py:461-470 | Alone, a configuration write changes exactly the definition in each of its Branches, by closing and then opening as that Branch's edit says, on what was committed |
| LockEffects.WhatAnApprovalDoes | backend/app/compensation/definitions.py:504-574 | Alone, an approval changes its definition in its one Branch and nothing else |
| LockEffects.WhatACreationReads | backend/app/payroll/period_creation.py:438-460 | Alone, a period creation reads exactly the definitions of its layout in its Branch, as committed, and writes none |
| LockEffects.OtherPathsLeaveTheConfiguration | backend/app/branch_compensation_config_concurrency.py:19-43 | No other path reads or writes configuration |
| LockCounterexamples.UpgradersDeadlock | backend/app/company_concurrency.py:13-15 | Two transactions that share the Company row and then upgrade, against the order, reach a state in which nobody can move |
| LockCounterexamples.UnguardedSnapshotIsTorn | backend/app/branch_compensation_config_concurrency.py:3-17 | Without the Branch lock a reader can see a pair of versions that was never committed together |
| AccessModel.ViewsComeAlong | backend/app/admin/permissions.py:25-48 | A set with its parents has exactly its own codes and the view permission of every area of which it has a code that needs it |
| AccessModel.OnePassCloses | backend/app/admin/permissions.py:200-206 | One pass of adding parents gives the least set closed under dependencies |
| AccessStore.Normalize | backend/app/admin/permissions.py:200-206 | The dependency loop computes exactly that set |
| AccessTheorems.PermissionOfTheOneRole | migrations/sql/0092_companyrole_runtime_authority.sql:33-127 | The permission function for an account by its one active row: exactly when the account is active, unstaged and may sign in and, for the owner, the code is in the catalogue; otherwise the role is not DRIVER, the row is for all Branches or for the very Branch asked about, and the code is in the role or an extra permission |
| AccessTheorems.DeniedOutright | migrations/sql/0092_companyrole_runtime_authority.sql:41-68 | In whatever state, an account that is inactive, staged or without login, or has an active DRIVER or Self row, has no permission |
| AccessTheorems.BranchRoleStaysInItsBranch | migrations/sql/0092_companyrole_runtime_authority.sql:98-123 | A row for one Branch permits nothing in another Branch and nothing company-wide |
| AccessTheorems.NoRoleNoPermission | migrations/sql/0092_companyrole_runtime_authority.sql:106-125 | An account without an active role has no permission, whatever its extra permissions |
| AccessGates.GateOfTheOneRole | backend/app/admin/security.py:8-75 | An account with a role passes a service gate exactly if the role is for all Branches, the account is active and may sign in, and one of the codes is in the role, an extra permission, or for the owner in the catalogue |
| AccessGates.NoRoleNoGate | backend/app/admin/security.py:20-36 | An account without an active role passes no gate |
| AccessGates.CeilingOfTheOneRole | backend/app/admin/access_safety.py:67-93 | Such an account may grant exactly the codes it has company-wide itself, the owner any |
| AccessGates.OwnerAndDriverIff | backend/app/admin/access_safety.py:48-64 | The owner is who has an active row with the owner role, a driver subject who has one with DRIVER |
| AccessGates.RowWriteAccepted | migrations/sql/0092_companyrole_runtime_authority.sql:131-193 | Triggers and indexes accept an assignment row exactly if its scope fits its role and with it no active row is there twice and no second active owner row |
| AccessGates.UserWriteAccepted | backend/app/admin/users.py:128-156 | The constraints accept an account row exactly if with it no staged account may log in and no Employee is linked twice |
| AccessStore.OwnerTriggerIsExact | migrations/sql/0092_companyrole_runtime_authority.sql:161-193 | The uniqueness trigger accepts a row write exactly when at most one active owner remains |
| AccessStore.Store.PutRow | migrations/sql/0092_companyrole_runtime_authority.sql:131-193 | A row write takes effect exactly when triggers and indexes accept it, and never leaves two active owners |
| AccessStore.Store.RevokeAll | backend/app/admin/role_assignments.py:141-152 | Revoking a user's active rows one by one is never rejected, leaves at most one owner after each write, and ends with exactly those rows inactive |
| AccessGates.CreateUserAccepted | backend/app/admin/users.py:63-125 | A creation is accepted exactly with the permissions it needs, bare if staged and with a grantable role within the ceiling if not, and for an Employee without account who is not terminated |
| AccessGates.LinkAccepted | backend/app/admin/users.py:128-156 | A link exactly for an account without one and an Employee without account who is not terminated, or for the link it has |
| AccessGates.UnlinkAccepted | backend/app/admin/users.py:159-206 | An unlinking exactly if the Employee is not terminated and the account is no active DRIVER |
| AccessGates.ProvisionAccepted | backend/app/admin/users.py:209-247 | A provisioning exactly of a staged account without active row, with a grantable role within the ceiling |
| AccessGates.UpdateUserAccepted | backend/app/admin/users.py:250-371 | An account update exactly if enabling login meets an unstaged account with an active row and no terminated Employee, and callers do not shut out themselves |
| AccessGates.AssignAccepted | backend/app/admin/role_assignments.py:64-140 | An assignment exactly to another active, unstaged account, of a grantable role within the ceiling, DRIVER only without extra permissions |
| AccessGates.RevokeAccepted | backend/app/admin/role_assignments.py:201-262 | A revocation exactly of another account's row that is not the owner's, the last active one only with login off |
| AccessGates.TransferAccepted | backend/app/admin/owner_transfer.py:41-171 | A transfer exactly by the active owner to another active account with login, with an active custom role as replacement if any, and with one if the owner may sign in |
| AccessGates.OverridesAccepted | backend/app/admin/permissions.py:280-388 | Extra permissions exactly for another account that is neither owner nor, unless none are given, DRIVER, from the catalogue, what is added within the ceiling and not for a terminated Employee |
| AccessGates.RolePermissionsAccepted | backend/app/admin/permissions.py:137-198 | Role permissions exactly for a role that is not archived, the owner role or, unless by the owner, the caller's own, from the catalogue, none for DRIVER, what is added within the ceiling |
| AccessGates.RolesAccepted | backend/app/admin/roles.py:111-306 | Roles are created, changed and archived exactly with the permission for it, protected ones not renamed nor archived, held ones not archived |
| AccessGates.EmploymentAccepted | backend/app/workforce/service.py:557-724 | Employment changes are accepted exactly as Workforce decides, and a termination only if the linked account is neither the owner's nor the caller's |
| AccessGates.GateComesFirst | backend/app/admin/security.py:44-75 | Who does not pass the gate is refused for that and told nothing else |
| AccessGates.RefusalsAreTrue | backend/app/admin/users.py:63-371 | Every reason given for a refusal is so, read off the tables |
| AccessStore.Store.CreateUser | backend/app/admin/users.py:63-125 | Unless refused, the next account is there with the given link and flags and no extra permission, its one row the granted role if any, everybody else as before, and no write is rejected |
| AccessStore.Store.LinkEmployee | backend/app/admin/users.py:128-156 | Unless refused, the account has the Employee, and nothing else is changed; linking the same one again changes nothing |
| AccessStore.Store.UnlinkEmployee | backend/app/admin/users.py:159-206 | Unless refused, the account has no Employee, and nothing else is changed |
| AccessStore.Store.Provision | backend/app/admin/users.py:209-247 | Unless refused, the account is unstaged with the given login flag and one new active row, the granted role; its other fields and everybody else are as before |
| AccessStore.Store.UpdateUser | backend/app/admin/users.py:250-371 | Unless refused, the two flags that are given are set and nothing else is changed |
| AccessStore.Store.AssignRole | backend/app/admin/role_assignments.py:64-198 | Unless refused, the user's rows are inactive but for one new row, the granted role; all other rows, every account and every role are as before |
| AccessStore.Store.RevokeRole | backend/app/admin/role_assignments.py:201-295 | Unless refused, the row is inactive and all others as before; the account is staged if it was or has no active row left, its other fields and everybody else are as before |
| AccessStore.Store.RevokeOwnerRow | backend/app/admin/owner_transfer.py:174-182 | Revoking the caller's one owner row leaves the company without an active owner and the caller without a role |
| AccessStore.Store.TransferOwnership | backend/app/admin/owner_transfer.py:41-253 | Unless refused, the target's one active row is the owner role for all Branches, the caller's the replacement or none, in which case the caller is staged; everything else is as before, and the uniqueness trigger accepts each of the ordered writes |
| AccessStore.Store.SetOverrides | backend/app/admin/permissions.py:280-430 | Unless refused, the account's extra permissions are exactly the chosen codes with their parents, and nothing else is changed |
| AccessStore.Store.SetRolePermissions | backend/app/admin/permissions.py:137-247 | Unless refused, by deletion and re-insertion the role's codes are exactly the chosen ones with their parents, and nothing else is changed |
| AccessStore.Store.ArchiveRole | backend/app/admin/roles.py:241-306 | Archiving refuses protected roles and roles in use; afterwards nobody holds the role and every other role is as before |
| AccessStore.Store.UpdateRole | backend/app/admin/roles.py:169-238 | Renaming refuses protected roles; activation changes no code, no kind and no other role |
| AccessStore.Store.CreateRole | backend/app/admin/roles.py:111-166 | A new role is custom, unprotected, active, without permissions and held by nobody, and every other role is as before |
| AccessStore.Store.EndAccess | backend/app/admin/employee_access.py:64-110 | The linked account of a terminated Employee, and no other, loses roles, extra permissions, login and activity, and is staged |
| AccessStore.Store.SetStatus | backend/app/workforce/service.py:557-642 | Unless refused, the Employee has the status, and exactly when that terminates them the linked account loses roles, extra permissions, login and activity; everybody else is as before |
| AccessStore.Store.TerminateDriver | backend/app/workforce/service.py:686-835 | Unless refused, as for the owner and the caller, the Employee is terminated and the linked account loses roles, extra permissions, login and activity; everybody else is as before |
| AccessInvariant.NextKeeps | backend/app/admin/users.py:63-247 | Every request by any caller keeps all account invariants together: one role, staged exactly without one, no staged login, one owner, DRIVER exactly with Self and an Employee, no holder of an archived role, unique links, sealed terminated accounts |
| AccessInvariant.AssignKeeps | backend/app/admin/role_assignments.py:105-176 | Assignment keeps the invariants |
| AccessInvariant.RevokeKeeps | backend/app/admin/role_assignments.py:249-281 | Revocation keeps the invariants |
| AccessInvariant.ProvisionKeeps | backend/app/admin/users.py:220-236 | Provisioning keeps the invariants |
| AccessInvariant.CreateUserKeeps | backend/app/admin/users.py:71-102 | Creation keeps the invariants |
| AccessInvariant.TransferKeeps | backend/app/admin/owner_transfer.py:165-253 | A transfer keeps the invariants |
| AccessInvariant.ArchiveKeeps | backend/app/admin/roles.py:269-295 | Archiving keeps the invariants |
| AccessInvariant.OverridesKeep | backend/app/admin/permissions.py:390-410 | Extra permissions keep the invariants, terminated accounts included |
| AccessInvariant.TerminationKeeps | backend/app/admin/employee_access.py:80-111 | Termination keeps the invariants and seals the account |
| AccessInvariant.RunKeeps | backend/app/admin/users.py:63-247 | The invariants hold in every state of every run |
| AccessRules.RolesAfterEveryRun | backend/app/admin/role_assignments.py:141-152 | After every run, read off the tables: one active row for an account and one for the owner role at most, an account staged exactly without one and then without login, no active row of an archived role |
| AccessRules.ScopesAfterEveryRun | migrations/sql/0092_companyrole_runtime_authority.sql:131-160 | Self scope exactly with DRIVER, a Branch exactly with Branch scope, the active owner row for all Branches |
| AccessRules.LinksAfterEveryRun | backend/app/admin/employee_access.py:64-110 | An Employee is linked to one account at most; a terminated one's has no active row, extra permission or login and is staged; a DRIVER account is linked |
| AccessRules.WorkforceAdds | backend/app/workforce/service.py:454-683 | A new Employee is no Driver and a new Driver keeps their status; no account and nobody else is touched |
| AccessTheorems.LoginNeedsNoRoleCheck | backend/app/auth/service.py:160-188 | In every reachable state the refusal for a missing role is never given: the flags alone decide a sign-in |
| AccessTheorems.ReplacementIsNeededToKeepLogin | backend/app/admin/owner_transfer.py:165-171 | A transfer that would go through with a replacement role goes through without one exactly when the owner's login is off |
| AccessTheorems.TransferGivesOwnership | backend/app/admin/owner_transfer.py:173-253 | After a transfer the target is the owner and the caller is not |
| AccessTheorems.OwnerIsKeptUnlessReassigned | backend/app/admin/role_assignments.py:141-176 | A company with an owner keeps one through every request, with the sole exception of an ordinary assignment to the owner |
| AccessTheorems.NoOwnerStaysNoOwner | backend/app/admin/owner_transfer.py:86-107 | No single request gives a company without an owner one |
| AccessTheorems.OwnerlessForGood | backend/app/admin/owner_transfer.py:86-107 | Nor does any run of requests |
| AccessExamples.OwnerIsLostForGood | backend/app/admin/role_assignments.py:64-176 | A concrete case: a manager who may edit users assigns the owner a role without codes; whatever follows, the company has no owner |
| AccessTheorems.TerminationEndsByReinstatement | backend/app/workforce/service.py:602-632 | A termination ends exactly by moving an Employee who is no Driver to another status, and the account stays linked in any case |
| AccessTheorems.TerminationIsFinalForDrivers | backend/app/workforce/service.py:602-608 | A terminated Employee stays terminated through every run exactly if they are a Driver |
| AccessTheorems.SealLastsWhileTerminated | backend/app/admin/employee_access.py:43-111 | Through every run in which the Employee stays terminated the account stays linked and sealed |
| AccessTheorems.SealLasts | backend/app/admin/employee_access.py:43-111 | For a Driver Employee, whatever follows, the linked account stays staged, without login, roles and extra permissions for ever |
| AccessExamples.ReinstatementBreaksTheSeal | backend/app/workforce/service.py:602-632 | A concrete run: a terminated Employee without a Driver is set Active again and the account is provisioned with login |
| AccessTheorems.StepAddsNothing | backend/app/admin/access_safety.py:67-108 | No single request by anyone but the owner brings a code into reach that nobody had |
| AccessTheorems.NoAmplification | backend/app/admin/access_safety.py:67-108 | No run of requests by anyone but the owner does, however the callers cooperate, parents included |
| AccessTheorems.NoNewPermissions | backend/app/admin/access_safety.py:67-108 | After such a run nobody but the owner has a permission, in any Branch, that was not in reach at the start |
| AccessTheorems.NobodyRaisesThemselves | backend/app/admin/access_safety.py:37-45 | No request lets its own caller, other than the owner, hold a code they did not hold |
| AccessRules.OnlyCompanyWideAccountsAct | backend/app/admin/security.py:8-40 | Only a signed-in account with a company-wide role changes anything through the account services, except that an owner without login may hand over |
| AccessRules.NobodyChangesTheirOwnAccess | backend/app/admin/access_safety.py:37-45 | Short of handing over ownership, no request changes its caller's role or extra permissions or takes away their sign-in |
| AccessRules.GrantedRolesAreUsable | backend/app/admin/assignment_validation.py:36-79 | Every role that becomes active is an active, unarchived role of the company, in one of its Branches if in any, on an account whose Employee is not terminated |
| AccessRules.PermissionSetsStayWellFormed | backend/app/admin/permissions.py:180-206 | In every role and every account the permissions stay closed under dependencies and known, and DRIVER has none |
| AccessRules.DriversStayBareUnlessProvisioned | backend/app/admin/users.py:209-247 | When no DRIVER account has extra permissions, a request makes one have some exactly if it is an accepted provisioning, as DRIVER, of an account that already has some |
| AccessRules.RunsKeepDriversBare | backend/app/admin/users.py:209-247 | Throughout a run no DRIVER account has extra permissions exactly if no event provisions such an account |
| AccessExamples.DriverEndsUpLaden | backend/app/admin/users.py:209-247 | A concrete run: a staged account is given extra permissions and then provisioned as DRIVER with them |
| SqlText.TagIffWord | migrations/utils.py:24-26 | A dollar-quote tag is a possibly empty word of letters, digits and underscores between two dollars |
| SqlText.StripTrims | migrations/utils.py:86 | Stripping removes exactly the white space around a text |
| StatementSplit.StatementsFromFile | migrations/utils.py:45-101 | The scanner terminates on every text and returns the stripped non-empty joins between semicolon tokens |
| StatementLaws.CommentIsDropped | migrations/utils.py:65-71 | Of a line comment only its newline is left, of one in the last line nothing |
| StatementLaws.BlockIsKept | migrations/utils.py:53-82 | A dollar-quoted block with any word as its tag is kept whole up to the first time its tag stands again, whatever is in it |
| StatementLaws.SemicolonEnds | migrations/utils.py:84-99 | A semicolon ends the statement, from which exactly the white space around it is stripped; a blank one is dropped, and so at the end of the text |
| StatementLaws.OtherCharactersAreKept | migrations/utils.py:73-94 | Every other character is kept, a dollar that starts no tag included |
| StatementSplit.TokensPartition | migrations/utils.py:52-94 | Comments, dollar blocks, semicolons and characters concatenate to the text |
| StatementSplit.BlocksSurvive | migrations/utils.py:53-82 | A dollar block is verbatim in exactly one statement, the one after as many semicolons as precede it; a closed one, the end of the text included, also in the stripped statement |
| StatementSplit.ClosedBlocksAreSolid | migrations/utils.py:53-82 | A closed block neither starts nor ends in white space, so stripping cannot touch it |
| StatementSplit.UnclosedBlockIsLast | migrations/utils.py:53-82 | A block whose tag does not come again takes the rest of the text |
| StatementSplit.PlainSplitterAgrees | migrations/versions/0002_safety_indexes.py:32-36 | On text without dollar signs the regular-expression splitter gives the same statements |
| InitialSplit.SplitStatements | migrations/versions/0001_initial_schema.py:37-150 | The four-mode scanner computes the statements of its state machine, whose laws follow |
| InitialSplit.LiteralIsWhole | migrations/versions/0001_initial_schema.py:91-102 | A string literal without a quote in it is taken over whole, semicolons and all |
| InitialSplit.LineCommentIsWhole | migrations/versions/0001_initial_schema.py:47-62 | So is a line comment up to its newline |
| InitialSplit.BlockCommentIsWhole | migrations/versions/0001_initial_schema.py:63-86 | And a block comment up to the first star and slash |
| InitialSplit.DollarBlockIsWhole | migrations/versions/0001_initial_schema.py:107-130 | And a dollar-quoted block, whatever its tag, up to the first time that stands again |
| InitialSplit.PlainCharacter | migrations/versions/0001_initial_schema.py:135-144 | Outside of these a semicolon ends the segment and stays with it, any other character is kept |
| InitialSplit.SegmentsAreStripped | migrations/versions/0001_initial_schema.py:133-150 | A segment gives its text without exactly the white space around it, unless that is nothing or a lone semicolon |
| InitialSplit.SegmentsPartition | migrations/versions/0001_initial_schema.py:47-146 | The raw segments concatenate back to the text |
| InitialSplit.SplittersAgree | migrations/versions/0001_initial_schema.py:47-146 | With quotes and comments only inside dollar blocks and only well-formed tags, its raw segments are those of the shared splitter, semicolons kept |
| InitialSplit.StatementsAgree | migrations/versions/0001_initial_schema.py:133-150 | On all comparable texts the two lists of statements differ in the semicolons only, and a last statement without one is the same in both |
| CommentNormalizer.NormalizeBody | scripts/compare_schema_authorities.py:263-323 | The scanner with its popping loop computes the token-wise output |
| NormalizerLaws.LiteralIsKept | scripts/compare_schema_authorities.py:294-306 | A string literal, its quotes doubled or escaped by backslashes, is kept whole |
| NormalizerLaws.IdentifierIsKept | scripts/compare_schema_authorities.py:307-315 | So is a quoted identifier, its quotes doubled, in which a backslash is an ordinary character |
| NormalizerLaws.BlockIsKept | scripts/compare_schema_authorities.py:283-321 | And a dollar-quoted block with any word as its tag, up to the first time that stands again |
| NormalizerLaws.CommentIsRemoved | scripts/compare_schema_authorities.py:270-278 | A line comment goes with its newline |
| NormalizerLaws.BlankIsKeptUnlessCommentFollows | scripts/compare_schema_authorities.py:271-273 | A blank goes exactly if nothing but blanks stand between it and a line comment |
| NormalizerLaws.OtherCharactersAreKept | scripts/compare_schema_authorities.py:279-293 | Every other character is kept, a dollar that starts no tag included |
| CommentNormalizer.FinishIsOutput | scripts/compare_schema_authorities.py:271-278 | Popping blanks at each comment removes exactly the blanks right before a comment |
| CommentNormalizer.TokensPartition | scripts/compare_schema_authorities.py:268-321 | Comments, quoted and dollar-quoted regions and characters concatenate to the body |
| CommentNormalizer.RegionsSurvive | scripts/compare_schema_authorities.py:279-321 | Every quoted or dollar-quoted region survives verbatim between the outputs of what precedes and what follows it |
| CommentNormalizer.UnchangedIffCommentFree | scripts/compare_schema_authorities.py:268-323 | A body is unchanged exactly if it has no line comment |
| CommentNormalizer.InsertedCommentLine | scripts/compare_schema_authorities.py:270-278 | An indented comment line inserted at a line start in normal state changes nothing |
| SecondPass.SecondPassIdleIffNoCommentLeft | scripts/compare_schema_authorities.py:268-323 | A second pass changes nothing exactly if the first leaves no comment |
| SecondPass.SecondPassIdleIffNothingExposed | scripts/compare_schema_authorities.py:268-323 | For every body, read token by token: exactly if no dashes meet before a removed comment completes a tag, and no comment is kept behind the block that tag opens |
| SecondPass.SecondPassIdleIffNoDashesMeet | scripts/compare_schema_authorities.py:268-323 | In particular, where no removed comment completes a tag: exactly if none lets two dashes meet |
| SecondPass.SecondPassIdleWhenApart | scripts/compare_schema_authorities.py:270-278 | A second pass changes nothing when at each comment what precedes or what follows cannot join |
| SecondPass.SecondPassIdleForWholeLines | scripts/compare_schema_authorities.py:270-278 | In particular when every comment has its line to itself |
| SecondPass.NotIdempotent | scripts/compare_schema_authorities.py:270-278 | A body in which two dashes meet, so that a second pass removes more |
| SecondPass.TagsMayMeet | scripts/compare_schema_authorities.py:279-321 | A body without meeting dashes on which a second pass differs, because a comment's removal completes a tag |
| OrdinalTopology.TopologyError | backend/app/compensation/ordinal_topology.py:14-49 | The loop with its early returns computes the specified problem |
| OrdinalTopology.AcceptedIffPartition | backend/app/compensation/ordinal_topology.py:14-49 | A topology is accepted exactly when its tiers are non-empty integer ranges, in order, that cover every ordinal from 1 on exactly once |
| OrdinalTopology.CalculateOrdinalTier | backend/app/payroll/calculation/ordinal_tier.py:60-101 | Refused, with its reason, exactly for a quantity that is no non-negative whole number, tiers out of sequence, a topology problem or a bad value; otherwise the total is the sum of each tier's covered units times value, rounded half to even |
| OrdinalTopology.SecondRoundingIsIdle | backend/app/payroll/calculation/ordinal_tier.py:95-101 | Rounding the sum of the rounded contributions again never changes it |
| OrdinalTopology.UnitsAddUp | backend/app/payroll/calculation/ordinal_tier.py:87-92 | The units of the tiers add up to the quantity |
| OrdinalTopology.EarnedIsUnitByUnit | backend/app/payroll/calculation/ordinal_tier.py:4-6 | Before rounding the total is what the ordinals earn one by one, the n-th at the value of the tier that covers n |
| OrdinalTopology.UnitByUnitIffFine | backend/app/payroll/calculation/ordinal_tier.py:4-16 | The rounded total is the unrounded sum of what the ordinals earn one by one, for every quantity, exactly if no tier's value is finer than the quantum |
| OneRounding.RoundsOnceIff | backend/app/payroll/calculation/ordinal_tier.py:11-13 | The total is the exact sum rounded once exactly if the remainders of the tiers' roundings add up to less than half a quantum, or to half a quantum beside an even total |
| OneRounding.RoundsOnceForAllIff | backend/app/payroll/calculation/ordinal_tier.py:11-13 | It is so for every quantity exactly if it is so for the quantities up to a bound that the topology and the decimals of the last value give |
| OneRounding.OneTierRoundsOnce | backend/app/payroll/calculation/ordinal_tier.py:88-99 | With a single tier it always is, however fine the value |
| OneRounding.FineValuesRoundOnce | backend/app/compensation/schemas.py:18 | And with values of no more decimals than the quantum |
| OneRounding.HalvesAreLost | backend/app/payroll/calculation/ordinal_tier.py:88-99 | Two units in two tiers at half a quantum each are paid nothing, where one rounding of the sum pays a quantum |
| OneRounding.OneFineValueIsNotEnough | backend/app/payroll/calculation/ordinal_tier.py:88-99 | A value of one quantum beside one of half a quantum already makes the two differ |
| ScheduleResolver.ResolveMany | backend/app/compensation/resolver.py:40-167 | Set-wise resolution fails for ownership and for ambiguity under their exact conditions, and otherwise gives every distinct key what it resolves to on its own, with the definition's shape and method |
| ScheduleResolver.ComponentsBySchedule | backend/app/compensation/resolver.py:121-145 | Every selected schedule gets all components of its definition, sorted by sequence, with its own values |
| ScheduleResolver.ResolutionSpelledOut | backend/app/compensation/resolver.py:70-167 | What a key resolves to, read off the tables: the one approved or superseded schedule of the driver and the definition whose window has the date in it, both ends included, none exactly if there is none, and for each component that schedule's value if it has one |
| ScheduleResolver.InOrderSorts | backend/app/compensation/resolver.py:121-133 | The components come sorted by sequence, the same rows with none lost or repeated |
| ScheduleResolver.ResolvedInSequence | backend/app/compensation/resolver.py:136-167 | So do the values of a resolved schedule, one for each component row |
| ScheduleResolver.Resolve | backend/app/compensation/resolver.py:170-179 | The single-key form gives that key's result |
| ScheduleResolver.TogetherIsOneByOne | backend/app/compensation/resolver.py:17-18 | Keys can be resolved together exactly when each can be resolved alone |
| ScheduleResolver.OtherKeysDoNotMatter | backend/app/compensation/resolver.py:17-18 | A key resolves to the same schedule, method, shape and values whatever other keys are asked for with it |
| ScheduleResolver.ExclusionMeansUnambiguous | backend/app/compensation/resolver.py:50-52 | The integrity error is impossible exactly as long as authoritative windows of one Driver and RateDefinition do not overlap |
| ReadScope.SeesIsDayVisibility | backend/app/compensation/driver_context.py:261-262 | A full reader sees every row, a limited one exactly those not Pending of which one day is covered |
| ReadScope.SeesIsRowFilter | backend/app/compensation/driver_context.py:264-291 | The decision in code and the overlap filter in SQL select the same rows; the filter raises exactly if the row or a window is the wrong way round |
| ReadScope.EmptyWindowMisleads | backend/app/compensation/driver_context.py:280-291 | A window without a day would make the code see rows that no covered day justifies, and the filter raise, so non-empty windows are needed |
| ReadScope.LimitedReadersSeeEndedTenures | backend/app/compensation/driver_context.py:294-320 | A limited reader covers exactly the days of the tenures in readable Branches, all of which have ended |
| ReadScope.DriverCompensationReadScope | backend/app/compensation/driver_context.py:294-320 | The scope computed by asking for the permission company-wide and then per tenure Branch: full exactly with it, or with it in the Branch of a tenure that has not ended; none exactly without it in any; otherwise the readable windows |

## Left out

- Requests are authorised before they reach `CompanyConfig`; the permission checks of the configuration endpoints, audit rows, notes in other tables and HTTP status codes are not modelled.
- Dates have no smallest or largest value, so the overflow of a day before the first or after the last calendar day is not modelled.
- The status of a RateDefinition, its components and the governance of definition requests before approval are not part of the model.
- CompanyConfig.Company.ApproveRequest: whether the fields and the structure of a request would pass is one yes-or-no attribute of the request; provenance and event rows are not modelled.
- LockPaths.EveryPathFollows: locks on rows that a transaction has just inserted itself are not modelled, because nobody else can wait for them, nor are key-share locks of foreign keys on rows that no path locks for update, because they conflict with nothing that the paths do.
- LockPaths.PeriodCreationFollows: the key-share locks of a layout on the configuration rows it froze are not modelled; the only paths that lock those rows for update need the Branch configuration lock, which the creator holds.
- LockMachine: queues are fair, while PostgreSQL lets a shared row lock overtake a waiting exclusive one; overtaking removes waits and adds none.
- LockPaths: the configuration is the versions of each definition; the status of the definition, which the layout also reads, is protected by the structure locks and not part of the snapshot theorem.
- Review items, payroll calculation, transfer booking, import and Branch settings take further locks in files whose order is not stated; they are not part of the paths, nor are the shares that a submission's calculation snapshot takes on schedule and rule rows.
- Deadlock freedom of the account services is not claimed: their row locks follow no stated order. They lock accounts and Employees for update too and are not among the paths.
- AccessStore.Store.CreateUser: user names, passwords and the profile fields are not modelled, so the refusal of a duplicate user name is missing.
- AccessStore.Store.CreateRole: the retry on a colliding random role code is not modelled; the code is taken to be fresh.
- AccessStore.Store.UpdateRole: role names are not modelled, so the refusal of a duplicate name is missing.
- AccessStore.Store.TerminateDriver: the date, assignment, transfer and payroll conditions of a Driver termination are one yes-or-no input.
- AccessStore.Store.SetStatus: the Branch permission and the checks on the other fields of an Employee update are one yes-or-no input.
- AccessStore.Store.SetOverrides: overrides revoked in the past are not kept, because nothing reads them again.
- The Company is taken to be active and not suspended throughout, and the lock-out after failed sign-ins is not modelled.
- OrdinalTopology.CalculateOrdinalTier: values and products are exact reals before they are rounded to the quantum; the 28-digit context of Decimal is not modelled.
- ReadScope.DriverCompensationReadScope: which Branches the permission function allows is an input of it, and the refusals of a DRIVER reader and of an unknown Driver are not modelled.
- The regular expression that finds the body inside a function definition, and the catalogue comparison around the normaliser, are not modelled.
- Full PostgreSQL lexing (nested comments, escape strings) is not claimed; the theorems are about what these scanners do.
