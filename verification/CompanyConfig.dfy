/**
 * The Branch configuration writers of one Company: apply_config and the requests around it.
 *
 * Every request is one database transaction: when it raises, everything it wrote is undone.
 */
module CompanyConfig {
  import opened Base
  import opened ConfigHistory
  import opened ConfigWrites
  import opened BranchCapacity
  import opened CapacitySweep
  import opened ConfigRuns

  datatype PeriodStatus = Draft | Open | InReview | Returned | Approved | Terminal

  datatype Period = Period(branch: int, start: Date, end: Date, status: PeriodStatus)

  datatype Action = Created | Updated | Versioned

  datatype Written = Written(action: Action, configId: int)

  datatype ConfigError =
    | BranchNotFound(missing: set<int>)
    | NoActiveBranches
    | DefinitionNotFound
    | DefinitionNotActive
    | RequestNotFound
    | RequestConflict
    | RequestIncomplete
    | OpenPeriodBoundary(earliest: Date)
    | BulkValidationFailed(branches: seq<int>)
    | VersionOverlap
    | RefusedByConstraint
    | CompanyCapacityExceeded(count: int)
    | CapacityExceeded(branch: int, excess: Excess)

  datatype RequestStatus = Drafted | PendingApproval | ApprovedAs(definition: int) | Closed

  /** A definition request; complete says that its fields and structure would pass. */
  datatype DefinitionRequest = DefinitionRequest(branch: int, status: RequestStatus, revision: int, complete: bool)

  datatype Target = AllBranches | SelectedBranches(branches: set<int>)

  // ----- open-period protection -----

  predicate Protects(p: Period, b: int, today: Date) {
    p.branch == b && !p.status.Terminal? && p.start <= today <= p.end
  }

  /** MAX(enddate) over the non-terminal periods of the Branch that contain today. */
  function OpenPeriodMaxEnd(periods: seq<Period>, b: int, today: Date): (r: Option<Date>)
    ensures r.None? <==> forall i :: 0 <= i < |periods| ==> !Protects(periods[i], b, today)
    ensures forall i :: 0 <= i < |periods| && Protects(periods[i], b, today) ==> r.Some? && periods[i].end <= r.value
    ensures r.Some? ==> exists i :: 0 <= i < |periods| && Protects(periods[i], b, today) && periods[i].end == r.value
  {
    if periods == [] then None
    else
      var n := |periods| - 1;
      var rest := OpenPeriodMaxEnd(periods[..n], b, today);
      if Protects(periods[n], b, today) && (rest.None? || rest.value < periods[n].end)
      then Some(periods[n].end) else rest
  }

  function ResolveEffectiveFrom(requested: Option<Date>, periodMaxEnd: Option<Date>, today: Date)
    : (r: Result<Date, ConfigError>)
    ensures r.Err? <==> requested.Some? && periodMaxEnd.Some? && requested.value <= periodMaxEnd.value
    ensures r.Err? ==> r.error == OpenPeriodBoundary(periodMaxEnd.value + 1)
    ensures r.Ok? && periodMaxEnd.Some? ==> periodMaxEnd.value < r.value
    ensures r.Ok? && requested.Some? ==> r.value == requested.value
    ensures r.Ok? && requested.None? ==>
              r.value == if periodMaxEnd.None? then today else periodMaxEnd.value + 1
  {
    if periodMaxEnd.None? then
      Ok(if requested.Some? then requested.value else today)
    else
      var earliest := periodMaxEnd.value + 1;
      if requested.None? then Ok(earliest)
      else if requested.value <= periodMaxEnd.value then Err(OpenPeriodBoundary(earliest))
      else Ok(requested.value)
  }

  function ResolveActivationDate(periods: seq<Period>, b: int, requested: Option<Date>, today: Date)
    : Result<Date, ConfigError>
  {
    ResolveEffectiveFrom(requested, OpenPeriodMaxEnd(periods, b, today), today)
  }

  /**
   * The date from which a change takes effect: after every period of the Branch that contains
   * today and is not in a terminal status; refused when an earlier one was asked for; and when
   * none was asked for, today or the day after such a period.
   */
  lemma ActivationDate(periods: seq<Period>, b: int, requested: Option<Date>, today: Date)
    ensures var r := ResolveActivationDate(periods, b, requested, today);
            && (r.Err? <==>
                  && requested.Some?
                  && exists i :: 0 <= i < |periods| && periods[i].branch == b && periods[i].status != Terminal
                                 && periods[i].start <= today <= periods[i].end && requested.value <= periods[i].end)
            && (r.Ok? ==>
                  forall i :: (&& 0 <= i < |periods| && periods[i].branch == b && periods[i].status != Terminal
                               && periods[i].start <= today <= periods[i].end) ==> periods[i].end < r.value)
            && (r.Ok? && requested.Some? ==> r.value == requested.value)
            && (requested.None? ==>
                  if exists i :: 0 <= i < |periods| && periods[i].branch == b && periods[i].status != Terminal
                                 && periods[i].start <= today <= periods[i].end
                  then exists i :: 0 <= i < |periods| && periods[i].branch == b && periods[i].status != Terminal
                                   && periods[i].start <= today <= periods[i].end && r == Ok(periods[i].end + 1)
                  else r == Ok(today))
  {
  }

  /** A resolved date lies after every open period that contains today. */
  lemma ResolvedAfterOpenPeriods(periods: seq<Period>, b: int, requested: Option<Date>, today: Date, i: int)
    requires 0 <= i < |periods| && Protects(periods[i], b, today)
    requires ResolveActivationDate(periods, b, requested, today).Ok?
    ensures periods[i].end < ResolveActivationDate(periods, b, requested, today).value
  {
  }

  // ----- when a write is refused -----

  /** A closed version of the key starts on or after the new date: it would be swallowed whole. */
  ghost predicate Swallows(t: Table, k: Key, eff: Date) {
    exists i :: i in t && t[i].key == k && t[i].to.Some? && eff <= t[i].from
  }

  /** The active definitions of a Branch once the key is overridden from `eff`. */
  ghost function ActiveAfter(t: Table, defs: Catalogue, k: Key, eff: Date, s: Setting, d: Date): set<int> {
    set p | p in defs && defs[p].Active? &&
            if p == k.definition && eff <= d then s.active
            else At(t, Key(k.branch, p), d).Some? && At(t, Key(k.branch, p), d).value.active
  }

  ghost predicate Fits(t: Table, defs: Catalogue, k: Key, eff: Date, s: Setting, policy: Policy) {
    forall d :: eff <= d ==> |ActiveAfter(t, defs, k, eff, s, d)| + STATUS_CONCEPT_COUNT <= policy.maxBranchInputConcepts
  }

  ghost predicate Activatable(defs: Catalogue, p: int, s: Setting) {
    p in defs && (s.active ==> defs[p].Active?)
  }

  /** Everything apply_config needs to succeed. */
  ghost predicate Applicable(t: Table, defs: Catalogue, k: Key, eff: Date, s: Setting, policy: Policy) {
    && Activatable(defs, k.definition, s)
    && !Swallows(t, k, eff)
    && (s.active ==> Fits(t, defs, k, eff, s, policy))
  }

  lemma ActiveAfterOverride(t: Table, t': Table, defs: Catalogue, k: Key, eff: Date, s: Setting, d: Date)
    requires OverriddenFrom(t, t', k, eff, s)
    ensures ActiveDefinitions(t', defs, k.branch, d) == ActiveAfter(t, defs, k, eff, s, d)
  {
    forall p ensures p in ActiveDefinitions(t', defs, k.branch, d) <==> p in ActiveAfter(t, defs, k, eff, s, d) {
      assert At(t', Key(k.branch, p), d) ==
        if p == k.definition && eff <= d then Some(s) else At(t, Key(k.branch, p), d);
    }
  }

  lemma BeforeOverride(t: Table, t': Table, defs: Catalogue, k: Key, eff: Date, s: Setting, d: Date)
    requires OverriddenFrom(t, t', k, eff, s) && d < eff
    ensures ActiveDefinitions(t', defs, k.branch, d) == ActiveDefinitions(t, defs, k.branch, d)
  {
    forall p ensures At(t', Key(k.branch, p), d) == At(t, Key(k.branch, p), d) {}
  }

  /** With capacity already respected, checking from min(today, eff) is checking the override. */
  lemma CheckedFromIsFits(t: Table, t': Table, defs: Catalogue, k: Key, eff: Date, s: Setting, from: Date, policy: Policy)
    requires OverriddenFrom(t, t', k, eff, s) && from <= eff
    requires WithinCapacity(Tables(t, defs), policy)
    ensures Fits(t, defs, k, eff, s, policy) <==>
            forall d :: from <= d ==> Concepts(t', defs, k.branch, d) <= policy.maxBranchInputConcepts
  {
    forall d ensures Concepts(t', defs, k.branch, d)
                     == |ActiveAfter(t, defs, k, eff, s, d)| + STATUS_CONCEPT_COUNT {
      ActiveAfterOverride(t, t', defs, k, eff, s, d);
    }
    forall d | d < eff ensures Concepts(t', defs, k.branch, d) <= policy.maxBranchInputConcepts {
      BeforeOverride(t, t', defs, k, eff, s, d);
      assert Concepts(t, defs, k.branch, d) <= policy.maxBranchInputConcepts;
    }
  }

  /** The swallowing test is the code's own test on the open version and its predecessor. */
  lemma SwallowsIsPredecessorTest(t: Table, k: Key, eff: Date, open: int)
    requires History(t) && open in t && t[open].key == k && t[open].to.None?
    ensures Swallows(t, k, eff) <==>
            eff < t[open].from
            && exists p :: p in t && t[p].key == k && t[p].to == Some(t[open].from - 1) && eff <= t[p].from
  {
    if i :| i in t && t[i].key == k && t[i].to.Some? && eff <= t[i].from {
      Predecessor(t, open, i);
      OpenIsLast(t, open, i);
    }
  }

  /** Version rows of other keys are the same rows. */
  ghost predicate SameOtherKeys(t: Table, t': Table, k: Key) {
    && (forall i :: i in t && t[i].key != k ==> i in t' && t'[i] == t[i])
    && (forall i :: i in t' && t'[i].key != k ==> i in t && t[i] == t'[i])
  }

  /** A write in one Branch does not change whether another Branch can be written. */
  lemma OtherBranchesUnaffected(
      t: Table, t': Table, defs: Catalogue, k: Key, other: Key, eff: Date, s: Setting, policy: Policy)
    requires DatabaseAccepts(t) && DatabaseAccepts(t') && SameOtherKeys(t, t', k) && other.branch != k.branch
    ensures Applicable(t', defs, other, eff, s, policy) == Applicable(t, defs, other, eff, s, policy)
  {
    forall d ensures ActiveAfter(t', defs, other, eff, s, d) == ActiveAfter(t, defs, other, eff, s, d) {
      forall p ensures At(t', Key(other.branch, p), d) == At(t, Key(other.branch, p), d) {
        SameRowsSameReading(t, t', Key(other.branch, p), d);
      }
    }
  }

  /** The Branches of a bulk request, each with its own resolved date. */
  function ResolvedTargets(periods: seq<Period>, chosen: set<int>, requested: Option<Date>, today: int -> Date)
    : map<int, Date>
  {
    map b | b in chosen && ResolveActivationDate(periods, b, requested, today(b)).Ok?
      :: ResolveActivationDate(periods, b, requested, today(b)).value
  }

  /**
   * For every period of the Branch in no terminal status that contains today, every definition
   * reads as before on every day up to the period's end.
   */
  lemma ProtectionOfOverride(
      t: Table, t': Table, periods: seq<Period>, b: int, p: int, s: Setting,
      requested: Option<Date>, today: Date)
    requires ResolveActivationDate(periods, b, requested, today).Ok?
    requires OverriddenFrom(t, t', Key(b, p), ResolveActivationDate(periods, b, requested, today).value, s)
    ensures forall i, q, d ::
              (&& 0 <= i < |periods| && periods[i].branch == b && periods[i].status != Terminal
               && periods[i].start <= today <= periods[i].end && d <= periods[i].end)
              ==> At(t', Key(b, q), d) == At(t, Key(b, q), d)
  {
    forall i, q, d | 0 <= i < |periods| && Protects(periods[i], b, today) && d <= periods[i].end
      ensures At(t', Key(b, q), d) == At(t, Key(b, q), d)
    {
      ResolvedAfterOpenPeriods(periods, b, requested, today, i);
    }
  }

  lemma OneMoreTarget(periods: seq<Period>, done: set<int>, requested: Option<Date>, today: int -> Date, b: int)
    requires ResolveActivationDate(periods, b, requested, today(b)).Ok?
    ensures ResolvedTargets(periods, done + {b}, requested, today) ==
            ResolvedTargets(periods, done, requested, today)
              [b := ResolveActivationDate(periods, b, requested, today(b)).value]
  {
  }

  lemma NoTargets(periods: seq<Period>, requested: Option<Date>, today: int -> Date)
    ensures ResolvedTargets(periods, SetOf([]), requested, today) == map[]
  {
  }

  lemma NothingOverridden(t: Table, p: int, s: Setting)
    ensures Overridden(t, t, map[], p, s)
  {
  }

  /** Overriding one more Branch extends the set of overridden Branches. */
  lemma OverridesCompose(
      t: Table, mid: Table, t': Table, done: map<int, Date>, b: int, eff: Date, p: int, s: Setting)
    requires Overridden(t, mid, done, p, s) && b !in done
    requires OverriddenFrom(mid, t', Key(b, p), eff, s)
    ensures Overridden(t, t', done[b := eff], p, s)
  {
  }

  /** Overriding Branches one by one, each within its limit, is one bulk step. */
  lemma BulkStep(t: Table, t': Table, defs: Catalogue, targets: map<int, Date>, p: int, s: Setting, policy: Policy)
    requires History(t') && Overridden(t, t', targets, p, s) && Activatable(defs, p, s)
    requires WithinCapacity(Tables(t', defs), policy)
    ensures Step(Tables(t, defs), Write(targets, p, s), Tables(t', defs), policy)
  {
  }

  lemma BulkProtection(
      t: Table, t': Table, periods: seq<Period>, targets: map<int, Date>, p: int, s: Setting,
      requested: Option<Date>, today: int -> Date)
    requires Overridden(t, t', targets, p, s)
    requires forall b :: b in targets ==>
               ResolveActivationDate(periods, b, requested, today(b)) == Ok(targets[b])
    ensures forall b, i, q, d ::
              (&& b in targets && 0 <= i < |periods| && periods[i].branch == b && periods[i].status != Terminal
               && periods[i].start <= today(b) <= periods[i].end && d <= periods[i].end)
              ==> At(t', Key(b, q), d) == At(t, Key(b, q), d)
  {
    forall b, i, q, d | b in targets && 0 <= i < |periods| && Protects(periods[i], b, today(b))
                        && d <= periods[i].end
      ensures At(t', Key(b, q), d) == At(t, Key(b, q), d)
    {
      ResolvedAfterOpenPeriods(periods, b, requested, today(b), i);
    }
  }

  class Company {
    const policy: Policy
    var rows: Table
    var nextId: int
    var defs: Catalogue
    var branches: map<int, bool>   // BranchID -> status is Active
    var periods: seq<Period>
    var requests: map<int, DefinitionRequest>

    ghost predicate IdsAreFresh() reads this {
      forall i :: i in rows ==> i < nextId
    }

    ghost predicate Valid() reads this {
      && Sound(policy)
      && History(rows)
      && IdsAreFresh()
      && (forall i :: i in rows ==> rows[i].key.definition in defs)
      && WithinCapacity(State(), policy)
    }

    ghost function State(): Tables reads this {
      Tables(rows, defs)
    }

    constructor (
        policy: Policy, branches: map<int, bool>, periods: seq<Period>, requests: map<int, DefinitionRequest>)
      requires Sound(policy)
      ensures Valid() && State() == Tables(map[], map[]) && this.requests == requests
      ensures this.policy == policy && this.branches == branches && this.periods == periods
    {
      this.policy := policy;
      rows, nextId, defs := map[], 0, map[];
      this.branches, this.periods, this.requests := branches, periods, requests;
      new;
      forall b, d ensures Concepts(rows, defs, b, d) <= policy.maxBranchInputConcepts {
        assert ActiveDefinitions(rows, defs, b, d) == {};
      }
      assert ActiveItems(defs) == {};
    }

    // ----- single statements -----

    method OpenVersion(k: Key) returns (found: set<int>)
      ensures found == set i | i in rows && rows[i].key == k && rows[i].to.None?
    {
      found := set i | i in rows && rows[i].key == k && rows[i].to.None?;
    }

    method VersionClosedOn(k: Key, day: Date) returns (found: set<int>)
      ensures found == set i | i in rows && rows[i].key == k && rows[i].to == Some(day)
    {
      found := set i | i in rows && rows[i].key == k && rows[i].to == Some(day);
    }

    /** UPDATE of one row: the database refuses it when a constraint would be violated. */
    method UpdateRow(id: int, row: Row) returns (ok: bool)
      requires id in rows
      modifies this`rows
      ensures ok == DatabaseAccepts(old(rows)[id := row])
      ensures rows == if ok then old(rows)[id := row] else old(rows)
    {
      ok := DatabaseAccepts(rows[id := row]);
      if ok { rows := rows[id := row]; }
    }

    /** INSERT ... RETURNING configid; the sequence moves on either way. */
    method InsertRow(row: Row) returns (ok: bool, id: int)
      requires IdsAreFresh()
      modifies this`rows, this`nextId
      ensures id == old(nextId) && nextId == id + 1 && id !in old(rows)
      ensures ok == DatabaseAccepts(old(rows)[id := row])
      ensures rows == if ok then old(rows)[id := row] else old(rows)
      ensures IdsAreFresh()
    {
      id := nextId;
      nextId := nextId + 1;
      ok := DatabaseAccepts(rows[id := row]);
      if ok { rows := rows[id := row]; }
    }

    // ----- apply_config -----

    /** The open version starts on or after the new date: amend it in place, or move it earlier. */
    method AmendOpenVersion(open: int, k: Key, s: Setting, eff: Date) returns (r: Result<Written, ConfigError>)
      requires History(rows) && open in rows && rows[open].key == k && rows[open].to.None?
      requires eff <= rows[open].from
      modifies this`rows
      ensures r.Err? <==> Swallows(old(rows), k, eff)
      ensures r.Err? ==> r.error == VersionOverlap && rows == old(rows)
      ensures r.Ok? ==>
                && History(rows) && OverriddenFrom(old(rows), rows, k, eff, s)
                && rows.Keys == old(rows.Keys)
                && r.value == Written(Updated, open) && rows[open] == Row(k, s, eff, None)
                && (forall i :: i in old(rows) ==> rows[i].key == old(rows)[i].key)
                && SameOtherKeys(old(rows), rows, k)
    {
      SwallowsIsPredecessorTest(rows, k, eff, open);
      var previous := {};
      if eff < rows[open].from {
        previous := VersionClosedOn(k, rows[open].from - 1);
      }
      if previous != {} {
        var p := AnyMember(previous);
        if eff <= rows[p].from {
          return Err(VersionOverlap);
        }
        MoveEarlier(rows, open, p, k, s, eff);
        PredecessorSurvives(rows, open, p, k, eff);
        var ok := UpdateRow(p, rows[p].(to := Some(eff - 1)));
        if !ok { return Err(RefusedByConstraint); }
      } else {
        AloneWithoutPredecessor(rows, open, k, eff, previous);
        AmendOpen(rows, open, k, s, eff);
      }
      var ok := UpdateRow(open, Row(k, s, eff, None));
      return if ok then Ok(Written(Updated, open)) else Err(RefusedByConstraint);
    }

    /**
     * The versioned write. No statement of it is ever refused by a constraint; it is refused
     * only when it would swallow a whole closed version, and otherwise it is an override.
     */
    method WriteVersion(k: Key, s: Setting, eff: Date) returns (r: Result<Written, ConfigError>)
      requires History(rows) && IdsAreFresh()
      modifies this`rows, this`nextId
      ensures History(rows) && IdsAreFresh() && nextId >= old(nextId)
      ensures r.Err? <==> Swallows(old(rows), k, eff)
      ensures r.Err? ==> r.error == VersionOverlap && rows == old(rows)
      ensures r.Ok? ==>
                && OverriddenFrom(old(rows), rows, k, eff, s)
                && r.value.configId in rows && rows[r.value.configId] == Row(k, s, eff, None)
                && rows.Keys == old(rows.Keys) + {r.value.configId}
                && (forall i :: i in old(rows) ==> rows[i].key == old(rows)[i].key)
                && SameOtherKeys(old(rows), rows, k)
                && (r.value.action == Updated <==> r.value.configId in old(rows))
                && (r.value.action == Created <==> forall i :: i in old(rows) ==> old(rows)[i].key != k)
    {
      var found := OpenVersion(k);
      if found == {} {
        NoOpenNoVersion(rows, k, found);
        CreateVersion(rows, nextId, k, s, eff);
        var ok, id := InsertRow(Row(k, s, eff, None));
        return if ok then Ok(Written(Created, id)) else Err(RefusedByConstraint);
      }
      var open := AnyMember(found);
      SwallowsIsPredecessorTest(rows, k, eff, open);
      if eff <= rows[open].from {
        r := AmendOpenVersion(open, k, s, eff);
        return;
      }
      CloseAndOpen(rows, open, nextId, k, s, eff);
      var closed := UpdateRow(open, rows[open].(to := Some(eff - 1)));
      if !closed { return Err(RefusedByConstraint); }
      var ok, id := InsertRow(Row(k, s, eff, None));
      return if ok then Ok(Written(Versioned, id)) else Err(RefusedByConstraint);
    }

    /**
     * apply_config: the checked write. It succeeds exactly when the definition may be set, no
     * closed version would be swallowed and, for an activation, the Branch stays within its
     * limit. A capacity refusal comes after the write: the caller's transaction undoes it.
     */
    method ApplyConfig(k: Key, s: Setting, eff: Date, today: Date) returns (r: Result<Written, ConfigError>)
      requires Valid()
      modifies this`rows, this`nextId
      ensures r.Ok? <==> Applicable(old(rows), defs, k, eff, s, policy)
      ensures IdsAreFresh()
      ensures nextId >= old(nextId)
      ensures r.Ok? ==>
                && Valid()
                && Step(old(State()), Write(map[k.branch := eff], k.definition, s), State(), policy)
                && SameOtherKeys(old(rows), rows, k)
                && r.value.configId in rows && rows[r.value.configId] == Row(k, s, eff, None)
      ensures r.Err? ==>
                match r.error
                case DefinitionNotFound => k.definition !in defs
                case DefinitionNotActive => k.definition in defs && s.active && defs[k.definition].Retired?
                case VersionOverlap => Swallows(old(rows), k, eff)
                case CapacityExceeded(b, e) =>
                  b == k.branch && s.active && e.count > policy.maxBranchInputConcepts
                  && e.count == |ActiveAfter(old(rows), defs, k, eff, s, e.date)| + STATUS_CONCEPT_COUNT
                case _ => false
    {
      if k.definition !in defs { return Err(DefinitionNotFound); }
      if s.active && !defs[k.definition].Active? { return Err(DefinitionNotActive); }
      r := WriteVersion(k, s, eff);
      if r.Err? { return; }
      ghost var t := old(rows);
      if s.active {
        var from := if today < eff then today else eff;
        var excess := EnforceBranchInputCapacity(rows, defs, k.branch, from, policy.maxBranchInputConcepts);
        CheckedFromIsFits(t, rows, defs, k, eff, s, from, policy);
        if excess.Some? {
          ActiveAfterOverride(t, rows, defs, k, eff, s, excess.value.date);
          return Err(CapacityExceeded(k.branch, excess.value));
        }
      }
      StepKeepsCapacity(old(State()), Write(map[k.branch := eff], k.definition, s), State(), policy);
    }

    // ----- requests: one transaction each -----

    /** update_branch_config for one Branch. */
    method UpdateBranchConfig(b: int, p: int, s: Setting, requested: Option<Date>, today: Date)
      returns (r: Result<Written, ConfigError>)
      requires Valid()
      modifies this`rows, this`nextId
      ensures Valid()
      ensures r.Err? ==> rows == old(rows)
      ensures r.Ok? <==>
                && b in branches
                && ResolveActivationDate(periods, b, requested, today).Ok?
                && Applicable(old(rows), defs, Key(b, p),
                              ResolveActivationDate(periods, b, requested, today).value, s, policy)
      ensures r.Ok? ==>
                Step(old(State()),
                     Write(map[b := ResolveActivationDate(periods, b, requested, today).value], p, s),
                     State(), policy)
      ensures r.Ok? ==>
                forall i, q, d ::
                  (&& 0 <= i < |periods| && periods[i].branch == b && periods[i].status != Terminal
                   && periods[i].start <= today <= periods[i].end && d <= periods[i].end)
                  ==> At(rows, Key(b, q), d) == At(old(rows), Key(b, q), d)
    {
      if b !in branches { return Err(BranchNotFound({b})); }
      if p !in defs { return Err(DefinitionNotFound); }
      if s.active && !defs[p].Active? { return Err(DefinitionNotActive); }
      var resolved := ResolveActivationDate(periods, b, requested, today);
      if resolved.Err? { return Err(resolved.error); }
      var saved := rows;
      r := ApplyConfig(Key(b, p), s, resolved.value, today);
      if r.Err? {
        rows := saved;
      } else {
        ProtectionOfOverride(saved, rows, periods, b, p, s, requested, today);
      }
    }

    /** create_direct: a new Active definition, configured in no Branch. */
    method CreateDefinition(p: int) returns (r: Result<(), ConfigError>)
      requires Valid() && p !in defs
      modifies this`defs
      ensures Valid()
      ensures r.Err? <==> |ActiveItems(old(defs))| >= policy.maxCompanyPayItems
      ensures r.Err? ==> defs == old(defs) && r.error == CompanyCapacityExceeded(|ActiveItems(defs)|)
      ensures r.Ok? ==> Step(old(State()), Create(p), State(), policy)
    {
      var count := |ActiveItems(defs)|;
      if count >= policy.maxCompanyPayItems { return Err(CompanyCapacityExceeded(count)); }
      defs := defs[p := BranchCapacity.Active];
      forall b, d ensures At(rows, Key(b, p), d).None? {}
      StepKeepsCapacity(old(State()), Create(p), State(), policy);
      return Ok(());
    }

    /** The request may be approved, and its definition, called p, created and activated. */
    ghost predicate Approvable(q: int, expected: int, p: int, today: Date) reads this {
      && q in requests && requests[q].status.PendingApproval? && requests[q].revision == expected && requests[q].complete
      && |ActiveItems(defs)| < policy.maxCompanyPayItems
      && Fits(rows, defs[p := BranchCapacity.Active], Key(requests[q].branch, p),
              ResolveActivationDate(periods, requests[q].branch, None, today).value, Setting(true, None), policy)
    }

    /** Nothing can be swallowed under a definition that did not exist. */
    lemma NewDefinitionHasNoVersions(b: int, p: int, eff: Date)
      requires Valid() && p !in defs
      ensures !Swallows(rows, Key(b, p), eff)
    {
    }

    /**
     * Approval of a pending request at the revision its reader saw: create the definition, then
     * activate it for the requesting Branch, in one transaction.
     */
    method ApproveRequest(q: int, expected: int, p: int, today: Date) returns (r: Result<Written, ConfigError>)
      requires Valid() && p !in defs
      modifies this`rows, this`nextId, this`defs, this`requests
      ensures Valid()
      ensures r.Ok? <==> old(Approvable(q, expected, p, today))
      ensures r.Err? ==> rows == old(rows) && defs == old(defs) && requests == old(requests)
      ensures r.Ok? ==>
                && requests == old(requests)[q := old(requests)[q].(status := ApprovedAs(p), revision := expected + 1)]
                && Step(old(State()), Create(p), Tables(old(rows), defs), policy)
                && Step(Tables(old(rows), defs),
                        Write(map[requests[q].branch := ResolveActivationDate(periods, requests[q].branch, None, today).value],
                              p, Setting(true, None)),
                        State(), policy)
      ensures r.Ok? ==>
                forall i, x, d ::
                  (&& 0 <= i < |periods| && periods[i].branch == requests[q].branch && periods[i].status != Terminal
                   && periods[i].start <= today <= periods[i].end && d <= periods[i].end)
                  ==> At(rows, Key(requests[q].branch, x), d) == At(old(rows), Key(requests[q].branch, x), d)
    {
      hide At, Fits, ActiveItems, History, Swallows, Overridden, WithinCapacity, SameOtherKeys;
      if q !in requests { return Err(RequestNotFound); }
      var request := requests[q];
      if !request.status.PendingApproval? || request.revision != expected { return Err(RequestConflict); }
      if !request.complete { return Err(RequestIncomplete); }
      var saved, savedDefs := rows, defs;
      var s := Setting(true, None);
      var resolved := ResolveActivationDate(periods, request.branch, None, today);
      NewDefinitionHasNoVersions(request.branch, p, resolved.value);
      var created := CreateDefinition(p);
      if created.Err? { return Err(created.error); }
      assert defs == savedDefs[p := BranchCapacity.Active];
      r := ApplyConfig(Key(request.branch, p), s, resolved.value, today);
      if r.Err? {
        rows, defs := saved, savedDefs;
      } else {
        requests := requests[q := request.(status := ApprovedAs(p), revision := request.revision + 1)];
        ProtectionOfOverride(saved, rows, periods, request.branch, p, s, None, today);
      }
    }

    /** retire_definition: monotonic and idempotent; every version row is preserved. */
    method RetireDefinition(p: int) returns (r: Result<(), ConfigError>)
      requires Valid()
      modifies this`defs
      ensures Valid()
      ensures r.Err? <==> p !in defs
      ensures r.Err? ==> defs == old(defs)
      ensures r.Ok? ==> Step(old(State()), Retire(p), State(), policy)
    {
      if p !in defs { return Err(DefinitionNotFound); }
      if !defs[p].Retired? {
        defs := defs[p := Retired];
      }
      assert defs == old(defs)[p := Retired];
      StepKeepsCapacity(old(State()), Retire(p), State(), policy);
      return Ok(());
    }

    /** SELECT branchid ... ORDER BY branchid. */
    static method InAscendingOrder(ids: set<int>) returns (bs: seq<int>)
      ensures Ascending(bs) && SetOf(bs) == ids
    {
      bs := [];
      var rest := ids;
      while rest != {}
        invariant Ascending(bs) && rest <= ids
        invariant SetOf(bs) == ids - rest
        invariant forall i, c :: 0 <= i < |bs| && c in rest ==> bs[i] < c
        decreases rest
      {
        var least := AnyMember(rest);
        var others := rest - {least};
        while others != {}
          invariant least in rest && others <= rest
          invariant forall c :: c in rest && c !in others ==> least <= c
          decreases others
        {
          var c := AnyMember(others);
          if c < least { least := c; }
          others := others - {c};
        }
        SetOfAppend(bs, least);
        bs := bs + [least];
        rest := rest - {least};
      }
    }

    /** All active Branches of the Company, or the ones listed. */
    function ChosenBranches(target: Target): (chosen: set<int>)
      reads this
      ensures target.AllBranches? ==> forall b :: b in chosen <==> b in branches && branches[b]
      ensures target.SelectedBranches? ==> chosen == target.branches
    {
      match target
      case AllBranches => set b | b in branches && branches[b]
      case SelectedBranches(ids) => ids
    }

    /**
     * bulk_update_branch_config: either every chosen Branch is overridden from its own
     * resolved date, or nothing changes at all.
     */
    method BulkUpdateBranchConfig(
        target: Target, p: int, s: Setting, requested: Option<Date>, today: int -> Date)
      returns (r: Result<seq<int>, ConfigError>)
      requires Valid()
      modifies this`rows, this`nextId
      ensures Valid()
      ensures r.Err? ==> rows == old(rows)
      ensures r.Err? && r.error.BulkValidationFailed? ==>
                forall b :: b in r.error.branches <==>
                  b in ChosenBranches(target) && ResolveActivationDate(periods, b, requested, today(b)).Err?
      ensures r.Ok? <==>
                && (target.AllBranches? ==> ChosenBranches(target) != {})
                && ChosenBranches(target) <= branches.Keys
                && Activatable(defs, p, s)
                && forall b :: b in ChosenBranches(target) ==> CanApply(old(rows), b, p, s, requested, today)
      ensures r.Ok? ==>
                && Step(old(State()),
                        Write(ResolvedTargets(periods, ChosenBranches(target), requested, today), p, s),
                        State(), policy)
      ensures r.Ok? ==>
                forall b, i, x, d ::
                  (&& b in ChosenBranches(target) && 0 <= i < |periods| && periods[i].branch == b
                   && periods[i].status != Terminal
                   && periods[i].start <= today(b) <= periods[i].end && d <= periods[i].end)
                  ==> At(rows, Key(b, x), d) == At(old(rows), Key(b, x), d)
    {
      hide History, WithinCapacity, Overridden, Applicable, Step;
      var chosen := ChosenBranches(target);
      if target.AllBranches? && chosen == {} { return Err(NoActiveBranches); }
      var missing := chosen - branches.Keys;
      if missing != {} {
        ghost var m := Member(missing);
        return Err(BranchNotFound(missing));
      }
      EmptyDifference(chosen, branches.Keys);
      var bs := InAscendingOrder(chosen);
      if p !in defs { return Err(DefinitionNotFound); }
      if s.active && !defs[p].Active? { return Err(DefinitionNotActive); }
      var errors: seq<int> := ValidateBranches(bs, requested, today);
      if errors != [] {
        assert errors[0] in errors;
        return Err(BulkValidationFailed(errors));
      }
      var saved := rows;
      var applied := ApplyToBranches(bs, p, s, requested, today);
      if applied.Err? {
        ghost var b :| b in bs && !CanApply(saved, b, p, s, requested, today);
        assert b in SetOf(bs);
        rows := saved;
        return Err(applied.error);
      }
      var targets := ResolvedTargets(periods, chosen, requested, today);
      assert forall b :: b in chosen ==> b in bs && CanApply(saved, b, p, s, requested, today);
      BulkStep(saved, rows, defs, targets, p, s, policy);
      assert targets.Keys == chosen;
      BulkProtection(saved, rows, periods, targets, p, s, requested, today);
      return Ok(bs);
    }

    /** The second pass: apply the resolved date of every Branch, one after another. */
    method ApplyToBranches(bs: seq<int>, p: int, s: Setting, requested: Option<Date>, today: int -> Date)
      returns (r: Result<(), ConfigError>)
      requires Valid() && IdsAreFresh() && Ascending(bs)
      requires forall b :: b in bs ==> ResolveActivationDate(periods, b, requested, today(b)).Ok?
      modifies this`rows, this`nextId
      ensures IdsAreFresh() && nextId >= old(nextId)
      ensures r.Ok? ==> Valid()
      ensures r.Ok? ==>
                Overridden(old(rows), rows, ResolvedTargets(periods, SetOf(bs), requested, today), p, s)
      ensures r.Ok? <==> forall b :: b in bs ==> CanApply(old(rows), b, p, s, requested, today)
      ensures r.Err? ==> !r.error.BulkValidationFailed?
    {
      hide Valid, IdsAreFresh, CanApply, Overridden, OverriddenFrom, ResolveActivationDate, ResolvedTargets;
      ghost var start := rows;
      ghost var done := ResolvedTargets(periods, SetOf(bs[..0]), requested, today);
      NoTargets(periods, requested, today);
      NothingOverridden(rows, p, s);
      var n := 0;
      while n < |bs|
        invariant 0 <= n <= |bs| && Valid() && IdsAreFresh() && nextId >= old(nextId)
        invariant done == ResolvedTargets(periods, SetOf(bs[..n]), requested, today)
        invariant Overridden(start, rows, done, p, s)
        invariant forall j :: 0 <= j < n ==> CanApply(start, bs[j], p, s, requested, today)
        invariant forall j :: n <= j < |bs| ==>
                    CanApply(rows, bs[j], p, s, requested, today) == CanApply(start, bs[j], p, s, requested, today)
      {
        var b := bs[n];
        ghost var before := rows;
        var one := ApplyToOneBranch(b, p, s, requested, today);
        if one.Err? {
          assert !CanApply(start, bs[n], p, s, requested, today);
          return Err(one.error);
        }
        OneMoreBranch(start, before, rows, bs, n, p, s, requested, today);
        done := ResolvedTargets(periods, SetOf(bs[..n + 1]), requested, today);
        n := n + 1;
      }
      assert bs[..n] == bs;
      return Ok(());
    }

    lemma OneMoreBranch(
        start: Table, before: Table, after: Table, bs: seq<int>, n: nat, p: int, s: Setting,
        requested: Option<Date>, today: int -> Date)
      requires n < |bs| && Ascending(bs) && ResolveActivationDate(periods, bs[n], requested, today(bs[n])).Ok?
      requires Overridden(start, before, ResolvedTargets(periods, SetOf(bs[..n]), requested, today), p, s)
      requires OverriddenFrom(before, after, Key(bs[n], p),
                              ResolveActivationDate(periods, bs[n], requested, today(bs[n])).value, s)
      ensures Overridden(start, after, ResolvedTargets(periods, SetOf(bs[..n + 1]), requested, today), p, s)
    {
      assert bs[..n + 1] == bs[..n] + [bs[n]];
      SetOfAppend(bs[..n], bs[n]);
      OneMoreTarget(periods, SetOf(bs[..n]), requested, today, bs[n]);
      assert bs[n] !in bs[..n];
      OverridesCompose(start, before, after, ResolvedTargets(periods, SetOf(bs[..n]), requested, today), bs[n],
        ResolveActivationDate(periods, bs[n], requested, today(bs[n])).value, p, s);
    }

    method ApplyToOneBranch(b: int, p: int, s: Setting, requested: Option<Date>, today: int -> Date)
      returns (r: Result<(), ConfigError>)
      requires Valid() && IdsAreFresh() && ResolveActivationDate(periods, b, requested, today(b)).Ok?
      modifies this`rows, this`nextId
      ensures IdsAreFresh() && nextId >= old(nextId)
      ensures r.Ok? <==> CanApply(old(rows), b, p, s, requested, today)
      ensures r.Err? ==> !r.error.BulkValidationFailed?
      ensures r.Ok? ==>
                && Valid()
                && OverriddenFrom(old(rows), rows, Key(b, p),
                                  ResolveActivationDate(periods, b, requested, today(b)).value, s)
                && forall c :: c != b ==> CanApply(rows, c, p, s, requested, today)
                                          == CanApply(old(rows), c, p, s, requested, today)
    {
      var resolved := ResolveActivationDate(periods, b, requested, today(b));
      var one := ApplyConfig(Key(b, p), s, resolved.value, today(b));
      if one.Err? {
        return Err(one.error);
      }
      OthersStillApplicable(old(rows), b, p, s, requested, today);
      return Ok(());
    }

    ghost predicate CanApply(t: Table, b: int, p: int, s: Setting, requested: Option<Date>, today: int -> Date)
      reads this`defs, this`periods
    {
      && ResolveActivationDate(periods, b, requested, today(b)).Ok?
      && Applicable(t, defs, Key(b, p), ResolveActivationDate(periods, b, requested, today(b)).value, s, policy)
    }

    lemma OthersStillApplicable(t: Table, b: int, p: int, s: Setting, requested: Option<Date>, today: int -> Date)
      requires DatabaseAccepts(t) && DatabaseAccepts(rows) && SameOtherKeys(t, rows, Key(b, p))
      ensures forall c :: c != b ==>
                CanApply(rows, c, p, s, requested, today) == CanApply(t, c, p, s, requested, today)
    {
      forall c | c != b && ResolveActivationDate(periods, c, requested, today(c)).Ok?
        ensures CanApply(rows, c, p, s, requested, today) == CanApply(t, c, p, s, requested, today)
      {
        OtherBranchesUnaffected(t, rows, defs, Key(b, p), Key(c, p),
          ResolveActivationDate(periods, c, requested, today(c)).value, s, policy);
      }
    }

    /** The first pass: every Branch is resolved, every refusal is collected. */
    method ValidateBranches(bs: seq<int>, requested: Option<Date>, today: int -> Date)
      returns (errors: seq<int>)
      ensures forall b :: b in errors <==>
                b in bs && ResolveActivationDate(periods, b, requested, today(b)).Err?
    {
      errors := [];
      for n := 0 to |bs|
        invariant forall b :: b in errors <==>
                    b in bs[..n] && ResolveActivationDate(periods, b, requested, today(b)).Err?
      {
        if ResolveActivationDate(periods, bs[n], requested, today(bs[n])).Err? {
          errors := errors + [bs[n]];
        }
        assert bs[..n + 1] == bs[..n] + [bs[n]];
      }
      assert bs[..|bs|] == bs;
    }
  }

  /** A predecessor that starts before the new date means no closed version is swallowed. */
  lemma PredecessorSurvives(t: Table, open: int, p: int, k: Key, eff: Date)
    requires History(t) && open in t && t[open].key == k && t[open].to.None?
    requires p in t && t[p].key == k && t[p].to == Some(t[open].from - 1) && t[p].from < eff
    ensures !Swallows(t, k, eff)
  {
    SwallowsIsPredecessorTest(t, k, eff, open);
  }

  /** A key without an open version has no version at all. */
  lemma NoOpenNoVersion(t: Table, k: Key, open: set<int>)
    requires History(t) && open == set i | i in t && t[i].key == k && t[i].to.None?
    ensures open == {} ==> forall i :: i in t ==> t[i].key != k
  {
    forall i | i in t && t[i].key == k ensures open != {} {
      assert StillOpen(t, i);
      var j :| j in t && t[j].key == k && t[j].to.None?;
      assert j in open;
    }
  }

  /** No predecessor of the open version means no other version at all. */
  lemma AloneWithoutPredecessor(t: Table, open: int, k: Key, eff: Date, previous: set<int>)
    requires History(t) && open in t && t[open].key == k && t[open].to.None?
    requires eff == t[open].from ||
             previous == set i | i in t && t[i].key == k && t[i].to == Some(t[open].from - 1)
    ensures eff == t[open].from || previous != {} || forall i :: i in t && t[i].key == k ==> i == open
  {
    forall i | i in t && t[i].key == k && i != open ensures eff == t[open].from || previous != {} {
      OpenIsLast(t, open, i);
      Predecessor(t, open, i);
      var p :| p in t && t[p].key == k && t[p].to == Some(t[open].from - 1);
      assert eff == t[open].from || p in previous;
    }
  }
}
