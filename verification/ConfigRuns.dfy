/**
 * Whole runs of the Branch configuration: the committed requests, one after another, and what
 * holds in every state any sequence of them can reach.
 */
module ConfigRuns {
  import opened Base
  import opened ConfigHistory
  import opened BranchCapacity
  import opened CapacitySweep

  /** The product allowances; ProductPolicy refuses values that are not positive. */
  datatype Policy = Policy(maxCompanyPayItems: int, maxBranchInputConcepts: int)

  predicate Sound(policy: Policy) {
    policy.maxCompanyPayItems > 0 && policy.maxBranchInputConcepts > 0
  }

  function ActiveItems(defs: Catalogue): set<int> {
    set p | p in defs && defs[p].Active?
  }

  /** The committed tables a run changes. */
  datatype Tables = Tables(rows: Table, defs: Catalogue)

  /** One committed request. A single update targets one Branch, a bulk update several. */
  datatype Request =
    | Write(targets: map<int, Date>, definition: int, setting: Setting)
    | Create(definition: int)
    | Retire(definition: int)

  /** What a committed request did, in terms of meaning: rows only through `At`. */
  ghost predicate Step(s: Tables, r: Request, s': Tables, policy: Policy) {
    match r
    case Write(targets, p, setting) =>
      && s'.defs == s.defs
      && History(s'.rows)
      && Overridden(s.rows, s'.rows, targets, p, setting)
      && (setting.active ==>
            && p in s.defs && s.defs[p].Active?
            && forall b, d :: b in targets && targets[b] <= d ==> Concepts(s'.rows, s.defs, b, d) <= policy.maxBranchInputConcepts)
    case Create(p) =>
      && p !in s.defs && s'.rows == s.rows && s'.defs == s.defs[p := Active]
      && |ActiveItems(s.defs)| < policy.maxCompanyPayItems
      && forall b, d :: At(s.rows, Key(b, p), d).None?
    case Retire(p) =>
      p in s.defs && s'.rows == s.rows && s'.defs == s.defs[p := Retired]
  }

  ghost predicate WithinCapacity(s: Tables, policy: Policy) {
    && |ActiveItems(s.defs)| <= policy.maxCompanyPayItems
    && forall b, d :: Concepts(s.rows, s.defs, b, d) <= policy.maxBranchInputConcepts
  }

  ghost predicate Run(states: seq<Tables>, log: seq<Request>, policy: Policy) {
    && |states| == |log| + 1
    && states[0] == Tables(map[], map[])
    && forall i :: 0 <= i < |log| ==> Step(states[i], log[i], states[i + 1], policy)
  }

  /** A day or Branch the write does not touch keeps at most the definitions it had. */
  lemma StepKeepsCapacity(s: Tables, r: Request, s': Tables, policy: Policy)
    requires Step(s, r, s', policy) && WithinCapacity(s, policy)
    ensures WithinCapacity(s', policy)
  {
    match r {
      case Write(_, _, _) =>
      case Create(p) => assert ActiveItems(s'.defs) == ActiveItems(s.defs) + {p};
      case Retire(p) => SubsetSize(ActiveItems(s'.defs), ActiveItems(s.defs));
    }
    forall b, d ensures Concepts(s'.rows, s'.defs, b, d) <= policy.maxBranchInputConcepts {
      if r.Write? && r.setting.active && b in r.targets && r.targets[b] <= d {
        // The sweep covered this day.
      } else {
        assert ActiveDefinitions(s'.rows, s'.defs, b, d) <= ActiveDefinitions(s.rows, s.defs, b, d);
        ConceptsShrink(s.rows, s.defs, s'.rows, s'.defs, b, d);
      }
    }
  }

  /**
   * In every state of every run from the empty tables, every version history is well-formed
   * and every Branch is within its capacity on every day, past days included.
   */
  lemma {:induction false} EveryReachableStateIsSafe(
      states: seq<Tables>, log: seq<Request>, policy: Policy, n: nat)
    requires Sound(policy) && Run(states, log, policy) && n <= |log|
    ensures History(states[n].rows) && WithinCapacity(states[n], policy)
  {
    if n == 0 {
      assert ActiveItems(map[]) == {};
      forall b, d ensures Concepts(map[], map[], b, d) <= policy.maxBranchInputConcepts {
        assert ActiveDefinitions(map[], map[], b, d) == {};
      }
    } else {
      EveryReachableStateIsSafe(states, log, policy, n - 1);
      StepKeepsCapacity(states[n - 1], log[n - 1], states[n], policy);
    }
  }

  /** The setting the log alone gives a key on a day: the last write that had started by then. */
  ghost function Replay(log: seq<Request>, k: Key, d: Date): Option<Setting> {
    if log == [] then None
    else
      var last := log[|log| - 1];
      if last.Write? && last.definition == k.definition && k.branch in last.targets
         && last.targets[k.branch] <= d
      then Some(last.setting)
      else Replay(log[..|log| - 1], k, d)
  }

  /**
   * Refinement over whole runs: whatever versions were created, amended, moved, closed and
   * re-closed on the way, the tables read exactly as the log does.
   */
  lemma {:induction false} RowsRefineTheLog(
      states: seq<Tables>, log: seq<Request>, policy: Policy, k: Key, d: Date)
    requires Run(states, log, policy)
    ensures At(states[|log|].rows, k, d) == Replay(log, k, d)
  {
    if log != [] {
      var n := |log| - 1;
      RowsRefineTheLog(states[..n + 1], log[..n], policy, k, d);
      assert Step(states[n], log[n], states[n + 1], policy);
      assert k == Key(k.branch, k.definition);
    }
  }

  /** A retired definition is never counted again: no request makes it Active again. */
  lemma {:induction false} RetirementIsFinal(
      states: seq<Tables>, log: seq<Request>, policy: Policy, p: int, m: nat, n: nat)
    requires Run(states, log, policy) && m <= n <= |log|
    requires p in states[m].defs && states[m].defs[p].Retired?
    ensures p in states[n].defs && states[n].defs[p].Retired?
  {
    if m < n {
      RetirementIsFinal(states, log, policy, p, m, n - 1);
      assert Step(states[n - 1], log[n - 1], states[n], policy);
    }
  }
}
