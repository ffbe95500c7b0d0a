/**
 * The set-wise compensation resolver: one pass over all requested keys, equal to resolving each
 * key on its own.
 */
module ScheduleResolver {
  import opened Base

  datatype Status = Pending | Approved | Superseded | Voided

  datatype Schedule = Schedule(driver: int, definition: int, status: Status, effectiveFrom: Date, effectiveTo: Option<Date>)

  datatype Shape = Scalar | OrdinalTierSchedule

  datatype Component = Component(id: int, shape: Shape, sequenceNo: int)

  /** A RateDefinition, and what the join adds of its PayDefinition if it has one. */
  datatype Definition = Definition(shape: Shape, payDefinition: Option<int>, calculationMethod: Option<string>)

  /** The tables of one company; component rows are in no particular order. */
  datatype Tables = Tables(
    drivers: set<int>, definitions: map<int, Definition>, schedules: map<int, Schedule>,
    components: map<int, seq<Component>>, amounts: map<(int, int), real>)

  datatype Key = Key(driver: int, definition: int, workDate: Date)

  datatype ResolvedComponent = ResolvedComponent(component: Component, amount: Option<real>)

  datatype Resolved = Resolved(
    driver: int, rateDefinition: int, definition: Definition,
    schedule: int, effective: Schedule, components: seq<ResolvedComponent>)

  datatype ResolveError = Ownership | Integrity

  predicate Owned(t: Tables, k: Key) {
    k.driver in t.drivers && k.definition in t.definitions
  }

  /** An authoritative schedule of the key that covers its date. */
  predicate Applies(t: Tables, k: Key, id: int) {
    && id in t.schedules
    && t.schedules[id].driver == k.driver && t.schedules[id].definition == k.definition
    && (t.schedules[id].status.Approved? || t.schedules[id].status.Superseded?)
    && t.schedules[id].effectiveFrom <= k.workDate
    && (t.schedules[id].effectiveTo.Some? ==> k.workDate <= t.schedules[id].effectiveTo.value)
  }

  /** Two authoritative schedules apply to one key. */
  ghost predicate Ambiguous(t: Tables, k: Key) {
    exists a, b :: a != b && Applies(t, k, a) && Applies(t, k, b)
  }

  function Amount(t: Tables, id: int, c: Component): Option<real> {
    if (id, c.id) in t.amounts then Some(t.amounts[(id, c.id)]) else None
  }

  // ----- ORDER BY sequenceno -----

  function Insert(c: Component, sorted: seq<Component>): seq<Component> {
    if sorted == [] || c.sequenceNo <= sorted[0].sequenceNo then [c] + sorted
    else [sorted[0]] + Insert(c, sorted[1..])
  }

  function InOrder(rows: seq<Component>): seq<Component> {
    if rows == [] then [] else Insert(rows[0], InOrder(rows[1..]))
  }

  predicate Sequenced(rows: seq<Component>) {
    forall i, j :: 0 <= i < j < |rows| ==> rows[i].sequenceNo <= rows[j].sequenceNo
  }

  lemma {:induction false} InsertKeepsOrder(c: Component, sorted: seq<Component>)
    requires Sequenced(sorted)
    ensures Sequenced(Insert(c, sorted)) && multiset(Insert(c, sorted)) == multiset(sorted) + multiset{c}
    ensures Insert(c, sorted)[0] == c || (sorted != [] && Insert(c, sorted)[0] == sorted[0])
  {
    if sorted != [] && c.sequenceNo > sorted[0].sequenceNo {
      InsertKeepsOrder(c, sorted[1..]);
      assert sorted == [sorted[0]] + sorted[1..];
    }
  }

  /** The components in sequence order: the same rows, none lost or repeated. */
  lemma {:induction false} InOrderSorts(rows: seq<Component>)
    ensures Sequenced(InOrder(rows)) && multiset(InOrder(rows)) == multiset(rows)
  {
    if rows != [] {
      InOrderSorts(rows[1..]);
      InsertKeepsOrder(rows[0], InOrder(rows[1..]));
      assert rows == [rows[0]] + rows[1..];
    }
  }

  function DefinedComponents(t: Tables, id: int): seq<Component>
    requires id in t.schedules
  {
    var d := t.schedules[id].definition;
    if d in t.components then t.components[d] else []
  }

  function ComponentRows(resolved: seq<ResolvedComponent>): (rows: seq<Component>)
    ensures |rows| == |resolved| && forall i :: 0 <= i < |rows| ==> rows[i] == resolved[i].component
  {
    seq(|resolved|, i requires 0 <= i < |resolved| => resolved[i].component)
  }

  /** Every component of the schedule's definition, in sequence order, with that schedule's value. */
  ghost predicate AreComponentsOf(t: Tables, id: int, resolved: seq<ResolvedComponent>)
    requires id in t.schedules
  {
    && ComponentRows(resolved) == InOrder(DefinedComponents(t, id))
    && forall i :: 0 <= i < |resolved| ==> resolved[i].amount == Amount(t, id, resolved[i].component)
  }

  /** What one key resolves to, on its own. */
  ghost predicate ResolvesTo(t: Tables, k: Key, r: Option<Resolved>) {
    match r
    case None => forall id :: !Applies(t, k, id)
    case Some(found) =>
      && Applies(t, k, found.schedule) && found.effective == t.schedules[found.schedule]
      && found.driver == k.driver && found.rateDefinition == k.definition
      && k.definition in t.definitions && found.definition == t.definitions[k.definition]
      && AreComponentsOf(t, found.schedule, found.components)
      && forall id :: Applies(t, k, id) ==> id == found.schedule
  }

  method ResolveMany(t: Tables, keys: seq<Key>) returns (r: Result<map<Key, Option<Resolved>>, ResolveError>)
    ensures r == Err(Ownership) <==> exists k :: k in keys && !(k.driver in t.drivers && k.definition in t.definitions)
    ensures r == Err(Integrity) <==>
            (forall k :: k in keys ==> Owned(t, k)) && exists k :: k in keys && Ambiguous(t, k)
    ensures r.Ok? ==> (forall k :: k in keys <==> k in r.value) && forall k :: k in keys ==> ResolvesTo(t, k, r.value[k])
  {
    var distinct := set k | k in keys;
    if exists k :: k in distinct && !Owned(t, k) {
      ghost var k :| k in distinct && !Owned(t, k);
      assert !(k.driver in t.drivers && k.definition in t.definitions);
      return Err(Ownership);
    }
    assert forall k :: k in keys ==> k in distinct && Owned(t, k);
    var matches := set k, id | k in distinct && id in t.schedules && Applies(t, k, id) :: (k, id);
    var todo := matches;
    var selected: map<Key, int> := map[];
    while todo != {}
      invariant todo <= matches
      invariant forall k :: k in selected ==> (k, selected[k]) in matches - todo
      invariant forall k, id :: (k, id) in matches - todo ==> k in selected && selected[k] == id
    {
      var m :| m in todo;
      if m.0 in selected {
        assert Applies(t, m.0, m.1) && Applies(t, m.0, selected[m.0]);
        assert Ambiguous(t, m.0);
        return Err(Integrity);
      }
      selected := selected[m.0 := m.1];
      todo := todo - {m};
    }
    forall k, a, b | k in keys && Applies(t, k, a) && Applies(t, k, b) ensures a == b {
      assert (k, a) in matches && (k, b) in matches;
    }
    var components := ComponentsBySchedule(t, selected);
    var results: map<Key, Option<Resolved>> := map[];
    var left := distinct;
    while left != {}
      invariant left <= distinct && results.Keys == distinct - left
      invariant forall k :: k in results ==> ResolvesTo(t, k, results[k])
    {
      var k :| k in left;
      if k in selected {
        results := results[k := Some(Resolved(
          k.driver, k.definition, t.definitions[k.definition],
          selected[k], t.schedules[selected[k]], components[selected[k]]))];
      } else {
        forall id ensures !Applies(t, k, id) {
          assert (k, id) !in matches;
        }
        results := results[k := None];
      }
      left := left - {k};
    }
    r := Ok(results);
  }

  /** The components of every selected schedule, collected once per schedule. */
  method ComponentsBySchedule(t: Tables, selected: map<Key, int>) returns (components: map<int, seq<ResolvedComponent>>)
    requires forall k :: k in selected ==> selected[k] in t.schedules
    ensures forall k :: k in selected ==>
              selected[k] in components && AreComponentsOf(t, selected[k], components[selected[k]])
  {
    components := map[];
    var todo := selected.Keys;
    while todo != {}
      invariant todo <= selected.Keys
      invariant forall id :: id in components ==> id in t.schedules && AreComponentsOf(t, id, components[id])
      invariant forall k :: k in selected.Keys - todo ==> selected[k] in components
    {
      var k :| k in todo;
      var id := selected[k];
      var rows: seq<ResolvedComponent> := [];
      var defined := InOrder(DefinedComponents(t, id));
      for i := 0 to |defined|
        invariant |rows| == i
        invariant forall j :: 0 <= j < i ==> rows[j] == ResolvedComponent(defined[j], Amount(t, id, defined[j]))
      {
        rows := rows + [ResolvedComponent(defined[i], Amount(t, id, defined[i]))];
      }
      assert AreComponentsOf(t, id, rows);
      components := components[id := rows];
      todo := todo - {k};
    }
  }

  /** The single-key form. */
  method Resolve(t: Tables, k: Key) returns (r: Result<Option<Resolved>, ResolveError>)
    ensures r == Err(Ownership) <==> !(k.driver in t.drivers && k.definition in t.definitions)
    ensures r == Err(Integrity) <==> Owned(t, k) && Ambiguous(t, k)
    ensures r.Ok? ==> ResolvesTo(t, k, r.value)
  {
    var many := ResolveMany(t, [k]);
    assert k in [k] && forall other :: other in [k] <==> other == k;
    r := if many.Err? then Err(many.error) else Ok(many.value[k]);
  }

  /** A key resolves to one thing only. */
  lemma ResolutionIsUnique(t: Tables, k: Key, a: Option<Resolved>, b: Option<Resolved>)
    requires ResolvesTo(t, k, a) && ResolvesTo(t, k, b)
    ensures a == b
  {
    if a.Some? {
      var x, y := a.value.components, b.value.components;
      var order := InOrder(DefinedComponents(t, a.value.schedule));
      forall i | 0 <= i < |order| ensures x[i] == y[i] {
        assert x[i].component == order[i] == y[i].component;
      }
      assert x == y;
    }
  }

  /**
   * In terms of the tables: the schedule found is the only approved or superseded one of the
   * driver and the definition whose window has the date in it, both ends included, there is none
   * if none is found, and each component comes with that schedule's value for it, or with none.
   */
  lemma ResolutionSpelledOut(t: Tables, k: Key, r: Option<Resolved>)
    requires ResolvesTo(t, k, r)
    ensures forall id :: id in t.schedules ==>
              ((r.Some? && r.value.schedule == id) <==>
                var s := t.schedules[id];
                && s.driver == k.driver && s.definition == k.definition && s.status in {Approved, Superseded}
                && s.effectiveFrom <= k.workDate && (s.effectiveTo == None || k.workDate <= s.effectiveTo.value))
    ensures r.Some? ==> r.value.schedule in t.schedules && forall i :: 0 <= i < |r.value.components| ==>
              var at := (r.value.schedule, r.value.components[i].component.id);
              r.value.components[i].amount == if at in t.amounts then Some(t.amounts[at]) else None
  {
    forall id | id in t.schedules
      ensures Applies(t, k, id) <==>
              var s := t.schedules[id];
              && s.driver == k.driver && s.definition == k.definition && s.status in {Approved, Superseded}
              && s.effectiveFrom <= k.workDate && (s.effectiveTo == None || k.workDate <= s.effectiveTo.value)
    {
    }
  }

  /** Whatever other keys are asked for along with it, how often and in which order: same result. */
  lemma OtherKeysDoNotMatter(
      t: Tables, some: map<Key, Option<Resolved>>, others: map<Key, Option<Resolved>>, k: Key)
    requires (forall x :: x in some ==> ResolvesTo(t, x, some[x])) && forall x :: x in others ==> ResolvesTo(t, x, others[x])
    requires k in some && k in others
    ensures some[k] == others[k]
  {
    ResolutionIsUnique(t, k, some[k], others[k]);
  }

  /** The values of a resolved schedule come in sequence order, one for each component row. */
  lemma ResolvedInSequence(t: Tables, k: Key, r: Resolved)
    requires ResolvesTo(t, k, Some(r))
    ensures forall i, j :: 0 <= i < j < |r.components| ==>
              r.components[i].component.sequenceNo <= r.components[j].component.sequenceNo
    ensures var d := t.schedules[r.schedule].definition;
            multiset(ComponentRows(r.components)) == multiset(if d in t.components then t.components[d] else [])
  {
    InOrderSorts(DefinedComponents(t, r.schedule));
  }

  lemma ComponentsExist(t: Tables, id: int) returns (resolved: seq<ResolvedComponent>)
    requires id in t.schedules
    ensures AreComponentsOf(t, id, resolved)
  {
    var order := InOrder(DefinedComponents(t, id));
    resolved := seq(|order|, i requires 0 <= i < |order| => ResolvedComponent(order[i], Amount(t, id, order[i])));
  }

  /** Resolving together succeeds exactly when resolving every key on its own would. */
  lemma TogetherIsOneByOne(t: Tables, keys: seq<Key>)
    ensures (forall k :: k in keys ==> Owned(t, k) && !Ambiguous(t, k))
        <==> forall k :: k in keys ==> Owned(t, k) && exists r :: ResolvesTo(t, k, r)
  {
    forall k | k in keys && Owned(t, k) && !Ambiguous(t, k) ensures exists r :: ResolvesTo(t, k, r) {
      if id :| Applies(t, k, id) {
        var components := ComponentsExist(t, id);
        var found := Resolved(k.driver, k.definition, t.definitions[k.definition], id, t.schedules[id], components);
        forall other | Applies(t, k, other) ensures other == id {
        }
        assert ResolvesTo(t, k, Some(found));
      } else {
        assert ResolvesTo(t, k, None);
      }
    }
  }

  // ----- what the database's exclusion constraint gives -----

  predicate Authoritative(s: Schedule) {
    (s.status.Approved? || s.status.Superseded?) && (s.effectiveTo.Some? ==> s.effectiveFrom <= s.effectiveTo.value)
  }

  predicate EndsBefore(a: Schedule, b: Schedule) {
    a.effectiveTo.Some? && a.effectiveTo.value < b.effectiveFrom
  }

  predicate SameHistory(a: Schedule, b: Schedule) {
    a.driver == b.driver && a.definition == b.definition && Authoritative(a) && Authoritative(b)
  }

  /** Authoritative windows of one Driver and RateDefinition never overlap. */
  ghost predicate WindowsExclude(t: Tables) {
    forall a, b :: a in t.schedules && b in t.schedules && a != b && SameHistory(t.schedules[a], t.schedules[b]) ==>
      EndsBefore(t.schedules[a], t.schedules[b]) || EndsBefore(t.schedules[b], t.schedules[a])
  }

  /** The integrity error is impossible exactly as long as the exclusion constraint holds. */
  lemma ExclusionMeansUnambiguous(t: Tables)
    ensures WindowsExclude(t) <==> forall k :: !Ambiguous(t, k)
  {
    if WindowsExclude(t) {
      forall k ensures !Ambiguous(t, k) {
        if a, b :| a != b && Applies(t, k, a) && Applies(t, k, b) {
          assert SameHistory(t.schedules[a], t.schedules[b]);
        }
      }
    }
    if forall k :: !Ambiguous(t, k) {
      forall a, b | a in t.schedules && b in t.schedules && a != b && SameHistory(t.schedules[a], t.schedules[b])
        ensures EndsBefore(t.schedules[a], t.schedules[b]) || EndsBefore(t.schedules[b], t.schedules[a])
      {
        var x, y := t.schedules[a], t.schedules[b];
        var day := if x.effectiveFrom < y.effectiveFrom then y.effectiveFrom else x.effectiveFrom;
        var k := Key(x.driver, x.definition, day);
        assert !Ambiguous(t, k);
        assert !EndsBefore(x, y) && !EndsBefore(y, x) ==> Applies(t, k, a) && Applies(t, k, b);
      }
    }
  }
}
