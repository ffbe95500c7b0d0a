/**
 * How many input concepts a Branch has on a day, and why counting the clipped version rows of
 * the capacity query counts exactly the active definitions.
 */
module BranchCapacity {
  import opened Base
  import opened ConfigHistory
  import opened CapacitySweep

  datatype Status = Active | Retired

  /** payroll.PayDefinitions: the status of every definition of the Company. */
  type Catalogue = map<int, Status>

  /** The definitions that are operational in the Branch on the day. */
  ghost function ActiveDefinitions(t: Table, defs: Catalogue, b: int, d: Date): set<int> {
    set p | p in defs && defs[p].Active? && At(t, Key(b, p), d).Some? && At(t, Key(b, p), d).value.active
  }

  /** Every active definition is one concept, and Status is one more. */
  ghost function Concepts(t: Table, defs: Catalogue, b: int, d: Date): int {
    |ActiveDefinitions(t, defs, b, d)| + STATUS_CONCEPT_COUNT
  }

  /** The join and WHERE of active_intervals. */
  predicate Counted(r: Row, defs: Catalogue, b: int, from: Date) {
    && r.key.branch == b
    && r.key.definition in defs && defs[r.key.definition].Active?
    && r.setting.active
    && (r.to.None? || r.to.value >= from)
  }

  function CountedRows(t: Table, defs: Catalogue, b: int, from: Date): set<int> {
    set i | i in t && Counted(t[i], defs, b, from)
  }

  /** The interval of one counted row, clipped at the first checked day. */
  function Clip(r: Row, from: Date): Interval {
    Interval(if r.from < from then from else r.from,
             if r.to.None? then None else Some(r.to.value + 1))
  }

  /** Clipping keeps a counted row active on exactly its days from `from` on. */
  lemma ClipKeepsDays(r: Row, defs: Catalogue, b: int, from: Date, d: Date)
    requires NonEmpty(r) && Counted(r, defs, b, from)
    ensures Proper(Clip(r, from))
    ensures ActiveOn(Clip(r, from), d) <==> from <= d && Covers(r, d)
  {
  }

  lemma {:induction false} InjectiveImage(ids: set<int>, f: int -> int, image: set<int>)
    requires forall i, j :: i in ids && j in ids && f(i) == f(j) ==> i == j
    requires forall i :: i in ids ==> f(i) in image
    requires forall p :: p in image ==> exists i :: i in ids && f(i) == p
    ensures |image| == |ids|
    decreases ids
  {
    if ids != {} {
      var i := Member(ids);
      InjectiveImage(ids - {i}, f, image - {f(i)});
      assert image == (image - {f(i)}) + {f(i)};
    } else if image != {} {
      var p := Member(image);
      assert false;
    }
  }

  ghost function CoveringRows(t: Table, ids: set<int>, d: Date): set<int> {
    set i | i in ids && i in t && Covers(t[i], d)
  }

  /** On a checked day, counted rows and active definitions correspond one to one. */
  lemma {:induction false} RowsAreDefinitions(t: Table, defs: Catalogue, b: int, from: Date, d: Date)
    requires DatabaseAccepts(t) && from <= d
    ensures |CoveringRows(t, CountedRows(t, defs, b, from), d)| == |ActiveDefinitions(t, defs, b, d)|
  {
    var ids := CoveringRows(t, CountedRows(t, defs, b, from), d);
    var active := ActiveDefinitions(t, defs, b, d);
    var f := (i: int) => if i in t then t[i].key.definition else 0;
    forall i | i in ids ensures f(i) in active {
      AtCovering(t, i, d);
      assert t[i].key == Key(b, f(i));
    }
    forall i, j | i in ids && j in ids && f(i) == f(j) ensures i == j {
      assert t[i].key == t[j].key;
    }
    forall p | p in active ensures exists i :: i in ids && f(i) == p {
      var i :| i in t && t[i].key == Key(b, p) && Covers(t[i], d);
      AtCovering(t, i, d);
      assert i in ids;
    }
    InjectiveImage(ids, f, active);
  }

  /**
   * In terms of the rows: a definition counts if it is active and a row of it for the Branch that
   * covers the day activates it, and every Branch has one concept more than that.
   */
  lemma ConceptsSpelledOut(t: Table, defs: Catalogue, b: int, d: Date, active: set<int>)
    requires DatabaseAccepts(t)
    requires forall p :: p in active <==>
               && p in defs && defs[p] == Active
               && exists i :: i in t && t[i].key == Key(b, p) && t[i].setting.active
                    && t[i].from <= d && (t[i].to == None || d <= t[i].to.value)
    ensures Concepts(t, defs, b, d) == |active| + 1
  {
    forall p ensures p in ActiveDefinitions(t, defs, b, d) <==> p in active {
      forall i | i in t && t[i].key == Key(b, p) && Covers(t[i], d) ensures At(t, Key(b, p), d) == Some(t[i].setting) {
        AtCovering(t, i, d);
      }
    }
    assert ActiveDefinitions(t, defs, b, d) == active;
  }

  /** Activating nothing can only lower the count; overriding with a setting counts it at most once. */
  lemma ConceptsShrink(t: Table, defs: Catalogue, t': Table, defs': Catalogue, b: int, d: Date)
    requires ActiveDefinitions(t', defs', b, d) <= ActiveDefinitions(t, defs, b, d)
    ensures Concepts(t', defs', b, d) <= Concepts(t, defs, b, d)
  {
    SubsetSize(ActiveDefinitions(t', defs', b, d), ActiveDefinitions(t, defs, b, d));
  }

  lemma OneMoreInterval(t: Table, defs: Catalogue, b: int, from: Date, done: set<int>, i: int, ivs: seq<Interval>)
    requires i in t && NonEmpty(t[i]) && Counted(t[i], defs, b, from) && i !in done
    requires forall d :: from <= d ==> CountOn(ivs, d) == |CoveringRows(t, done, d)|
    ensures forall d :: from <= d ==>
              CountOn([Clip(t[i], from)] + ivs, d) == |CoveringRows(t, done + {i}, d)|
  {
    var iv := Clip(t[i], from);
    forall d | from <= d ensures CountOn([iv] + ivs, d) == |CoveringRows(t, done + {i}, d)| {
      ClipKeepsDays(t[i], defs, b, from, d);
      assert ([iv] + ivs)[1..] == ivs;
      assert CoveringRows(t, done + {i}, d)
          == CoveringRows(t, done, d) + (if Covers(t[i], d) then {i} else {});
    }
  }

  /** The clipped intervals of a set of rows, in whatever order the query returns them. */
  method ActiveIntervals(t: Table, defs: Catalogue, b: int, from: Date) returns (ivs: seq<Interval>)
    requires DatabaseAccepts(t)
    ensures AllProper(ivs)
    ensures forall i :: 0 <= i < |ivs| ==> from <= ivs[i].starts
    ensures forall d :: from <= d ==> CountOn(ivs, d) == |ActiveDefinitions(t, defs, b, d)|
  {
    ivs := [];
    var rest := CountedRows(t, defs, b, from);
    ghost var done: set<int> := {};
    while rest != {}
      invariant AllProper(ivs)
      invariant forall i :: 0 <= i < |ivs| ==> from <= ivs[i].starts
      invariant done !! rest && done + rest == CountedRows(t, defs, b, from)
      invariant forall d :: from <= d ==> CountOn(ivs, d) == |CoveringRows(t, done, d)|
      decreases rest
    {
      var i := AnyMember(rest);
      var iv := Clip(t[i], from);
      OneMoreInterval(t, defs, b, from, done, i, ivs);
      ClipKeepsDays(t[i], defs, b, from, from);
      ivs := [iv] + ivs;
      rest := rest - {i};
      done := done + {i};
    }
    forall d | from <= d ensures CountOn(ivs, d) == |ActiveDefinitions(t, defs, b, d)| {
      assert done == CountedRows(t, defs, b, from);
      RowsAreDefinitions(t, defs, b, from, d);
    }
  }

  /**
   * enforce_branch_input_capacity: no excess is reported exactly when every day from `from`
   * on is within the limit, and a reported excess is the earliest such day with its exact count.
   */
  method EnforceBranchInputCapacity(t: Table, defs: Catalogue, b: int, from: Date, limit: int)
    returns (excess: Option<Excess>)
    requires DatabaseAccepts(t) && limit > 0
    ensures excess.None? <==> forall d :: from <= d ==> Concepts(t, defs, b, d) <= limit
    ensures excess.Some? ==>
              && from <= excess.value.date
              && excess.value.count == Concepts(t, defs, b, excess.value.date) > limit
              && forall d :: from <= d < excess.value.date ==> Concepts(t, defs, b, d) <= limit
  {
    var ivs := ActiveIntervals(t, defs, b, from);
    excess := Sweep(ivs, limit);
    SweepIsPointwise(ivs, limit);
    forall d | from <= d
      ensures CountWithin(ivs, limit, d) <==> Concepts(t, defs, b, d) <= limit
    {
    }
    forall d | d < from ensures CountWithin(ivs, limit, d) {
      CountBeforeStart(ivs, from, d);
    }
    if excess.Some? {
      SweepDateIsActive(ivs, limit, from);
      assert Concepts(t, defs, b, excess.value.date) > limit;
    }
  }
}
