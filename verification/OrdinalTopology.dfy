/**
 * Ordinal tiers: which topologies are accepted, and what a quantity earns against one. The tier
 * check reads bounds one after another; what it accepts is characterised by the ordinals covered.
 */
module OrdinalTopology {
  import opened Base

  /** A bound as it arrives: a whole number or something else. */
  datatype Bound = Whole(n: int) | NotWhole

  datatype Tier = Tier(start: Bound, end: Option<Bound>)

  datatype Problem =
    | NoTier | BoundNotWhole | BoundNotPositive | FirstMustStartAtOne | GapOrOverlap
    | OnlyLastIsOpen | EndsBeforeStart | LastMustBeOpen

  // ----- the check -----

  /** What is wrong with one tier that should start at this ordinal, if anything. */
  function TierProblem(tiers: seq<Tier>, i: nat, expected: int): Option<Problem>
    requires i < |tiers|
  {
    var t := tiers[i];
    if t.start.NotWhole? || (t.end.Some? && t.end.value.NotWhole?) then Some(BoundNotWhole)
    else if t.start.n < 1 || (t.end.Some? && t.end.value.n < 1) then Some(BoundNotPositive)
    else if t.start.n != expected then Some(if i == 0 then FirstMustStartAtOne else GapOrOverlap)
    else if t.end.None? then if i < |tiers| - 1 then Some(OnlyLastIsOpen) else None
    else if t.end.value.n < t.start.n then Some(EndsBeforeStart)
    else if i == |tiers| - 1 then Some(LastMustBeOpen)
    else None
  }

  function ProblemFrom(tiers: seq<Tier>, i: nat, expected: int): Option<Problem>
    requires i <= |tiers|
    decreases |tiers| - i
  {
    if i == |tiers| then None
    else if TierProblem(tiers, i, expected).Some? then TierProblem(tiers, i, expected)
    else ProblemFrom(tiers, i + 1, if tiers[i].end.Some? then tiers[i].end.value.n + 1 else expected)
  }

  function TopologyProblem(tiers: seq<Tier>): Option<Problem> {
    if tiers == [] then Some(NoTier) else ProblemFrom(tiers, 0, 1)
  }

  method TopologyError(tiers: seq<Tier>) returns (problem: Option<Problem>)
    ensures problem == TopologyProblem(tiers)
  {
    if tiers == [] {
      return Some(NoTier);
    }
    var expectedFrom := 1;
    for index := 0 to |tiers|
      invariant TopologyProblem(tiers) == ProblemFrom(tiers, index, expectedFrom)
    {
      var Tier(start, end) := tiers[index];
      var isLast := index == |tiers| - 1;
      if start.NotWhole? || (end.Some? && end.value.NotWhole?) {
        return Some(BoundNotWhole);
      }
      if start.n < 1 || (end.Some? && end.value.n < 1) {
        return Some(BoundNotPositive);
      }
      if start.n != expectedFrom {
        return Some(if index == 0 then FirstMustStartAtOne else GapOrOverlap);
      }
      if end.None? {
        if !isLast {
          return Some(OnlyLastIsOpen);
        }
      } else {
        if end.value.n < start.n {
          return Some(EndsBeforeStart);
        }
        if isLast {
          return Some(LastMustBeOpen);
        }
        expectedFrom := end.value.n + 1;
      }
    }
    problem := None;
  }

  // ----- what is accepted -----

  predicate IsRange(t: Tier) {
    t.start.Whole? && (t.end.Some? ==> t.end.value.Whole?)
  }

  predicate Covers(t: Tier, n: int) {
    IsRange(t) && t.start.n <= n && (t.end.Some? ==> n <= t.end.value.n)
  }

  ghost predicate CoversSome(t: Tier) {
    exists n :: Covers(t, n)
  }

  /** Some tier from the i-th on covers the ordinal. */
  ghost predicate CoveredFrom(tiers: seq<Tier>, i: nat, n: int) {
    exists j :: i <= j < |tiers| && Covers(tiers[j], n)
  }

  /**
   * The tiers from the i-th on are non-empty integer ranges, in order, that cover every ordinal
   * from the given one on exactly once, and no other.
   */
  ghost predicate Partition(tiers: seq<Tier>, i: nat, first: int) {
    && (forall j :: i <= j < |tiers| ==> IsRange(tiers[j]) && CoversSome(tiers[j]))
    && (forall j, k, m, n :: i <= j < k < |tiers| && Covers(tiers[j], m) && Covers(tiers[k], n) ==> m < n)
    && (forall n :: first <= n ==> CoveredFrom(tiers, i, n))
    && (forall j, n :: i <= j < |tiers| && Covers(tiers[j], n) ==> first <= n)
  }

  lemma {:induction false} AcceptedIsPartition(tiers: seq<Tier>, i: nat, first: int)
    requires i < |tiers| && first >= 1 && ProblemFrom(tiers, i, first).None?
    ensures Partition(tiers, i, first)
    decreases |tiers| - i
  {
    var t := tiers[i];
    assert Covers(t, first);
    if i < |tiers| - 1 {
      AcceptedIsPartition(tiers, i + 1, t.end.value.n + 1);
      assert forall n :: CoveredFrom(tiers, i + 1, n) ==> CoveredFrom(tiers, i, n);
      assert forall n :: first <= n <= t.end.value.n ==> Covers(tiers[i], n);
      assert forall n :: first <= n <= t.end.value.n ==> CoveredFrom(tiers, i, n);
    } else {
      assert forall n :: first <= n ==> Covers(tiers[i], n);
      assert forall n :: first <= n ==> CoveredFrom(tiers, i, n);
    }
  }

  /** In a partition the first tier starts at the first ordinal. */
  lemma PartitionStart(tiers: seq<Tier>, i: nat, first: int)
    requires i < |tiers| && Partition(tiers, i, first)
    ensures IsRange(tiers[i]) && tiers[i].start.n == first && Covers(tiers[i], first)
  {
    var some :| Covers(tiers[i], some);
    assert Covers(tiers[i], tiers[i].start.n);
    assert CoveredFrom(tiers, i, first);
  }

  lemma PartitionRest(tiers: seq<Tier>, i: nat, first: int)
    requires i < |tiers| && Partition(tiers, i, first)
    ensures i < |tiers| - 1 <==> tiers[i].end.Some?
    ensures i < |tiers| - 1 ==> first <= tiers[i].end.value.n && Partition(tiers, i + 1, tiers[i].end.value.n + 1)
  {
    PartitionStart(tiers, i, first);
    var t := tiers[i];
    if i < |tiers| - 1 {
      assert CoversSome(tiers[i + 1]);
      var later :| Covers(tiers[i + 1], later);
      assert !Covers(t, later);
      var last := t.end.value.n;
      assert Covers(t, last);
      var next := i + 1;
      forall n | last + 1 <= n ensures CoveredFrom(tiers, next, n) {
        assert CoveredFrom(tiers, i, n);
        var j :| i <= j < |tiers| && Covers(tiers[j], n);
        assert j != i;
      }
      assert forall j, n :: i + 1 <= j < |tiers| && Covers(tiers[j], n) ==> last < n;
    } else {
      assert t.end.Some? && first <= t.end.value.n + 1 ==> CoveredFrom(tiers, i, t.end.value.n + 1);
    }
  }

  lemma {:induction false} PartitionIsAccepted(tiers: seq<Tier>, i: nat, first: int)
    requires i < |tiers| && first >= 1 && Partition(tiers, i, first)
    ensures ProblemFrom(tiers, i, first).None?
    decreases |tiers| - i
  {
    PartitionStart(tiers, i, first);
    PartitionRest(tiers, i, first);
    if i < |tiers| - 1 {
      PartitionIsAccepted(tiers, i + 1, tiers[i].end.value.n + 1);
    }
  }

  /**
   * A topology is accepted exactly when its tiers are non-empty integer ranges, in order, that
   * cover every ordinal from 1 on exactly once.
   */
  lemma AcceptedIffPartition(tiers: seq<Tier>)
    ensures TopologyProblem(tiers).None? <==> tiers != [] && Partition(tiers, 0, 1)
  {
    if tiers != [] {
      if TopologyProblem(tiers).None? {
        AcceptedIsPartition(tiers, 0, 1);
      }
      if Partition(tiers, 0, 1) {
        PartitionIsAccepted(tiers, 0, 1);
      }
    }
  }

  lemma AcceptedAreRanges(tiers: seq<Tier>)
    requires TopologyProblem(tiers).None?
    ensures tiers != [] && AllRanges(tiers)
  {
    AcceptedIffPartition(tiers);
  }

  // ----- what a quantity earns -----

  function Min(a: int, b: int): int { if a < b then a else b }

  function Max(a: int, b: int): int { if a < b then b else a }

  /** The ordinal units of a quantity that a tier covers. */
  function Units(t: Tier, quantity: int): int
    requires IsRange(t)
  {
    Max(0, (if t.end.None? then quantity else Min(quantity, t.end.value.n)) - t.start.n + 1)
  }

  function Product(units: int, value: real): real {
    units as real * value
  }

  predicate AllRanges(tiers: seq<Tier>) {
    forall i :: 0 <= i < |tiers| ==> IsRange(tiers[i])
  }

  /** Units times value, summed over the tiers from the i-th on. */
  function Earned(tiers: seq<Tier>, values: seq<real>, quantity: int, i: nat): real
    requires AllRanges(tiers) && |values| == |tiers| && i <= |tiers|
    decreases |tiers| - i
  {
    if i == |tiers| then 0.0
    else Product(Units(tiers[i], quantity), values[i]) + Earned(tiers, values, quantity, i + 1)
  }

  // ----- the rounding -----

  /** Ten thousand internal quanta make one: amounts are kept to 0.0001. */
  const QUANTA_IN_ONE := 10000.0

  /** A whole number of quanta. */
  predicate IsFine(x: real) {
    (x * QUANTA_IN_ONE).Floor as real == x * QUANTA_IN_ONE
  }

  /** The nearest whole number of quanta, the even one when two are equally near. */
  function Quantize(x: real): real {
    var scaled := x * QUANTA_IN_ONE;
    var below := scaled.Floor;
    var part := scaled - below as real;
    (if part < 0.5 || (part == 0.5 && below % 2 == 0) then below else below + 1) as real / QUANTA_IN_ONE
  }

  lemma FineIsKept(x: real)
    ensures IsFine(Quantize(x)) && (Quantize(x) == x <==> IsFine(x))
  {
    var scaled := x * QUANTA_IN_ONE;
    assert Quantize(x) * QUANTA_IN_ONE == scaled.Floor as real || Quantize(x) * QUANTA_IN_ONE == (scaled.Floor + 1) as real;
  }

  lemma FineSums(x: real, y: real)
    requires IsFine(x) && IsFine(y)
    ensures IsFine(x + y)
  {
    assert (x + y) * QUANTA_IN_ONE == ((x * QUANTA_IN_ONE).Floor + (y * QUANTA_IN_ONE).Floor) as real;
  }

  lemma FineMultiples(n: int, x: real)
    requires IsFine(x)
    ensures IsFine(Product(n, x)) && Quantize(Product(n, x)) == Product(n, x)
  {
    var k := (x * QUANTA_IN_ONE).Floor;
    RegroupedProduct(n, x, k);
    FineIsKept(Product(n, x));
  }

  lemma RegroupedProduct(n: int, x: real, k: int)
    requires x * QUANTA_IN_ONE == k as real
    ensures Product(n, x) * QUANTA_IN_ONE == (n * k) as real
  {
    assert n as real * x * QUANTA_IN_ONE == n as real * (x * QUANTA_IN_ONE);
    assert n as real * k as real == (n * k) as real;
  }

  predicate AllFine(values: seq<real>) {
    forall i :: 0 <= i < |values| ==> IsFine(values[i])
  }

  /** Each tier's contribution rounded on its own, summed over the tiers from the i-th on. */
  function Contributed(tiers: seq<Tier>, values: seq<real>, quantity: int, i: nat): real
    requires AllRanges(tiers) && |values| == |tiers| && i <= |tiers|
    decreases |tiers| - i
  {
    if i == |tiers| then 0.0
    else Quantize(Product(Units(tiers[i], quantity), values[i])) + Contributed(tiers, values, quantity, i + 1)
  }

  lemma {:induction false} ContributionsAreFine(tiers: seq<Tier>, values: seq<real>, quantity: int, i: nat)
    requires AllRanges(tiers) && |values| == |tiers| && i <= |tiers|
    ensures IsFine(Contributed(tiers, values, quantity, i))
    decreases |tiers| - i
  {
    if i < |tiers| {
      ContributionsAreFine(tiers, values, quantity, i + 1);
      FineIsKept(Product(Units(tiers[i], quantity), values[i]));
      FineSums(Quantize(Product(Units(tiers[i], quantity), values[i])), Contributed(tiers, values, quantity, i + 1));
    }
  }

  /** Rounding the sum of the rounded contributions once more changes nothing. */
  lemma SecondRoundingIsIdle(tiers: seq<Tier>, values: seq<real>, quantity: int)
    requires AllRanges(tiers) && |values| == |tiers|
    ensures Quantize(Contributed(tiers, values, quantity, 0)) == Contributed(tiers, values, quantity, 0)
  {
    ContributionsAreFine(tiers, values, quantity, 0);
    FineIsKept(Contributed(tiers, values, quantity, 0));
  }

  /** A tier as it arrives: its place in the sequence, and its value if that is a finite number. */
  datatype FilledTier = FilledTier(sequenceNo: int, tier: Tier, value: Option<real>)

  datatype TierError = BadQuantity | OutOfSequence | BadTopology(problem: Problem) | BadValue

  predicate InSequence(tiers: seq<FilledTier>) {
    forall i, j :: 0 <= i < j < |tiers| ==> tiers[i].sequenceNo <= tiers[j].sequenceNo
  }

  predicate GoodValues(tiers: seq<FilledTier>) {
    forall i :: 0 <= i < |tiers| ==> tiers[i].value.Some? && tiers[i].value.value >= 0.0
  }

  function TiersOf(tiers: seq<FilledTier>): (r: seq<Tier>)
    ensures |r| == |tiers| && forall i :: 0 <= i < |r| ==> r[i] == tiers[i].tier
  {
    seq(|tiers|, i requires 0 <= i < |tiers| => tiers[i].tier)
  }

  function ValuesOf(tiers: seq<FilledTier>): (r: seq<real>)
    requires GoodValues(tiers)
    ensures |r| == |tiers| && forall i :: 0 <= i < |r| ==> r[i] == tiers[i].value.value
  {
    seq(|tiers|, i requires 0 <= i < |tiers| => tiers[i].value.value)
  }

  /** The first refusal that applies, in the order of the checks. */
  function TierRefusal(quantity: real, tiers: seq<FilledTier>): Option<TierError> {
    if quantity < 0.0 || quantity.Floor as real != quantity then Some(BadQuantity)
    else if !InSequence(tiers) then Some(OutOfSequence)
    else if TopologyProblem(TiersOf(tiers)).Some? then Some(BadTopology(TopologyProblem(TiersOf(tiers)).value))
    else if !GoodValues(tiers) then Some(BadValue)
    else None
  }

  /** Units times value per tier, each rounded, then the rounded sum. */
  method CalculateOrdinalTier(quantity: real, filled: seq<FilledTier>)
    returns (total: Result<real, TierError>, units: seq<int>)
    ensures total.Err? <==> TierRefusal(quantity, filled).Some?
    ensures total.Err? ==> total.error == TierRefusal(quantity, filled).value
    ensures total.Ok? ==> AllRanges(TiersOf(filled)) && GoodValues(filled)
    ensures total.Ok? ==> total.value == Contributed(TiersOf(filled), ValuesOf(filled), quantity.Floor, 0)
    ensures total.Ok? ==>
              |units| == |filled| && forall i :: 0 <= i < |filled| ==> units[i] == Units(filled[i].tier, quantity.Floor)
  {
    hide Product, Quantize, IsFine, ProblemFrom, Partition, TopologyProblem;
    units := [];
    if quantity < 0.0 || quantity.Floor as real != quantity {
      return Err(BadQuantity), units;
    }
    if !InSequence(filled) {
      return Err(OutOfSequence), units;
    }
    var tiers := TiersOf(filled);
    var problem := TopologyError(tiers);
    if problem.Some? {
      return Err(BadTopology(problem.value)), units;
    }
    if !GoodValues(filled) {
      return Err(BadValue), units;
    }
    AcceptedAreRanges(tiers);
    var values := ValuesOf(filled);
    var unitsTotal := quantity.Floor;
    var sum := 0.0;
    for i := 0 to |tiers|
      invariant AllRanges(tiers) && |units| == i
      invariant forall k :: 0 <= k < i ==> units[k] == Units(tiers[k], unitsTotal)
      invariant sum + Contributed(tiers, values, unitsTotal, i) == Contributed(tiers, values, unitsTotal, 0)
    {
      var last := if tiers[i].end.None? then unitsTotal else Min(unitsTotal, tiers[i].end.value.n);
      var covered := Max(0, last - tiers[i].start.n + 1);
      units := units + [covered];
      sum := sum + Quantize(Product(covered, values[i]));
    }
    SecondRoundingIsIdle(tiers, values, unitsTotal);
    total := Ok(Quantize(sum));
  }

  // ----- unit by unit -----

  /** The value of the tier that covers an ordinal, looking from the i-th tier on. */
  function ValueAt(tiers: seq<Tier>, values: seq<real>, n: int, i: nat): real
    requires |values| == |tiers| && i <= |tiers|
    decreases |tiers| - i
  {
    if i == |tiers| then 0.0 else if Covers(tiers[i], n) then values[i] else ValueAt(tiers, values, n, i + 1)
  }

  /** What the ordinals from a to b earn, one at a time. */
  function OneByOne(tiers: seq<Tier>, values: seq<real>, a: int, b: int, i: nat): real
    requires |values| == |tiers| && i <= |tiers|
    decreases b - a + 1
  {
    if b < a then 0.0 else OneByOne(tiers, values, a, b - 1, i) + ValueAt(tiers, values, b, i)
  }

  /** Ordinals that all lie in one tier earn its value each. */
  lemma {:induction false} WithinOneTier(tiers: seq<Tier>, values: seq<real>, a: int, b: int, i: nat)
    requires |values| == |tiers| && i < |tiers| && a <= b + 1
    requires forall n :: a <= n <= b ==> Covers(tiers[i], n)
    ensures OneByOne(tiers, values, a, b, i) == Product(b - a + 1, values[i])
    decreases b - a + 1
  {
    if a <= b {
      WithinOneTier(tiers, values, a, b - 1, i);
    }
  }

  /** Ordinals that the i-th tier does not cover are left to the later ones. */
  lemma {:induction false} BeyondTheTier(tiers: seq<Tier>, values: seq<real>, a: int, b: int, i: nat)
    requires |values| == |tiers| && i < |tiers| && forall n :: a <= n <= b ==> !Covers(tiers[i], n)
    ensures OneByOne(tiers, values, a, b, i) == OneByOne(tiers, values, a, b, i + 1)
    decreases b - a + 1
  {
    if a <= b {
      BeyondTheTier(tiers, values, a, b - 1, i);
    }
  }

  lemma {:induction false} Contiguous(tiers: seq<Tier>, values: seq<real>, a: int, m: int, b: int, i: nat)
    requires |values| == |tiers| && i <= |tiers| && a <= m + 1 <= b + 1
    ensures OneByOne(tiers, values, a, b, i) == OneByOne(tiers, values, a, m, i) + OneByOne(tiers, values, m + 1, b, i)
    decreases b - m
  {
    if m < b {
      Contiguous(tiers, values, a, m, b - 1, i);
    }
  }

  /** Tiers beyond the quantity contribute nothing. */
  lemma {:induction false} NothingBeyond(tiers: seq<Tier>, values: seq<real>, quantity: int, i: nat, first: int)
    requires AllRanges(tiers) && |values| == |tiers| && i <= |tiers| && quantity < first
    requires i < |tiers| ==> first >= 1 && ProblemFrom(tiers, i, first).None?
    ensures Earned(tiers, values, quantity, i) == 0.0
    decreases |tiers| - i
  {
    if i < |tiers| {
      NothingBeyond(tiers, values, quantity, i + 1, if tiers[i].end.Some? then tiers[i].end.value.n + 1 else first);
    }
  }

  lemma {:induction false} EarnedFrom(tiers: seq<Tier>, values: seq<real>, quantity: int, i: nat, first: int)
    requires AllRanges(tiers) && |values| == |tiers| && i < |tiers|
    requires first >= 1 && ProblemFrom(tiers, i, first).None? && first <= quantity + 1
    ensures Earned(tiers, values, quantity, i) == OneByOne(tiers, values, first, quantity, i)
    decreases |tiers| - i
  {
    var t := tiers[i];
    var last := if t.end.Some? then Min(quantity, t.end.value.n) else quantity;
    WithinOneTier(tiers, values, first, last, i);
    assert Units(t, quantity) == last - first + 1;
    if i < |tiers| - 1 {
      Contiguous(tiers, values, first, last, quantity, i);
      BeyondTheTier(tiers, values, last + 1, quantity, i);
      assert OneByOne(tiers, values, first, quantity, i)
          == Product(last - first + 1, values[i]) + OneByOne(tiers, values, last + 1, quantity, i + 1);
      if t.end.value.n <= quantity {
        EarnedFrom(tiers, values, quantity, i + 1, t.end.value.n + 1);
      } else {
        assert OneByOne(tiers, values, last + 1, quantity, i + 1) == 0.0;
        NothingBeyond(tiers, values, quantity, i + 1, t.end.value.n + 1);
      }
    }
  }

  /**
   * Progressive per unit, before rounding: what a quantity earns tier by tier is what its
   * ordinals earn one by one, the n-th at the value of the tier that covers n.
   */
  lemma EarnedIsUnitByUnit(tiers: seq<Tier>, values: seq<real>, quantity: nat)
    requires |values| == |tiers| && TopologyProblem(tiers).None?
    ensures AllRanges(tiers) && Earned(tiers, values, quantity, 0) == OneByOne(tiers, values, 1, quantity, 0)
  {
    AcceptedIffPartition(tiers);
    EarnedFrom(tiers, values, quantity, 0, 1);
  }

  /** With the values of the first i tiers fine, rounding can only show in the later tiers. */
  lemma {:induction false} RoundingShowsLater(tiers: seq<Tier>, values: seq<real>, quantity: int, i: nat, k: nat)
    requires AllRanges(tiers) && |values| == |tiers| && k <= i <= |tiers|
    requires forall j :: 0 <= j < i ==> IsFine(values[j])
    ensures Contributed(tiers, values, quantity, k) - Earned(tiers, values, quantity, k)
         == Contributed(tiers, values, quantity, i) - Earned(tiers, values, quantity, i)
    decreases i - k
  {
    hide Product, Quantize, IsFine, Units;
    if k < i {
      FineMultiples(Units(tiers[k], quantity), values[k]);
      RoundingShowsLater(tiers, values, quantity, i, k + 1);
    }
  }

  lemma NoUnitsNoAmount(value: real)
    ensures Product(0, value) == 0.0 && Quantize(0.0) == 0.0 && Product(1, value) == value
  {
    FineIsKept(0.0);
  }

  lemma {:induction false} NothingContributedBeyond(tiers: seq<Tier>, values: seq<real>, quantity: int, i: nat, first: int)
    requires AllRanges(tiers) && |values| == |tiers| && i <= |tiers| && quantity < first
    requires i < |tiers| ==> first >= 1 && ProblemFrom(tiers, i, first).None?
    ensures Contributed(tiers, values, quantity, i) == 0.0
    decreases |tiers| - i
  {
    hide Product, Quantize, IsFine;
    if i < |tiers| {
      assert Units(tiers[i], quantity) == 0;
      NoUnitsNoAmount(values[i]);
      NothingContributedBeyond(tiers, values, quantity, i + 1, if tiers[i].end.Some? then tiers[i].end.value.n + 1 else first);
    }
  }

  /** Where the i-th tier of an accepted topology starts, the later ones are still to come. */
  lemma {:induction false} StartOfTier(tiers: seq<Tier>, k: nat, first: int, i: nat)
    requires k <= i < |tiers| && first >= 1 && ProblemFrom(tiers, k, first).None?
    ensures tiers[i].start.Whole? && tiers[i].start.n >= 1 && ProblemFrom(tiers, i, tiers[i].start.n).None?
    decreases i - k
  {
    if k < i {
      StartOfTier(tiers, k + 1, if tiers[k].end.Some? then tiers[k].end.value.n + 1 else first, i);
    }
  }

  /** The quantity that just reaches a tier shows whether that tier's value is fine. */
  lemma FirstUnitShowsTheValue(tiers: seq<Tier>, values: seq<real>, i: nat)
    requires |values| == |tiers| && TopologyProblem(tiers).None? && i < |tiers|
    requires forall j :: 0 <= j < i ==> IsFine(values[j])
    ensures AllRanges(tiers) && tiers[i].start.n >= 1
    ensures var q := tiers[i].start.n;
            Contributed(tiers, values, q, 0) == Earned(tiers, values, q, 0) <==> IsFine(values[i])
  {
    hide Product, Quantize, IsFine, Partition, ProblemFrom;
    AcceptedAreRanges(tiers);
    StartsAt(tiers, i);
    var q := tiers[i].start.n;
    RoundingShowsLater(tiers, values, q, i, 0);
    LaterTiersAreIdle(tiers, values, i);
    NoUnitsNoAmount(values[i]);
    FineIsKept(values[i]);
  }

  lemma StartsAt(tiers: seq<Tier>, i: nat)
    requires TopologyProblem(tiers).None? && i < |tiers|
    ensures IsRange(tiers[i]) && tiers[i].start.n >= 1 && Units(tiers[i], tiers[i].start.n) == 1
    ensures ProblemFrom(tiers, i, tiers[i].start.n).None?
  {
    StartOfTier(tiers, 0, 1, i);
  }

  lemma LaterTiersAreIdle(tiers: seq<Tier>, values: seq<real>, i: nat)
    requires |values| == |tiers| && TopologyProblem(tiers).None? && i < |tiers| && AllRanges(tiers)
    ensures Earned(tiers, values, tiers[i].start.n, i + 1) == 0.0
    ensures Contributed(tiers, values, tiers[i].start.n, i + 1) == 0.0
  {
    StartsAt(tiers, i);
    if i < |tiers| - 1 {
      NothingBeyond(tiers, values, tiers[i].start.n, i + 1, tiers[i].end.value.n + 1);
      NothingContributedBeyond(tiers, values, tiers[i].start.n, i + 1, tiers[i].end.value.n + 1);
    }
  }

  ghost predicate PaysUnitByUnit(tiers: seq<Tier>, values: seq<real>, quantity: nat)
    requires AllRanges(tiers) && |values| == |tiers|
  {
    Contributed(tiers, values, quantity, 0) == OneByOne(tiers, values, 1, quantity, 0)
  }

  /**
   * The amount is progressive per unit, rounding included, for every quantity exactly when all
   * values are whole numbers of quanta.
   */
  lemma UnitByUnitIffFine(tiers: seq<Tier>, values: seq<real>)
    requires |values| == |tiers| && TopologyProblem(tiers).None?
    ensures AllRanges(tiers)
    ensures (forall quantity: nat :: PaysUnitByUnit(tiers, values, quantity)) <==> AllFine(values)
  {
    AcceptedIffPartition(tiers);
    if AllFine(values) {
      forall quantity: nat ensures PaysUnitByUnit(tiers, values, quantity) {
        EarnedIsUnitByUnit(tiers, values, quantity);
        RoundingShowsLater(tiers, values, quantity, |tiers|, 0);
      }
    }
    if forall quantity: nat :: PaysUnitByUnit(tiers, values, quantity) {
      for i := 0 to |tiers|
        invariant forall j :: 0 <= j < i ==> IsFine(values[j])
      {
        FirstUnitShowsTheValue(tiers, values, i);
        var q := tiers[i].start.n;
        assert PaysUnitByUnit(tiers, values, q);
        EarnedIsUnitByUnit(tiers, values, q);
      }
    }
  }

  function TotalUnits(tiers: seq<Tier>, quantity: int, i: nat): int
    requires AllRanges(tiers) && i <= |tiers|
    decreases |tiers| - i
  {
    if i == |tiers| then 0 else Units(tiers[i], quantity) + TotalUnits(tiers, quantity, i + 1)
  }

  lemma {:induction false} UnitsFrom(tiers: seq<Tier>, quantity: int, i: nat, first: int)
    requires AllRanges(tiers) && i < |tiers| && first >= 1 && ProblemFrom(tiers, i, first).None?
    ensures TotalUnits(tiers, quantity, i) == Max(0, quantity - first + 1)
    decreases |tiers| - i
  {
    if i < |tiers| - 1 {
      UnitsFrom(tiers, quantity, i + 1, tiers[i].end.value.n + 1);
    }
  }

  /** No unit is lost or counted twice. */
  lemma UnitsAddUp(tiers: seq<Tier>, quantity: nat)
    requires TopologyProblem(tiers).None?
    ensures AllRanges(tiers) && TotalUnits(tiers, quantity, 0) == quantity
  {
    AcceptedIffPartition(tiers);
    UnitsFrom(tiers, quantity, 0, 1);
  }
}
