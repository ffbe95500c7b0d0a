/**
 * Rounding every tier's contribution, as the calculation does, against rounding their sum once, as
 * its documentation has it.
 */
module OneRounding {
  import opened Base
  import opened OrdinalTopology

  // ----- a whole number of quanta and a remainder -----

  /** Added to a whole number of quanta, the remainder is rounded away; a tie goes to the even one. */
  predicate RoundsAway(fine: real, remainder: real) {
    var part := remainder * QUANTA_IN_ONE;
    -0.5 < part < 0.5 || ((part == 0.5 || part == -0.5) && (fine * QUANTA_IN_ONE).Floor % 2 == 0)
  }

  lemma NearestQuantum(fine: real, remainder: real)
    requires IsFine(fine)
    ensures Quantize(fine + remainder) == fine <==> RoundsAway(fine, remainder)
  {
    var k := (fine * QUANTA_IN_ONE).Floor;
    var part := remainder * QUANTA_IN_ONE;
    var scaled := (fine + remainder) * QUANTA_IN_ONE;
    assert scaled == k as real + part;
    var below := scaled.Floor;
    assert below == k + part.Floor;
    assert Quantize(fine + remainder) == fine <==> Quantize(fine + remainder) * QUANTA_IN_ONE == k as real;
  }

  // ----- all tiers together -----

  /** What the roundings of the tiers from the i-th on leave over or add. */
  function Remainders(tiers: seq<Tier>, values: seq<real>, quantity: int, i: nat): real
    requires AllRanges(tiers) && |values| == |tiers| && i <= |tiers|
    decreases |tiers| - i
  {
    if i == |tiers| then 0.0
    else
      var product := Product(Units(tiers[i], quantity), values[i]);
      product - Quantize(product) + Remainders(tiers, values, quantity, i + 1)
  }

  lemma {:induction false} RemaindersAreLeft(tiers: seq<Tier>, values: seq<real>, quantity: int, i: nat)
    requires AllRanges(tiers) && |values| == |tiers| && i <= |tiers|
    ensures Earned(tiers, values, quantity, i)
         == Contributed(tiers, values, quantity, i) + Remainders(tiers, values, quantity, i)
    decreases |tiers| - i
  {
    hide Product, Quantize, Units;
    if i < |tiers| {
      RemaindersAreLeft(tiers, values, quantity, i + 1);
    }
  }

  /** The amount is the exact one rounded once. */
  predicate RoundsOnce(tiers: seq<Tier>, values: seq<real>, quantity: int)
    requires AllRanges(tiers) && |values| == |tiers|
  {
    Contributed(tiers, values, quantity, 0) == Quantize(Earned(tiers, values, quantity, 0))
  }

  /** The remainders of all tiers are rounded away. */
  predicate RemaindersVanish(tiers: seq<Tier>, values: seq<real>, quantity: int)
    requires AllRanges(tiers) && |values| == |tiers|
  {
    RoundsAway(Contributed(tiers, values, quantity, 0), Remainders(tiers, values, quantity, 0))
  }

  /**
   * Rounding tier by tier gives the amount rounded once exactly if the remainders add up to less
   * than half a quantum, or to half a quantum beside an even total.
   */
  lemma RoundsOnceIff(tiers: seq<Tier>, values: seq<real>, quantity: int)
    requires AllRanges(tiers) && |values| == |tiers|
    ensures RoundsOnce(tiers, values, quantity) <==> RemaindersVanish(tiers, values, quantity)
  {
    RemaindersAreLeft(tiers, values, quantity, 0);
    ContributionsAreFine(tiers, values, quantity, 0);
    NearestQuantum(Contributed(tiers, values, quantity, 0), Remainders(tiers, values, quantity, 0));
  }

  /** With a single tier, or with whole numbers of quanta as values, it always does. */
  lemma OneTierRoundsOnce(tiers: seq<Tier>, values: seq<real>, quantity: int)
    requires AllRanges(tiers) && |values| == |tiers| == 1
    ensures RoundsOnce(tiers, values, quantity)
  {
    hide Product, Quantize, Units;
    assert Earned(tiers, values, quantity, 1) == 0.0 && Contributed(tiers, values, quantity, 1) == 0.0;
  }

  lemma FineValuesRoundOnce(tiers: seq<Tier>, values: seq<real>, quantity: int)
    requires AllRanges(tiers) && |values| == |tiers| && AllFine(values)
    ensures RoundsOnce(tiers, values, quantity)
  {
    RoundingShowsLater(tiers, values, quantity, |tiers|, 0);
    SecondRoundingIsIdle(tiers, values, quantity);
  }

  // ----- finitely many quantities decide -----

  /** N of these values make a whole number of quanta. */
  predicate OnGrid(value: real, n: nat) {
    (value * QUANTA_IN_ONE * n as real).Floor as real == value * QUANTA_IN_ONE * n as real
  }

  /** An even number of quanta more is an even number of quanta more after rounding. */
  lemma EvenShift(x: real, w: int)
    ensures Quantize(x + (2 * w) as real / QUANTA_IN_ONE) == Quantize(x) + (2 * w) as real / QUANTA_IN_ONE
  {
    var y := x + (2 * w) as real / QUANTA_IN_ONE;
    assert y * QUANTA_IN_ONE == x * QUANTA_IN_ONE + (2 * w) as real;
    assert (y * QUANTA_IN_ONE).Floor == (x * QUANTA_IN_ONE).Floor + 2 * w;
  }

  lemma MoreUnits(units: int, n: nat, value: real, w: int)
    requires value * QUANTA_IN_ONE * n as real == w as real
    ensures Product(units + 2 * n, value) == Product(units, value) + (2 * w) as real / QUANTA_IN_ONE
  {
    assert Product(units + 2 * n, value) == Product(units, value) + 2.0 * (n as real * value);
    assert n as real * value * QUANTA_IN_ONE == value * QUANTA_IN_ONE * n as real;
  }

  lemma LastUnits(tiers: seq<Tier>, quantity: int, more: nat)
    requires TopologyProblem(tiers).None?
    ensures tiers != [] && AllRanges(tiers)
    ensures var last := tiers[|tiers| - 1];
            quantity >= last.start.n - 1 ==> Units(last, quantity + more) == Units(last, quantity) + more
  {
    AcceptedAreRanges(tiers);
    StartsAt(tiers, |tiers| - 1);
  }

  /** An earlier tier is full by then. */
  lemma FullTier(tiers: seq<Tier>, i: nat, quantity: int, more: nat)
    requires TopologyProblem(tiers).None? && i < |tiers| - 1
    ensures AllRanges(tiers)
    ensures quantity >= tiers[|tiers| - 1].start.n - 1 ==> Units(tiers[i], quantity + more) == Units(tiers[i], quantity)
  {
    AcceptedAreRanges(tiers);
    AcceptedIffPartition(tiers);
    StartsAt(tiers, i);
    StartsAt(tiers, |tiers| - 1);
    assert Covers(tiers[i], tiers[i].end.value.n) && Covers(tiers[|tiers| - 1], tiers[|tiers| - 1].start.n);
  }

  /** From the last tier on, 2N more units shift both amounts alike. */
  lemma {:induction false} LongerQuantity(tiers: seq<Tier>, values: seq<real>, quantity: int, n: nat, w: int, i: nat)
    requires |values| == |tiers| && TopologyProblem(tiers).None? && AllRanges(tiers) && i < |tiers|
    requires values[|tiers| - 1] * QUANTA_IN_ONE * n as real == w as real
    requires quantity >= tiers[|tiers| - 1].start.n - 1
    ensures Earned(tiers, values, quantity + 2 * n, i) == Earned(tiers, values, quantity, i) + (2 * w) as real / QUANTA_IN_ONE
    ensures Contributed(tiers, values, quantity + 2 * n, i)
         == Contributed(tiers, values, quantity, i) + (2 * w) as real / QUANTA_IN_ONE
    decreases |tiers| - i
  {
    hide Product, Quantize, Partition;
    var t := tiers[i];
    if i == |tiers| - 1 {
      LastUnits(tiers, quantity, 2 * n);
      MoreUnits(Units(t, quantity), n, values[i], w);
      EvenShift(Product(Units(t, quantity), values[i]), w);
      assert Earned(tiers, values, quantity, i + 1) == 0.0 == Earned(tiers, values, quantity + 2 * n, i + 1);
      assert Contributed(tiers, values, quantity, i + 1) == 0.0 == Contributed(tiers, values, quantity + 2 * n, i + 1);
    } else {
      LongerQuantity(tiers, values, quantity, n, w, i + 1);
      FullTier(tiers, i, quantity, 2 * n);
    }
  }

  lemma SameAnswerLater(tiers: seq<Tier>, values: seq<real>, quantity: int, n: nat)
    requires |values| == |tiers| && TopologyProblem(tiers).None? && AllRanges(tiers)
    requires OnGrid(values[|tiers| - 1], n) && quantity >= tiers[|tiers| - 1].start.n - 1
    ensures RoundsOnce(tiers, values, quantity + 2 * n) == RoundsOnce(tiers, values, quantity)
  {
    var w := (values[|tiers| - 1] * QUANTA_IN_ONE * n as real).Floor;
    LongerQuantity(tiers, values, quantity, n, w, 0);
    EvenShift(Earned(tiers, values, quantity, 0), w);
  }

  /** The quantities up to here, at most 2N beyond the start of the last tier, decide. */
  function Enough(tiers: seq<Tier>, n: nat): (q: int)
    requires TopologyProblem(tiers).None?
    ensures q > 2 * n
  {
    AcceptedAreRanges(tiers);
    StartsAt(tiers, |tiers| - 1);
    tiers[|tiers| - 1].start.n + 2 * n
  }

  lemma {:induction false} LongQuantitiesRoundOnce(tiers: seq<Tier>, values: seq<real>, n: nat, quantity: nat)
    requires |values| == |tiers| && TopologyProblem(tiers).None? && AllRanges(tiers)
    requires n > 0 && OnGrid(values[|tiers| - 1], n)
    requires forall q: nat :: q < Enough(tiers, n) ==> RoundsOnce(tiers, values, q)
    ensures RoundsOnce(tiers, values, quantity)
  {
    hide RoundsOnce, OnGrid, TopologyProblem;
    if quantity >= Enough(tiers, n) {
      LongQuantitiesRoundOnce(tiers, values, n, quantity - 2 * n);
      SameAnswerLater(tiers, values, quantity - 2 * n, n);
    }
  }

  /** It makes no difference for any quantity exactly if it makes none for the first few. */
  lemma RoundsOnceForAllIff(tiers: seq<Tier>, values: seq<real>, n: nat)
    requires |values| == |tiers| && TopologyProblem(tiers).None? && n > 0
    ensures AllRanges(tiers)
    ensures OnGrid(values[|tiers| - 1], n) ==>
              ((forall quantity: nat :: RoundsOnce(tiers, values, quantity))
               <==> forall quantity: nat :: quantity < Enough(tiers, n) ==> RemaindersVanish(tiers, values, quantity))
  {
    AcceptedAreRanges(tiers);
    hide RoundsOnce, OnGrid, TopologyProblem, Enough, RoundsAway;
    forall quantity: nat ensures RoundsOnce(tiers, values, quantity) == RemaindersVanish(tiers, values, quantity) {
      RoundsOnceIff(tiers, values, quantity);
    }
    if OnGrid(values[|tiers| - 1], n)
       && forall quantity: nat :: quantity < Enough(tiers, n) ==> RemaindersVanish(tiers, values, quantity)
    {
      forall quantity: nat ensures RoundsOnce(tiers, values, quantity) {
        LongQuantitiesRoundOnce(tiers, values, n, quantity);
      }
    }
  }

  // ----- where the two differ -----

  function TwoTiers(): seq<Tier> { [Tier(Whole(1), Some(Whole(1))), Tier(Whole(2), None)] }

  lemma QuarterDigits()
    ensures Quantize(0.0) == 0.0 && Quantize(0.00005) == 0.0 && Quantize(0.0001) == 0.0001 && Quantize(0.00015) == 0.0002
    ensures Product(1, 0.00005) == 0.00005 && Product(1, 0.0001) == 0.0001
  {
    assert 0.00005 * QUANTA_IN_ONE == 0.5 && 0.0001 * QUANTA_IN_ONE == 1.0 && 0.00015 * QUANTA_IN_ONE == 1.5;
  }

  lemma TwoUnits(values: seq<real>)
    requires |values| == 2
    ensures TopologyProblem(TwoTiers()).None? && AllRanges(TwoTiers())
    ensures Earned(TwoTiers(), values, 2, 0) == Product(1, values[0]) + Product(1, values[1])
    ensures Contributed(TwoTiers(), values, 2, 0) == Quantize(Product(1, values[0])) + Quantize(Product(1, values[1]))
  {
    hide Product, Quantize;
    assert Units(TwoTiers()[0], 2) == 1 && Units(TwoTiers()[1], 2) == 1;
    assert Earned(TwoTiers(), values, 2, 2) == 0.0 && Contributed(TwoTiers(), values, 2, 2) == 0.0;
    assert Earned(TwoTiers(), values, 2, 1) == Product(1, values[1]);
    assert Contributed(TwoTiers(), values, 2, 1) == Quantize(Product(1, values[1]));
  }

  /** Two units at half a quantum each are paid nothing, where one rounding would pay a quantum. */
  lemma HalvesAreLost()
    ensures TopologyProblem(TwoTiers()).None? && AllRanges(TwoTiers())
    ensures Contributed(TwoTiers(), [0.00005, 0.00005], 2, 0) == 0.0
    ensures Quantize(Earned(TwoTiers(), [0.00005, 0.00005], 2, 0)) == 0.0001
  {
    TwoUnits([0.00005, 0.00005]);
    QuarterDigits();
  }

  /** And half a quantum beside a whole one is paid one, where one rounding would pay two. */
  lemma OneFineValueIsNotEnough()
    ensures TopologyProblem(TwoTiers()).None? && AllRanges(TwoTiers())
    ensures Contributed(TwoTiers(), [0.0001, 0.00005], 2, 0) == 0.0001
    ensures Quantize(Earned(TwoTiers(), [0.0001, 0.00005], 2, 0)) == 0.0002
  {
    TwoUnits([0.0001, 0.00005]);
    QuarterDigits();
  }
}
