/** Converting purchase quantities to base units (`resolve_base_units`). Quantities are decimals,
    modelled as reals; the schemas admit none below zero. */
module BaseUnits {

  /** `ROUND_HALF_UP` of a quantity that is not negative. */
  function RoundHalfUp(x: real): int {
    (x + 0.5).Floor
  }

  /** Base units for a purchase quantity: plain units are truncated, packaging is rounded. */
  function Resolve(qty: real, isUnit: bool, unitsPerPurchase: nat): int {
    if isUnit then qty.Floor else RoundHalfUp(qty * unitsPerPurchase as real)
  }

  function Sum(qtys: seq<real>): real {
    if qtys == [] then 0.0 else Sum(qtys[..|qtys| - 1]) + qtys[|qtys| - 1]
  }

  function SumResolved(qtys: seq<real>, isUnit: bool, unitsPerPurchase: nat): int {
    if qtys == [] then 0
    else SumResolved(qtys[..|qtys| - 1], isUnit, unitsPerPurchase) + Resolve(qtys[|qtys| - 1], isUnit, unitsPerPurchase)
  }

  lemma RoundedIsNear(x: real)
    ensures -0.5 < RoundHalfUp(x) as real - x <= 0.5
    ensures IsWhole(x) ==> RoundHalfUp(x) == x.Floor
  {
    var k := (x + 0.5).Floor;
    assert k as real <= x + 0.5 < k as real + 1.0;
    if IsWhole(x) {
      var w := x.Floor;
      assert k as real <= w as real + 0.5 < k as real + 1.0;
      assert k <= w < k + 1;
    }
  }

  lemma {:induction false} ResolvedNearSum(qtys: seq<real>, unitsPerPurchase: nat)
    ensures var drift := SumResolved(qtys, false, unitsPerPurchase) as real - Sum(qtys) * unitsPerPurchase as real;
      -0.5 * |qtys| as real <= drift <= 0.5 * |qtys| as real
  {
    if qtys != [] {
      var n := |qtys| - 1;
      ResolvedNearSum(qtys[..n], unitsPerPurchase);
      RoundedIsNear(qtys[n] * unitsPerPurchase as real);
      assert Sum(qtys) * unitsPerPurchase as real
        == Sum(qtys[..n]) * unitsPerPurchase as real + qtys[n] * unitsPerPurchase as real;
    }
  }

  /** An order of packaging received in `k` deliveries: the units booked differ from the units
      ordered by at most (k + 1) / 2. */
  lemma SplitStaysNear(qtys: seq<real>, unitsPerPurchase: nat)
    ensures var drift := SumResolved(qtys, false, unitsPerPurchase) - Resolve(Sum(qtys), false, unitsPerPurchase);
      -(|qtys| + 1) <= 2 * drift <= |qtys| + 1
  {
    ResolvedNearSum(qtys, unitsPerPurchase);
    BothNear(SumResolved(qtys, false, unitsPerPurchase), Sum(qtys) * unitsPerPurchase as real, |qtys|);
  }

  lemma BothNear(booked: int, x: real, k: nat)
    requires -0.5 * k as real <= booked as real - x <= 0.5 * k as real
    ensures -(k + 1) <= 2 * (booked - RoundHalfUp(x)) <= k + 1
  {
    RoundedIsNear(x);
    var drift := 2 * (booked - RoundHalfUp(x));
    assert drift as real == 2.0 * (booked as real - x) + 2.0 * (x - RoundHalfUp(x) as real);
    assert -(k + 1) as real <= drift as real <= (k + 1) as real;
  }

  lemma Distributes(a: real, b: real, u: real)
    ensures (a + b) * u == a * u + b * u
  {
  }

  /** A delivery of a whole number of base units is booked as exactly that. */
  lemma WholeIsExact(qty: real, unitsPerPurchase: nat)
    requires WholeUnits(qty, unitsPerPurchase)
    ensures Resolve(qty, false, unitsPerPurchase) as real == qty * unitsPerPurchase as real
  {
    RoundedIsNear(qty * unitsPerPurchase as real);
  }

  lemma {:induction false} WholeUnitsAdd(qtys: seq<real>, unitsPerPurchase: nat)
    requires forall i :: 0 <= i < |qtys| ==> WholeUnits(qtys[i], unitsPerPurchase)
    ensures SumResolved(qtys, false, unitsPerPurchase) as real == Sum(qtys) * unitsPerPurchase as real
  {
    hide WholeUnits, Resolve;
    if qtys != [] {
      var n := |qtys| - 1;
      WholeUnitsAdd(qtys[..n], unitsPerPurchase);
      WholeIsExact(qtys[n], unitsPerPurchase);
      Distributes(Sum(qtys[..n]), qtys[n], unitsPerPurchase as real);
    }
  }

  /** When every delivery is a whole number of base units, nothing is gained or lost. */
  lemma WholeSplitIsExact(qtys: seq<real>, unitsPerPurchase: nat)
    requires forall i :: 0 <= i < |qtys| ==> WholeUnits(qtys[i], unitsPerPurchase)
    ensures SumResolved(qtys, false, unitsPerPurchase) == Resolve(Sum(qtys), false, unitsPerPurchase)
  {
    hide WholeUnits, SumResolved, Sum;
    WholeUnitsAdd(qtys, unitsPerPurchase);
    IntIsWhole(SumResolved(qtys, false, unitsPerPurchase), Sum(qtys) * unitsPerPurchase as real);
  }

  lemma IntIsWhole(k: int, x: real)
    requires k as real == x
    ensures RoundHalfUp(x) == k
  {
    RoundedIsNear(x);
  }

  ghost predicate WholeUnits(qty: real, unitsPerPurchase: nat) {
    IsWhole(qty * unitsPerPurchase as real)
  }

  ghost predicate IsWhole(x: real) {
    x.Floor as real == x
  }

  /** Plain units are truncated, so a split never books more than the whole, and fewer than one unit
      per delivery less. */
  lemma {:induction false} UnitSplitOnlyLoses(qtys: seq<real>, unitsPerPurchase: nat)
    requires qtys != []
    ensures var whole := Resolve(Sum(qtys), true, unitsPerPurchase);
      whole - |qtys| < SumResolved(qtys, true, unitsPerPurchase) <= whole
  {
    var n := |qtys| - 1;
    if n > 0 {
      UnitSplitOnlyLoses(qtys[..n], unitsPerPurchase);
    } else {
      assert qtys[..0] == [];
    }
  }

  /** More packages never resolve to fewer units. */
  lemma ResolveIsMonotone(a: real, b: real, isUnit: bool, unitsPerPurchase: nat)
    requires a <= b
    ensures Resolve(a, isUnit, unitsPerPurchase) <= Resolve(b, isUnit, unitsPerPurchase)
  {
    var u := unitsPerPurchase as real;
    assert b * u - a * u == (b - a) * u;
    assert (b - a) * u >= 0.0;
  }

  /** The least whole number of units that is not less. */
  function Ceiling(x: real): int {
    if x.Floor as real == x then x.Floor else x.Floor + 1
  }

  /** The documentation promises that fractions are rounded up. For packaging that happens if and only
      if the quantity is whole or its fraction is at least a half; for plain units, which are
      truncated, if and only if it is whole. */
  lemma RoundsUpIff(qty: real, isUnit: bool, unitsPerPurchase: nat)
    ensures var x := if isUnit then qty else qty * unitsPerPurchase as real;
      Resolve(qty, isUnit, unitsPerPurchase) == Ceiling(x)
      <==> IsWhole(x) || (!isUnit && x - x.Floor as real >= 0.5)
  {
    if !isUnit {
      NearestIsCeilingIff(qty * unitsPerPurchase as real);
    }
  }

  lemma NearestIsCeilingIff(x: real)
    ensures RoundHalfUp(x) == Ceiling(x) <==> IsWhole(x) || x - x.Floor as real >= 0.5
  {
    RoundedIsNear(x);
    var k := x.Floor;
    assert k as real <= x < (k + 1) as real;
  }

  /** The code rounds to nearest instead, so three
      deliveries that together make one pack of one unit book nothing at all. */
  lemma SplitMayBookNothing()
    ensures SumResolved([0.4, 0.3, 0.3], false, 1) == 0 && Resolve(Sum([0.4, 0.3, 0.3]), false, 1) == 1
  {
    var q := [0.4, 0.3, 0.3];
    assert q[..2][..1] == q[..1] && q[..1][..0] == [];
    assert Sum(q[..1]) == 0.4 && Sum(q[..2]) == 0.7 && Sum(q) == 1.0;
    assert SumResolved(q[..1], false, 1) == 0 && SumResolved(q[..2], false, 1) == 0;
  }
}
