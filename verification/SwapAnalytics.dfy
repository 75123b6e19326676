/** What one swap says about the market's price: how far it executed below the price before it. */
module SwapAnalytics {
  import opened Records
  import opened Integers
  import opened Fractions

  datatype Swap = Swap(yesForNo: bool, amountIn: nat, amountOut: nat, resultingYesReserve: nat, resultingNoReserve: nat)

  datatype Analytics = Analytics(reserveInBefore: nat, reserveOutBefore: nat, impact: Option<Impact>)

  datatype Impact = Impact(numerator: int, denominator: int, bps: int)

  datatype SwapError = InputReserveTooSmall

  const BPS_DENOMINATOR := 10_000

  function ReserveInAfter(s: Swap): nat {
    if s.yesForNo then s.resultingYesReserve else s.resultingNoReserve
  }

  function ReserveOutAfter(s: Swap): nat {
    if s.yesForNo then s.resultingNoReserve else s.resultingYesReserve
  }

  method AnalyseSwap(s: Swap) returns (result: Result<Analytics, SwapError>)
    ensures result.Failure? <==> (if s.yesForNo then s.resultingYesReserve else s.resultingNoReserve) < s.amountIn
    ensures result.Success? ==>
      var a := result.value;
      && (if s.yesForNo
          then s.resultingYesReserve == a.reserveInBefore + s.amountIn && a.reserveOutBefore == s.resultingNoReserve + s.amountOut
          else s.resultingNoReserve == a.reserveInBefore + s.amountIn && a.reserveOutBefore == s.resultingYesReserve + s.amountOut)
      && (a.impact.None? <==> a.reserveOutBefore == 0 || s.amountIn == 0)
      && (a.impact.Some? ==> IsImpact(s, a.reserveInBefore, a.reserveOutBefore, a.impact.value))
  {
    if ReserveInAfter(s) < s.amountIn {
      return Failure(InputReserveTooSmall);
    }
    var reserveInBefore := ReserveInAfter(s) - s.amountIn;
    var reserveOutBefore := ReserveOutAfter(s) + s.amountOut;
    var denominator := reserveOutBefore * s.amountIn;
    var paid := s.amountOut * reserveInBefore;
    ZeroProduct(reserveOutBefore, s.amountIn);
    ZeroProduct(s.amountOut, reserveInBefore);
    if denominator == 0 {
      return Success(Analytics(reserveInBefore, reserveOutBefore, None));
    }
    var numerator: nat := if denominator > paid then denominator - paid else 0;
    var n, d := Reduce(numerator, denominator);
    ImpactOf(s, reserveInBefore, reserveOutBefore, numerator, denominator, n, d);
    result := Success(Analytics(reserveInBefore, reserveOutBefore, Some(Impact(n, d, numerator * BPS_DENOMINATOR / denominator))));
  }

  /** The shortfall of what was paid out against what the price before would have paid, as a share of
      the latter; never below nothing, and rounded down in basis points. */
  ghost predicate IsImpact(s: Swap, reserveIn: nat, reserveOut: nat, impact: Impact) {
    var atSpot, paid := reserveOut * s.amountIn, s.amountOut * reserveIn;
    && atSpot > 0
    && LowestTerms(impact.numerator, impact.denominator)
    && impact.numerator * atSpot == (if atSpot > paid then atSpot - paid else 0) * impact.denominator
    && impact.bps * atSpot <= (if atSpot > paid then atSpot - paid else 0) * 10_000 < (impact.bps + 1) * atSpot
  }

  lemma ImpactOf(s: Swap, reserveIn: nat, reserveOut: nat, numerator: nat, denominator: nat, n: int, d: int)
    requires denominator == reserveOut * s.amountIn > 0
    requires numerator == if denominator > s.amountOut * reserveIn then denominator - s.amountOut * reserveIn else 0
    requires (n, d) == Reduced(numerator, denominator)
    ensures IsImpact(s, reserveIn, reserveOut, Impact(n, d, numerator * BPS_DENOMINATOR / denominator))
  {
    ReducedIsSame(numerator, denominator);
    FloorBounds(numerator * BPS_DENOMINATOR, denominator);
  }

  /** Some impact is reported exactly when the swap executed below the price before it; it is always a
      share between nothing and everything. */
  lemma ImpactExactly(s: Swap, reserveIn: nat, reserveOut: nat, impact: Impact)
    requires IsImpact(s, reserveIn, reserveOut, impact)
    ensures impact.numerator > 0 <==> s.amountOut * reserveIn < reserveOut * s.amountIn
    ensures 0 <= impact.numerator <= impact.denominator && 0 <= impact.bps <= 10_000
  {
    var atSpot, paid := reserveOut * s.amountIn, s.amountOut * reserveIn;
    ZeroProduct(s.amountOut, reserveIn);
    var shortfall := if atSpot > paid then atSpot - paid else 0;
    Share(impact.numerator, impact.denominator, shortfall, atSpot);
    BpsShare(impact.bps, shortfall, atSpot);
  }

  lemma Share(n: int, d: int, shortfall: int, whole: int)
    requires n >= 0 && d > 0 && whole > 0 && 0 <= shortfall <= whole && n * whole == shortfall * d
    ensures (n > 0 <==> shortfall > 0) && n <= d
  {
    Multiplied(0, n, whole);
    Multiplied(0, shortfall, d);
    Multiplied(d, n, whole);
    Multiplied(whole, shortfall, d);
    assert d * whole == whole * d;
  }

  lemma BpsShare(bps: int, shortfall: int, whole: int)
    requires whole > 0 && 0 <= shortfall <= whole
    requires bps * whole <= shortfall * BPS_DENOMINATOR < (bps + 1) * whole
    ensures 0 <= bps <= BPS_DENOMINATOR
  {
    Multiplied(0, bps + 1, whole);
    Multiplied(BPS_DENOMINATOR, bps, whole);
  }
}
