/** The health of a vault: exact requirements rounded up, health factors rounded down. */
module VaultRisk {
  import opened Records
  import opened Integers

  const BPS_DENOMINATOR := 10_000
  const PRICE_PRECISION := 1_000_000_000_000_000_000
  const LIQUIDATION_REP_BONUS_BPS := 500
  const VAULT_WARNING_HEALTH_FACTOR_BPS := 12_000

  datatype Vault = Vault(
    poolHeldBacking: nat,
    disputeStaked: nat,
    openInterest: nat,
    repPerEth: nat,
    securityMultiplierBps: nat,
    badDebt: nat)

  datatype ProtocolState = Healthy | Liquidatable | BadDebt | PriceUnavailable

  datatype Severity = NoConcern | Warning | Critical | Unavailable

  datatype Risk = Risk(protocolState: ProtocolState, severity: Severity, healthFactorBps: Option<int>)

  // ---------------------------------------------------------------- division

  /** Division that discards the fraction, towards zero whatever the sign. */
  function Truncated(x: int, d: int): int
    requires d > 0
  {
    if x < 0 then -(-x / d) else x / d
  }

  function CeilDiv(numerator: nat, denominator: int): (q: nat)
    requires denominator > 0
  {
    if numerator == 0 then 0 else (numerator - 1) / denominator + 1
  }

  /** The least whole number of denominators that covers the numerator. */
  lemma CeilIsLeast(numerator: nat, denominator: int, q: int)
    requires denominator > 0
    ensures CeilDiv(numerator, denominator) <= q <==> numerator <= q * denominator
  {
    if numerator == 0 {
      if q < 0 {
        Times(denominator, q, -1);
      } else {
        Times(denominator, 0, q);
      }
      assert q * denominator == denominator * q;
    } else {
      FloorReaches(numerator - 1, denominator, q);
    }
  }

  // ---------------------------------------------------------------- requirements

  function BaseRequired(v: Vault): nat {
    CeilDiv(v.openInterest * v.repPerEth, PRICE_PRECISION)
  }

  function AssociatedRequired(v: Vault): nat {
    CeilDiv(BaseRequired(v) * v.securityMultiplierBps, BPS_DENOMINATOR)
  }

  function MigrationMultiplier(securityMultiplierBps: nat): nat {
    Max(Max(0, BPS_DENOMINATOR + Truncated(securityMultiplierBps - BPS_DENOMINATOR, 2)), BPS_DENOMINATOR + LIQUIDATION_REP_BONUS_BPS)
  }

  function FreeRequired(v: Vault): nat {
    CeilDiv(BaseRequired(v) * MigrationMultiplier(v.securityMultiplierBps), BPS_DENOMINATOR)
  }

  function Factor(holding: nat, required: nat): nat {
    if required == 0 then 0 else holding * BPS_DENOMINATOR / required
  }

  function HealthFactor(v: Vault): nat {
    Min(Factor(v.poolHeldBacking + v.disputeStaked, AssociatedRequired(v)), Factor(v.poolHeldBacking, FreeRequired(v)))
  }

  function VaultRisk(v: Vault): Risk {
    if v.openInterest == 0 then
      if v.badDebt > 0 then Risk(BadDebt, Critical, None) else Risk(Healthy, NoConcern, None)
    else if v.repPerEth == 0 then Risk(PriceUnavailable, Unavailable, None)
    else
      var health := HealthFactor(v);
      var state := if v.badDebt > 0 then BadDebt else if health < BPS_DENOMINATOR then Liquidatable else Healthy;
      Risk(state,
           if state != Healthy then Critical else if health < VAULT_WARNING_HEALTH_FACTOR_BPS then Warning else NoConcern,
           Some(health))
  }

  predicate Obliged(v: Vault) {
    v.openInterest > 0 && v.repPerEth > 0 && v.securityMultiplierBps > 0
  }

  // ---------------------------------------------------------------- what the factor means

  /** Rounding the halved surplus towards zero or down makes no difference: below 10000 the
      liquidation bonus decides. */
  lemma MigrationRoundingIsMoot(securityMultiplierBps: nat)
    ensures MigrationMultiplier(securityMultiplierBps) ==
            Max(10_000 + (securityMultiplierBps - 10_000) / 2, 10_500)
    ensures Truncated(securityMultiplierBps - 10_000, 2) != (securityMultiplierBps - 10_000) / 2 <==>
            securityMultiplierBps < 10_000 && securityMultiplierBps % 2 == 1
  {
  }

  lemma RequirementsPositive(v: Vault)
    requires Obliged(v)
    ensures BaseRequired(v) > 0 && AssociatedRequired(v) > 0 && FreeRequired(v) > 0
  {
  }

  /** `q` is the least number whose `denominator`-fold is at least the numerator. */
  predicate LeastCover(q: nat, numerator: nat, denominator: int) {
    numerator <= q * denominator && (q > 0 ==> (q - 1) * denominator < numerator)
  }

  lemma LeastCoverIsCeil(q: nat, numerator: nat, denominator: int)
    requires denominator > 0 && LeastCover(q, numerator, denominator)
    ensures q == CeilDiv(numerator, denominator)
  {
    CeilIsLeast(numerator, denominator, q);
    CeilIsLeast(numerator, denominator, q - 1);
  }

  /** The exact requirements of a vault: `base` is the REP its open interest is worth, `associated` what
      has to stand behind it counting the stake, and `free` what has to be held without the stake. */
  predicate Required(v: Vault, base: nat, associated: nat, free: nat) {
    && LeastCover(base, v.openInterest * v.repPerEth, 1_000_000_000_000_000_000)
    && LeastCover(associated, base * v.securityMultiplierBps, 10_000)
    && LeastCover(free, base * Max(10_000 + (v.securityMultiplierBps - 10_000) / 2, 10_500), 10_000)
  }

  /** What is held covers `t` ten-thousandths of both. */
  predicate Covered(v: Vault, associated: nat, free: nat, t: int) {
    && (v.poolHeldBacking + v.disputeStaked) * 10_000 >= t * associated
    && v.poolHeldBacking * 10_000 >= t * free
  }

  lemma RequiredAre(v: Vault, base: nat, associated: nat, free: nat)
    requires Required(v, base, associated, free)
    ensures base == BaseRequired(v) && associated == AssociatedRequired(v) && free == FreeRequired(v)
  {
    MigrationRoundingIsMoot(v.securityMultiplierBps);
    LeastCoverIsCeil(base, v.openInterest * v.repPerEth, 1_000_000_000_000_000_000);
    LeastCoverIsCeil(associated, base * v.securityMultiplierBps, 10_000);
    LeastCoverIsCeil(free, base * Max(10_000 + (v.securityMultiplierBps - 10_000) / 2, 10_500), 10_000);
  }

  /** The rounded factor reaches a threshold exactly when what is held covers it; without a multiplier
      nothing is ever reached. */
  lemma HealthReachesExactly(v: Vault, base: nat, associated: nat, free: nat, t: int)
    requires v.openInterest > 0 && v.repPerEth > 0 && Required(v, base, associated, free)
    ensures HealthFactor(v) >= t <==> if v.securityMultiplierBps == 0 then t <= 0 else Covered(v, associated, free, t)
  {
    RequiredAre(v, base, associated, free);
    if v.securityMultiplierBps == 0 {
      NothingRequired(v);
    } else {
      RequirementsPositive(v);
      FloorReaches((v.poolHeldBacking + v.disputeStaked) * 10_000, associated, t);
      FloorReaches(v.poolHeldBacking * 10_000, free, t);
    }
  }

  lemma NothingRequired(v: Vault)
    requires v.securityMultiplierBps == 0
    ensures HealthFactor(v) == 0
  {
    ZeroProduct(BaseRequired(v), 0);
    assert AssociatedRequired(v) == 0;
    assert Factor(v.poolHeldBacking, FreeRequired(v)) >= 0;
  }

  /** A vault with open interest and a price: what it is reported as. */
  lemma ReportedExactly(v: Vault, base: nat, associated: nat, free: nat)
    requires v.openInterest > 0 && v.repPerEth > 0 && v.securityMultiplierBps > 0 && Required(v, base, associated, free)
    ensures var r := VaultRisk(v);
            && (r.protocolState == BadDebt <==> v.badDebt > 0)
            && (r.protocolState == Liquidatable <==> v.badDebt == 0 && !Covered(v, associated, free, 10_000))
            && (r.protocolState == Healthy <==> v.badDebt == 0 && Covered(v, associated, free, 10_000))
            && (r.severity == Critical <==> v.badDebt > 0 || !Covered(v, associated, free, 10_000))
            && (r.severity == Warning <==>
                  v.badDebt == 0 && Covered(v, associated, free, 10_000) && !Covered(v, associated, free, 12_000))
            && (r.severity == NoConcern <==> v.badDebt == 0 && Covered(v, associated, free, 12_000))
            && r.healthFactorBps.Some? && r.healthFactorBps.value >= 0
            && Covered(v, associated, free, r.healthFactorBps.value) && !Covered(v, associated, free, r.healthFactorBps.value + 1)
  {
    HealthReachesExactly(v, base, associated, free, 10_000);
    HealthReachesExactly(v, base, associated, free, 12_000);
    HealthReachesExactly(v, base, associated, free, HealthFactor(v));
    HealthReachesExactly(v, base, associated, free, HealthFactor(v) + 1);
  }

  /** And every other vault. */
  lemma ReportedWithoutRequirements(v: Vault)
    ensures v.openInterest == 0 && v.badDebt > 0 ==> VaultRisk(v) == Risk(BadDebt, Critical, None)
    ensures v.openInterest == 0 && v.badDebt == 0 ==> VaultRisk(v) == Risk(Healthy, NoConcern, None)
    ensures v.openInterest > 0 && v.repPerEth == 0 ==> VaultRisk(v) == Risk(PriceUnavailable, Unavailable, None)
    ensures v.openInterest > 0 && v.repPerEth > 0 && v.securityMultiplierBps == 0 ==>
              VaultRisk(v) == Risk(if v.badDebt > 0 then BadDebt else Liquidatable, Critical, Some(0))
  {
    if v.securityMultiplierBps == 0 {
      NothingRequired(v);
    }
  }

  // ---------------------------------------------------------------- monotonicity

  lemma CeilMonotone(a: nat, b: nat, denominator: int)
    requires denominator > 0 && a <= b
    ensures CeilDiv(a, denominator) <= CeilDiv(b, denominator)
  {
    CeilIsLeast(b, denominator, CeilDiv(b, denominator));
    CeilIsLeast(a, denominator, CeilDiv(b, denominator));
  }

  predicate NoSafer(v: Vault, u: Vault) {
    && v.poolHeldBacking <= u.poolHeldBacking && v.disputeStaked <= u.disputeStaked
    && u.openInterest <= v.openInterest && u.repPerEth <= v.repPerEth && u.securityMultiplierBps <= v.securityMultiplierBps
  }

  lemma RequirementsMonotone(v: Vault, u: Vault)
    requires NoSafer(v, u)
    ensures AssociatedRequired(u) <= AssociatedRequired(v) && FreeRequired(u) <= FreeRequired(v)
  {
    ProductMonotone(u.openInterest, u.repPerEth, v.openInterest, v.repPerEth);
    CeilMonotone(u.openInterest * u.repPerEth, v.openInterest * v.repPerEth, PRICE_PRECISION);
    ProductMonotone(BaseRequired(u), u.securityMultiplierBps, BaseRequired(v), v.securityMultiplierBps);
    CeilMonotone(BaseRequired(u) * u.securityMultiplierBps, BaseRequired(v) * v.securityMultiplierBps, BPS_DENOMINATOR);
    MigrationRoundingIsMoot(u.securityMultiplierBps);
    MigrationRoundingIsMoot(v.securityMultiplierBps);
    var mu, mv := MigrationMultiplier(u.securityMultiplierBps), MigrationMultiplier(v.securityMultiplierBps);
    ProductMonotone(BaseRequired(u), mu, BaseRequired(v), mv);
    CeilMonotone(BaseRequired(u) * mu, BaseRequired(v) * mv, BPS_DENOMINATOR);
  }

  lemma CeilCovers(numerator: nat, denominator: int)
    requires denominator > 0
    ensures LeastCover(CeilDiv(numerator, denominator), numerator, denominator)
  {
    CeilIsLeast(numerator, denominator, CeilDiv(numerator, denominator));
    CeilIsLeast(numerator, denominator, CeilDiv(numerator, denominator) - 1);
  }

  lemma RequirementsAre(v: Vault)
    ensures Required(v, BaseRequired(v), AssociatedRequired(v), FreeRequired(v))
  {
    MigrationRoundingIsMoot(v.securityMultiplierBps);
    CeilCovers(v.openInterest * v.repPerEth, PRICE_PRECISION);
    CeilCovers(BaseRequired(v) * v.securityMultiplierBps, BPS_DENOMINATOR);
    CeilCovers(BaseRequired(v) * MigrationMultiplier(v.securityMultiplierBps), BPS_DENOMINATOR);
  }

  /** More backing or stake, less open interest, a lower price or a lower multiplier: the factor does not fall. */
  lemma HealthMonotone(v: Vault, u: Vault)
    requires Obliged(v) && Obliged(u) && NoSafer(v, u)
    ensures HealthFactor(v) <= HealthFactor(u)
  {
    var t := HealthFactor(v);
    RequirementsAre(v);
    RequirementsAre(u);
    HealthReachesExactly(v, BaseRequired(v), AssociatedRequired(v), FreeRequired(v), t);
    RequirementsMonotone(v, u);
    Times(t, AssociatedRequired(u), AssociatedRequired(v));
    Times(t, FreeRequired(u), FreeRequired(v));
    HealthReachesExactly(u, BaseRequired(u), AssociatedRequired(u), FreeRequired(u), t);
  }
}
