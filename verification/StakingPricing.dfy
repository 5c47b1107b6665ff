/**
 api-server/src/services/staking-pricing.ts: the risk multiplier of a validator
 and the premium of a staking policy. Amounts are bigints, so every division
 truncates toward zero; nothing forbids a negative stake or term. Metrics are real numbers and each risk factor is kept in tenths.
 */
module StakingPricing {

  datatype NetworkRisk = Proven | Emerging | Unproven

  datatype NetworkConfig = NetworkConfig(firstLossPercent: nat, basePremiumBps: nat, networkRisk: NetworkRisk, collateralRatio: nat)

  const ETHEREUM := NetworkConfig(200, 4, Proven, 0)
  const X_LAYER := NetworkConfig(300, 6, Emerging, 100)
  const BOT_CHAIN := NetworkConfig(500, 10, Unproven, 150)

  /** Unknown chains fall back to X Layer. */
  function ConfigOf(chainId: int): NetworkConfig {
    if chainId == 1 then ETHEREUM else if chainId == 677 then BOT_CHAIN else X_LAYER
  }

  datatype ValidatorMetrics = ValidatorMetrics(downtimePct: real, priorSlashes: real, clientSharePct: real,
                                               hasCircuitBreakers: bool, hasKeySegregation: bool, humiScore: real)

  function ClientDiv(m: ValidatorMetrics): nat {
    if m.clientSharePct > 50.0 then 18 else if m.clientSharePct > 33.0 then 13 else 10
  }

  function CircuitBreaker(m: ValidatorMetrics): nat {
    if m.hasCircuitBreakers then 10 else 20
  }

  function KeySeg(m: ValidatorMetrics): nat {
    if m.hasKeySegregation then 10 else 13
  }

  function Humi(m: ValidatorMetrics): nat {
    if m.humiScore >= 800.0 then 8 else if m.humiScore < 400.0 then 15 else 10
  }

  function Downtime(m: ValidatorMetrics): nat {
    if m.downtimePct > 5.0 then 15 else if m.downtimePct > 1.0 then 12 else 10
  }

  function Slash(m: ValidatorMetrics): nat {
    if m.priorSlashes >= 3.0 then 20 else if m.priorSlashes >= 1.0 then 15 else 10
  }

  /** The product of six factors in tenths: the raw multiplier times 10^6. */
  function RawMillionths(m: ValidatorMetrics): nat {
    ClientDiv(m) * CircuitBreaker(m) * KeySeg(m) * Humi(m) * Downtime(m) * Slash(m)
  }

  function Clamp(lo: int, hi: int, x: int): int {
    var capped := if x < hi then x else hi;
    if capped > lo then capped else lo
  }

  /** computeRiskMultiplier: hundredths, rounded half up, between 80 and 300. */
  function RiskMultiplier(m: ValidatorMetrics): nat {
    Clamp(80, 300, (RawMillionths(m) + 5_000) / 10_000)
  }

  datatype Quote = Quote(coveredAmount: int, riskMultiplier: nat, annualPremium: int, premium: int, collateral: int, totalUpfront: int)

  /** BigInt division. */
  function Div(x: int, a: int): int
    requires a > 0
  {
    if x >= 0 then x / a else -(-x / a)
  }

  function AnnualPremium(stake: int, bps: nat, risk: nat): int {
    Div(stake * bps * risk, 10_000 * 100)
  }

  function TermPremium(annual: int, termDays: int): int {
    Div(annual * termDays, 365)
  }

  function QuoteStaking(stakedAmount: int, termDays: int, chainId: int, m: ValidatorMetrics): Quote {
    var config := ConfigOf(chainId);
    var coveredAmount := Div(stakedAmount * config.firstLossPercent, 10_000);
    var riskMultiplier := RiskMultiplier(m);
    var annualPremium := AnnualPremium(stakedAmount, config.basePremiumBps, riskMultiplier);
    var premium := TermPremium(annualPremium, termDays);
    var collateral :=
      if config.networkRisk != Proven && config.collateralRatio > 0 then Div(coveredAmount * config.collateralRatio, 100) else 0;
    Quote(coveredAmount, riskMultiplier, annualPremium, premium, collateral, premium + collateral)
  }

  lemma NatProduct(x: nat, y: nat)
    ensures x * y >= 0
  {
  }

  lemma DivNat(x: nat, a: nat)
    requires a > 0
    ensures Div(x, a) == x / a >= 0
  {
  }

  /** For a stake and a term that are not negative both divisions are floors. */
  lemma PremiumOfNat(stake: nat, termDays: nat, chainId: int, m: ValidatorMetrics)
    ensures var x := stake * ConfigOf(chainId).basePremiumBps * RiskMultiplier(m);
      x >= 0 && QuoteStaking(stake, termDays, chainId, m).premium == x / 1_000_000 * termDays / 365
  {
    NatProduct(stake, ConfigOf(chainId).basePremiumBps);
    NatProduct(stake * ConfigOf(chainId).basePremiumBps, RiskMultiplier(m));
    var x := stake * ConfigOf(chainId).basePremiumBps * RiskMultiplier(m);
    DivNat(x, 1_000_000);
    NatProduct(x / 1_000_000, termDays);
    DivNat(x / 1_000_000 * termDays, 365);
  }

  lemma DivOdd(x: int, a: int)
    requires a > 0
    ensures Div(-x, a) == -Div(x, a)
  {
  }

  lemma NegProduct(x: int, y: int)
    ensures (-x) * y == -(x * y) && x * (-y) == -(x * y)
  {
  }

  lemma AnnualIsOdd(stake: int, bps: nat, risk: nat)
    ensures AnnualPremium(-stake, bps, risk) == -AnnualPremium(stake, bps, risk)
  {
    NegProduct(stake, bps);
    NegProduct(stake * bps, risk);
    DivOdd(stake * bps * risk, 1_000_000);
  }

  lemma TermIsOdd(annual: int, termDays: int)
    ensures TermPremium(-annual, termDays) == -TermPremium(annual, termDays) == TermPremium(annual, -termDays)
  {
    NegProduct(annual, termDays);
    DivOdd(annual * termDays, 365);
  }

  lemma ShareIsOdd(x: int, k: nat, a: nat)
    requires a > 0
    ensures Div(-x * k, a) == -Div(x * k, a)
  {
    NegProduct(x, k);
    DivOdd(x * k, a);
  }

  /** A negative stake turns every amount of the quote around, and a negative
      term the premium, so for these the premium rounds up instead. */
  lemma QuoteIsOdd(stake: int, termDays: int, chainId: int, m: ValidatorMetrics)
    ensures var q, n, t := QuoteStaking(stake, termDays, chainId, m), QuoteStaking(-stake, termDays, chainId, m),
                           QuoteStaking(stake, -termDays, chainId, m);
      && n == Quote(-q.coveredAmount, q.riskMultiplier, -q.annualPremium, -q.premium, -q.collateral, -q.totalUpfront)
      && t == q.(premium := -q.premium, totalUpfront := q.collateral - q.premium)
  {
    var config := ConfigOf(chainId);
    AnnualIsOdd(stake, config.basePremiumBps, RiskMultiplier(m));
    TermIsOdd(AnnualPremium(stake, config.basePremiumBps, RiskMultiplier(m)), termDays);
    ShareIsOdd(stake, config.firstLossPercent, 10_000);
    ShareIsOdd(Div(stake * config.firstLossPercent, 10_000), config.collateralRatio, 100);
  }

  // ---------------------------------------------------------------------
  // The exact price
  // ---------------------------------------------------------------------

  const PRICE_UNIT: nat := 365_000_000

  /** The price without rounding, in 1/PRICE_UNIT of a token base unit. */
  function ExactPrice(stake: int, termDays: int, chainId: int, m: ValidatorMetrics): int {
    stake * ConfigOf(chainId).basePremiumBps * RiskMultiplier(m) * termDays
  }

  /** Two floors in a row, `x / a * t / b`, lose less than 1 + t / b. */
  lemma NestedFloors(x: nat, a: nat, t: nat, b: nat)
    requires a > 0 && b > 0
    ensures var p := x / a * t / b;
      p * (a * b) <= x * t < p * (a * b) + a * b + a * t
  {
    var y := x / a;
    var z := y * t;
    var p := z / b;
    DivBounds(x, a);
    DivBounds(z, b);
    Scale(a * y, x, t);
    Scale(x, a * y + a - 1, t);
    Scale(b * p, z, a);
    Scale(z, b * p + b - 1, a);
    assert a * z == a * y * t by { MulAssoc(a, y, t); }
    assert a * (b * p) == p * (a * b) by { MulAssoc(a, b, p); }
    assert (a * y + a - 1) * t == a * z + a * t - t by { Distribute(a * y, a, t); }
    assert a * (b * p + b - 1) == p * (a * b) + a * b - a by { Distribute3(a, b, p); }
  }

  lemma DivBounds(x: nat, a: nat)
    requires a > 0
    ensures a * (x / a) <= x <= a * (x / a) + a - 1
  {
  }

  lemma Scale(x: int, y: int, k: nat)
    requires x <= y
    ensures x * k <= y * k && k * x <= k * y
  {
  }

  lemma MulAssoc(a: int, b: int, c: int)
    ensures a * (b * c) == a * b * c && a * (b * c) == c * (a * b)
  {
  }

  lemma Distribute(u: int, a: int, t: int)
    ensures (u + a - 1) * t == u * t + a * t - t
  {
  }

  lemma Distribute3(a: int, b: int, p: int)
    ensures a * (b * p + b - 1) == a * (b * p) + a * b - a
  {
  }

  /** The premium never exceeds the exact price and falls short of it by less
      than 1 + termDays / 365. */
  lemma PremiumIsNearExact(stake: nat, termDays: nat, chainId: int, m: ValidatorMetrics)
    ensures var p := QuoteStaking(stake, termDays, chainId, m).premium;
      p * PRICE_UNIT <= ExactPrice(stake, termDays, chainId, m) < p * PRICE_UNIT + PRICE_UNIT + 1_000_000 * termDays
  {
    PremiumOfNat(stake, termDays, chainId, m);
    NestedFloors(stake * ConfigOf(chainId).basePremiumBps * RiskMultiplier(m), 1_000_000, termDays, 365);
  }

  lemma ExactPriceAdds(a: nat, b: nat, bps: nat, risk: nat, termDays: nat)
    ensures (a + b) * bps * risk * termDays == a * bps * risk * termDays + b * bps * risk * termDays
  {
    assert (a + b) * bps == a * bps + b * bps;
    Distribute2(a * bps, b * bps, risk);
    Distribute2(a * bps * risk, b * bps * risk, termDays);
  }

  lemma Distribute2(x: int, y: int, k: int)
    ensures (x + y) * k == x * k + y * k
  {
  }

  /** x / a + y / a is at most (x + y) / a, which exceeds it by at most one. */
  lemma FloorsOfParts(x: nat, y: nat, a: nat)
    requires a > 0
    ensures x / a + y / a <= (x + y) / a <= x / a + y / a + 1
  {
    DivBounds(x, a);
    DivBounds(y, a);
    DivUnique(x + y, a, x / a + y / a);
  }

  lemma MulPlus(a: int, x: int, k: int)
    ensures a * (x + k) == a * x + a * k
  {
  }

  lemma DivUnique(n: nat, a: nat, q: nat)
    requires a > 0 && a * q <= n < a * q + 2 * a
    ensures q <= n / a <= q + 1
  {
    DivBounds(n, a);
    MulPlus(a, n / a, 1);
    MulPlus(a, q, 2);
    if n / a < q {
      Scale(n / a + 1, q, a);
    }
    if n / a > q + 1 {
      Scale(q + 2, n / a, a);
    }
  }

  lemma DivMonotone(x: nat, y: nat, a: nat)
    requires a > 0 && x <= y
    ensures x / a <= y / a
  {
    DivBounds(x, a);
    DivBounds(y, a);
    MulPlus(a, y / a, 1);
    if x / a > y / a {
      Scale(y / a + 1, x / a, a);
    }
  }

  /** Splitting a stake in two never costs more, and saves less than 2 + termDays / 365. */
  lemma SplittingSavesLittle(a: nat, b: nat, termDays: nat, chainId: int, m: ValidatorMetrics)
    ensures var whole := QuoteStaking(a + b, termDays, chainId, m).premium;
      var parts := QuoteStaking(a, termDays, chainId, m).premium + QuoteStaking(b, termDays, chainId, m).premium;
      parts <= whole && 365 * (whole - parts) < 2 * 365 + termDays
  {
    var bps, risk := ConfigOf(chainId).basePremiumBps, RiskMultiplier(m);
    PremiumOfNat(a, termDays, chainId, m);
    PremiumOfNat(b, termDays, chainId, m);
    PremiumOfNat(a + b, termDays, chainId, m);
    var x, y := a * bps * risk, b * bps * risk;
    assert (a + b) * bps * risk == x + y by { ExactPriceAdds(a, b, bps, risk, 1); }
    FloorsOfParts(x, y, 1_000_000);
    var u, v, w := x / 1_000_000, y / 1_000_000, (x + y) / 1_000_000;
    SplitTerm(u, v, w, termDays);
  }

  lemma SplitTerm(u: nat, v: nat, w: nat, t: nat)
    requires u + v <= w <= u + v + 1
    ensures u * t / 365 + v * t / 365 <= w * t / 365
    ensures 365 * (w * t / 365 - u * t / 365 - v * t / 365) < 2 * 365 + t
  {
    Scale(u + v, w, t);
    Scale(w, u + v + 1, t);
    Distribute2(u, v, t);
    Distribute2(u + v, 1, t);
    FloorsOfParts(u * t, v * t, 365);
    DivMonotone(u * t + v * t, w * t, 365);
    DivBounds(w * t, 365);
    DivBounds(u * t, 365);
    DivBounds(v * t, 365);
  }

  // ---------------------------------------------------------------------
  // Monotonicity
  // ---------------------------------------------------------------------

  /** `worse` is at least as risky in every component. */
  predicate AtLeastAsRisky(worse: ValidatorMetrics, better: ValidatorMetrics) {
    && worse.downtimePct >= better.downtimePct
    && worse.priorSlashes >= better.priorSlashes
    && worse.clientSharePct >= better.clientSharePct
    && (worse.hasCircuitBreakers ==> better.hasCircuitBreakers)
    && (worse.hasKeySegregation ==> better.hasKeySegregation)
    && worse.humiScore <= better.humiScore
  }

  lemma ProductMonotone(a: nat, b: nat, c: nat, d: nat)
    requires a <= b && c <= d
    ensures a * c <= b * d
  {
    Scale(a, b, c);
    Scale(c, d, b);
  }

  lemma RiskIsMonotone(worse: ValidatorMetrics, better: ValidatorMetrics)
    requires AtLeastAsRisky(worse, better)
    ensures 80 <= RiskMultiplier(better) <= RiskMultiplier(worse) <= 300
  {
    var a, b := ClientDiv(better), ClientDiv(worse);
    ProductMonotone(a, b, CircuitBreaker(better), CircuitBreaker(worse));
    ProductMonotone(a * CircuitBreaker(better), b * CircuitBreaker(worse), KeySeg(better), KeySeg(worse));
    ProductMonotone(a * CircuitBreaker(better) * KeySeg(better), b * CircuitBreaker(worse) * KeySeg(worse), Humi(better), Humi(worse));
    ProductMonotone(a * CircuitBreaker(better) * KeySeg(better) * Humi(better),
                    b * CircuitBreaker(worse) * KeySeg(worse) * Humi(worse), Downtime(better), Downtime(worse));
    ProductMonotone(a * CircuitBreaker(better) * KeySeg(better) * Humi(better) * Downtime(better),
                    b * CircuitBreaker(worse) * KeySeg(worse) * Humi(worse) * Downtime(worse), Slash(better), Slash(worse));
    DivMonotone(RawMillionths(better) + 5_000, RawMillionths(worse) + 5_000, 10_000);
  }

  /** More stake, a longer term or a riskier validator never lowers the premium. */
  lemma PremiumIsMonotone(stake: nat, more: nat, term: nat, longer: nat, chainId: int,
                          better: ValidatorMetrics, worse: ValidatorMetrics)
    requires stake <= more && term <= longer && AtLeastAsRisky(worse, better)
    ensures QuoteStaking(stake, term, chainId, better).premium <= QuoteStaking(more, longer, chainId, worse).premium
  {
    RiskIsMonotone(worse, better);
    PremiumOfNat(stake, term, chainId, better);
    PremiumOfNat(more, longer, chainId, worse);
    var bps := ConfigOf(chainId).basePremiumBps;
    var r, s := RiskMultiplier(better), RiskMultiplier(worse);
    ProductMonotone(stake, more, bps, bps);
    ProductMonotone(stake * bps, more * bps, r, s);
    DivMonotone(stake * bps * r, more * bps * s, 1_000_000);
    var u, v := stake * bps * r / 1_000_000, more * bps * s / 1_000_000;
    ProductMonotone(u, v, term, longer);
    DivMonotone(u * term, v * longer, 365);
  }

  /** The floor of the clamp is reached only by the cleanest validator, the cap
      as soon as the exact product reaches 2.995. */
  lemma RiskClampIsTight(m: ValidatorMetrics)
    ensures RawMillionths(m) >= 800_000
    ensures RiskMultiplier(m) == 300 <==> RawMillionths(m) >= 2_995_000
    ensures RiskMultiplier(m) == 80 <==> Humi(m) == 8 && RawMillionths(m) == 800_000
  {
    var a := ClientDiv(m) * CircuitBreaker(m) * KeySeg(m);
    ProductMonotone(10, ClientDiv(m), 10, CircuitBreaker(m));
    ProductMonotone(100, ClientDiv(m) * CircuitBreaker(m), 10, KeySeg(m));
    ProductMonotone(1000, a, 8, Humi(m));
    ProductMonotone(8000, a * Humi(m), 10, Downtime(m));
    ProductMonotone(80000, a * Humi(m) * Downtime(m), 10, Slash(m));
  }

  /** What is locked beside the premium: nothing on Ethereum, the first loss
      itself on X Layer and on every unknown chain, half as much again on BOT Chain. */
  lemma CollateralCoversFirstLoss(stake: nat, termDays: nat, chainId: int, m: ValidatorMetrics)
    ensures var q := QuoteStaking(stake, termDays, chainId, m);
      && q.totalUpfront - q.premium == q.collateral
      && (chainId == 1 ==> q.collateral == 0 && 50 * q.coveredAmount <= stake < 50 * q.coveredAmount + 50)
      && (chainId == 677 ==>
            2 * q.collateral <= 3 * q.coveredAmount < 2 * q.collateral + 2 && 20 * q.coveredAmount <= stake < 20 * q.coveredAmount + 20)
      && (chainId != 1 && chainId != 677 ==>
            q.collateral == q.coveredAmount && 100 * q.coveredAmount <= 3 * stake < 100 * q.coveredAmount + 100)
  {
  }

  // ---------------------------------------------------------------------
  // The multiplier in decimals
  // ---------------------------------------------------------------------

  function ClientDivMult(m: ValidatorMetrics): real {
    if m.clientSharePct > 50.0 then 1.8 else if m.clientSharePct > 33.0 then 1.3 else 1.0
  }

  function CircuitBreakerMult(m: ValidatorMetrics): real {
    if m.hasCircuitBreakers then 1.0 else 2.0
  }

  function KeySegMult(m: ValidatorMetrics): real {
    if m.hasKeySegregation then 1.0 else 1.3
  }

  function HumiMult(m: ValidatorMetrics): real {
    if m.humiScore >= 800.0 then 0.8 else if m.humiScore < 400.0 then 1.5 else 1.0
  }

  function DowntimeMult(m: ValidatorMetrics): real {
    if m.downtimePct > 5.0 then 1.5 else if m.downtimePct > 1.0 then 1.2 else 1.0
  }

  function SlashMult(m: ValidatorMetrics): real {
    if m.priorSlashes >= 3.0 then 2.0 else if m.priorSlashes >= 1.0 then 1.5 else 1.0
  }

  /** The product of the factors as decimal numbers. */
  function DecimalProduct(m: ValidatorMetrics): real {
    ClientDivMult(m) * CircuitBreakerMult(m) * KeySegMult(m) * HumiMult(m) * DowntimeMult(m) * SlashMult(m)
  }

  lemma TenthsTimes(u: real, x: nat, scale: real, v: real, y: nat)
    requires scale > 0.0 && u == x as real / scale && v == y as real / 10.0
    ensures u * v == (x * y) as real / (scale * 10.0)
  {
    assert (x * y) as real == x as real * y as real;
  }

  lemma SixTenths(a: nat, b: nat, c: nat, d: nat, e: nat, f: nat, p: real, q: real, r: real, s: real, t: real, u: real)
    requires p == a as real / 10.0 && q == b as real / 10.0 && r == c as real / 10.0
    requires s == d as real / 10.0 && t == e as real / 10.0 && u == f as real / 10.0
    ensures a * b * c * d * e * f >= 0
    ensures p * q * r * s * t * u == (a * b * c * d * e * f) as real / 1_000_000.0
  {
    NatProduct(a, b);
    NatProduct(a * b, c);
    NatProduct(a * b * c, d);
    NatProduct(a * b * c * d, e);
    NatProduct(a * b * c * d * e, f);
    TenthsTimes(p, a, 10.0, q, b);
    TenthsTimes(p * q, a * b, 100.0, r, c);
    TenthsTimes(p * q * r, a * b * c, 1_000.0, s, d);
    TenthsTimes(p * q * r * s, a * b * c * d, 10_000.0, t, e);
    TenthsTimes(p * q * r * s * t, a * b * c * d * e, 100_000.0, u, f);
  }

  lemma FactorsAreTenths(m: ValidatorMetrics)
    ensures ClientDivMult(m) == ClientDiv(m) as real / 10.0 && CircuitBreakerMult(m) == CircuitBreaker(m) as real / 10.0
    ensures KeySegMult(m) == KeySeg(m) as real / 10.0 && HumiMult(m) == Humi(m) as real / 10.0
    ensures DowntimeMult(m) == Downtime(m) as real / 10.0 && SlashMult(m) == Slash(m) as real / 10.0
  {
  }

  lemma RawIsDecimalProduct(m: ValidatorMetrics)
    ensures DecimalProduct(m) == RawMillionths(m) as real / 1_000_000.0
  {
    FactorsAreTenths(m);
    SixTenths(ClientDiv(m), CircuitBreaker(m), KeySeg(m), Humi(m), Downtime(m), Slash(m),
              ClientDivMult(m), CircuitBreakerMult(m), KeySegMult(m), HumiMult(m), DowntimeMult(m), SlashMult(m));
  }

  lemma RoundedQuotient(n: nat)
    ensures (n as real / 1_000_000.0 * 100.0 + 0.5).Floor == (n + 5_000) / 10_000
  {
    var q, r := (n + 5_000) / 10_000, (n + 5_000) % 10_000;
    assert n + 5_000 == 10_000 * q + r;
    assert n as real / 1_000_000.0 * 100.0 + 0.5 == q as real + r as real / 10_000.0;
  }

  /** The integer multiplier is the decimal product in hundredths, rounded half up and clamped. */
  lemma RiskIsRoundedProduct(m: ValidatorMetrics)
    ensures RiskMultiplier(m) == Clamp(80, 300, (DecimalProduct(m) * 100.0 + 0.5).Floor)
  {
    RawIsDecimalProduct(m);
    RoundedQuotient(RawMillionths(m));
  }
}
