/** What a payment means for each role: the integer arithmetic of the funding e-mails
    (notes.service.ts, calculateReceivedAmount) and the formula of the dashboard (vault.service.ts,
    getVaultRoleInfo), and how the two are related. Amounts are micro-units of USDC. */
module Payout {
  import opened TokenAllocation

  /** 100 percent, in the 1e-6 percent in which fees are counted. */
  const FULL := 100_000_000

  /** 100 percent, in the hundredths of a percent in which shares are counted. */
  const WHOLE := 10_000

  /** Undo the fee: the amount before the fee was added on top. */
  function OriginalAmount(amountWithFees: nat, fee: nat): nat {
    amountWithFees * FULL / (FULL + fee)
  }

  function ShareAmount(originalAmount: nat, share: nat): nat {
    originalAmount * share / WHOLE
  }

  /** toFixed(2) of a micro amount, in cents: the nearest, and the larger of two nearest. */
  function Cents(micros: nat): nat { (micros + 5_000) / 10_000 }

  function ReceivedAmount(amountWithFees: nat, fee: nat, share: nat): nat {
    Cents(ShareAmount(OriginalAmount(amountWithFees, fee), share))
  }

  // ---------------------------------------------------------------- fee inversion

  /** The fee on a net amount, rounded down and up. */
  function FeeDown(net: nat, fee: nat): nat { net * fee / FULL }

  function FeeUp(net: nat, fee: nat): nat { (net * fee + FULL - 1) / FULL }

  /** A quotient is at least q exactly when the dividend is at least q times the divisor. */
  lemma {:induction false} QuotientAtLeast(x: nat, d: nat, q: nat)
    requires d > 0
    ensures x / d >= q <==> x >= q * d
  {
    var p := x / d;
    assert x == p * d + x % d;
    if p >= q { MulMonotone(q, p, d); } else { MulMonotone(p + 1, q, d); }
  }

  lemma {:induction false} MulMonotone(a: nat, b: nat, d: nat)
    requires a <= b
    ensures a * d <= b * d
  {
    assert b * d == a * d + (b - a) * d;
  }

  /** The rounded-up fee is the least one that covers the exact fee. */
  lemma {:induction false} FeeUpIsLeast(net: nat, fee: nat, paid: nat)
    ensures FeeUp(net, fee) <= paid <==> net * fee <= paid * FULL
  {
    QuotientAtLeast(net * fee + FULL - 1, FULL, paid + 1);
  }

  /** Undoing the fee is adjoint to adding it rounded up: at least `net` comes out exactly when the
      gross amount pays for `net` and its fee. */
  lemma {:induction false} FeeInversion(gross: nat, fee: nat, net: nat)
    ensures OriginalAmount(gross, fee) >= net <==> net + FeeUp(net, fee) <= gross
  {
    QuotientAtLeast(gross * FULL, FULL + fee, net);
    assert net * (FULL + fee) == net * FULL + net * fee;
    if net <= gross {
      FeeUpIsLeast(net, fee, gross - net);
      assert (gross - net) * FULL == gross * FULL - net * FULL;
    }
  }

  lemma {:induction false} FeeUpMonotone(net: nat, more: nat, fee: nat)
    requires net <= more
    ensures FeeUp(net, fee) <= FeeUp(more, fee)
  {
    FeeUpIsLeast(more, fee, FeeUp(more, fee));
    MulMonotone(net, more, fee);
    FeeUpIsLeast(net, fee, FeeUp(more, fee));
  }

  /** For every net amount and fee: with the fee rounded up, exactly the net amount comes back. */
  lemma {:induction false} RoundedUpFeeIsExact(net: nat, fee: nat)
    ensures OriginalAmount(net + FeeUp(net, fee), fee) == net
  {
    var gross := net + FeeUp(net, fee);
    FeeInversion(gross, fee, net);
    FeeInversion(gross, fee, net + 1);
    FeeUpMonotone(net, net + 1, fee);
  }

  /** With the fee rounded down, one micro-unit is lost unless the fee was whole anyway. */
  lemma {:induction false} RoundedDownFeeLosesAtMostOne(net: nat, fee: nat)
    ensures OriginalAmount(net + FeeDown(net, fee), fee) == if net * fee % FULL == 0 then net else net - 1
  {
    var gross, down := net + FeeDown(net, fee), FeeDown(net, fee);
    assert net * fee == down * FULL + net * fee % FULL;
    FeeInversion(gross, fee, net);
    FeeUpIsLeast(net, fee, down);
    FeeInversion(gross, fee, net + 1);
    FeeUpIsLeast(net, fee, down + 1);
    FeeUpMonotone(net, net + 1, fee);
    if net * fee % FULL == 0 {
      ExactFee(net, fee);
    } else {
      FeeInversion(gross, fee, net - 1);
      FeeUpMonotone(net - 1, net, fee);
    }
  }

  lemma {:induction false} ExactFee(net: nat, fee: nat)
    requires net * fee % FULL == 0
    ensures FeeUp(net, fee) == FeeDown(net, fee)
  {
    var down := FeeDown(net, fee);
    assert net * fee == down * FULL;
    FeeUpIsLeast(net, fee, down);
    FeeUpIsLeast(net, fee, FeeUp(net, fee));
  }

  /** Paying more never yields less, and a higher fee never yields more. */
  lemma {:induction false} InversionIsMonotone(gross: nat, more: nat, fee: nat, lower: nat)
    requires gross <= more && lower <= fee
    ensures OriginalAmount(gross, fee) <= OriginalAmount(more, lower)
  {
    var net := OriginalAmount(gross, fee);
    FeeInversion(gross, fee, net);
    FeeUpIsLeast(net, fee, FeeUp(net, fee));
    assert net * lower <= net * fee by { MulMonotone(lower, fee, net); }
    FeeUpIsLeast(net, lower, FeeUp(net, fee));
    FeeInversion(more, lower, net);
  }

  // ---------------------------------------------------------------- conservation

  function TotalShares(roles: seq<Role>): nat {
    if roles == [] then 0 else TotalShares(roles[..|roles| - 1]) + roles[|roles| - 1].sharePercentage
  }

  /** The micro-units that all roles together are told of. */
  function TotalPaid(original: nat, roles: seq<Role>): nat {
    if roles == [] then 0
    else TotalPaid(original, roles[..|roles| - 1]) + ShareAmount(original, roles[|roles| - 1].sharePercentage)
  }

  function TotalCents(original: nat, roles: seq<Role>): nat {
    if roles == [] then 0
    else TotalCents(original, roles[..|roles| - 1]) + Cents(ShareAmount(original, roles[|roles| - 1].sharePercentage))
  }

  lemma {:induction false} FloorsOfShares(original: nat, roles: seq<Role>)
    ensures TotalPaid(original, roles) * WHOLE <= original * TotalShares(roles)
    ensures original * TotalShares(roles) <= TotalPaid(original, roles) * WHOLE + |roles| * (WHOLE - 1)
  {
    if roles != [] {
      var before, share := roles[..|roles| - 1], roles[|roles| - 1].sharePercentage;
      FloorsOfShares(original, before);
      assert original * TotalShares(roles) == original * TotalShares(before) + original * share;
    }
  }

  /** The shares and the fee never exceed the payment, and when the shares are 100 percent less than
      one micro-unit per role is left over: at most one per role but one. */
  lemma {:induction false} PayoutConserves(gross: nat, fee: nat, roles: seq<Role>)
    requires TotalShares(roles) == WHOLE
    ensures var original := OriginalAmount(gross, fee);
      && TotalPaid(original, roles) + FeeUp(original, fee) <= gross
      && TotalPaid(original, roles) <= original <= TotalPaid(original, roles) + |roles| - 1
      && gross < original + 1 + FeeUp(original + 1, fee)
  {
    var original := OriginalAmount(gross, fee);
    FeeInversion(gross, fee, original);
    FeeInversion(gross, fee, original + 1);
    FloorsOfShares(original, roles);
  }

  /** Cents are nearest, with ties going up. */
  lemma {:induction false} CentsAreNearest(micros: nat, other: nat)
    ensures Cents(micros) * 10_000 - 5_000 <= micros < Cents(micros) * 10_000 + 5_000
    ensures var off, offOther := Cents(micros) * 10_000 - micros, other * 10_000 - micros;
      (if off < 0 then -off else off) <= (if offOther < 0 then -offOther else offOther)
  {}

  lemma {:induction false} CentsOfShares(original: nat, roles: seq<Role>)
    ensures TotalCents(original, roles) * 10_000 - 5_000 * |roles| <= TotalPaid(original, roles)
    ensures TotalPaid(original, roles) <= TotalCents(original, roles) * 10_000 + 4_999 * |roles|
  {
    if roles != [] { CentsOfShares(original, roles[..|roles| - 1]); }
  }

  /** So the displayed cents miss the net payment by at most half a cent per role, although the shares
      themselves were rounded down before. */
  lemma {:induction false} DisplayedCents(gross: nat, fee: nat, roles: seq<Role>)
    requires TotalShares(roles) == WHOLE
    ensures var original := OriginalAmount(gross, fee);
      var shown := TotalCents(original, roles) * 10_000;
      original - 5_000 * |roles| < shown <= original + 5_000 * |roles|
  {
    var original := OriginalAmount(gross, fee);
    PayoutConserves(gross, fee, roles);
    CentsOfShares(original, roles);
  }

  // ---------------------------------------------------------------- the dashboard

  /** A fee as a fraction, and a share as one. */
  function FeeRate(fee: nat): real { fee as real / FULL as real }

  function ShareRate(share: nat): real { share as real / WHOLE as real }

  function Funds(totalPaid: real, fee: nat): real { totalPaid - totalPaid * FeeRate(fee) }

  /** getVaultRoleInfo. A profit switch of zero counts as none. */
  function Income(totalPaid: real, fee: nat, profitSwitch: real, share: nat): real {
    var funds := Funds(totalPaid, fee);
    if profitSwitch != 0.0 then
      if funds <= profitSwitch * 1_000_000.0 then 0.0
      else (funds - profitSwitch * 1_000_000.0) * ShareRate(share)
    else funds * ShareRate(share)
  }

  function TotalIncome(totalPaid: real, fee: nat, profitSwitch: real, roles: seq<Role>): real {
    if roles == [] then 0.0
    else TotalIncome(totalPaid, fee, profitSwitch, roles[..|roles| - 1]) +
         Income(totalPaid, fee, profitSwitch, roles[|roles| - 1].sharePercentage)
  }

  function Max(a: real, b: real): real { if a < b then b else a }

  function Distributed(totalPaid: real, fee: nat, profitSwitch: real): real {
    var funds := Funds(totalPaid, fee);
    if profitSwitch == 0.0 then funds else Max(0.0, funds - profitSwitch * 1_000_000.0)
  }

  lemma {:induction false} IncomeIsShare(totalPaid: real, fee: nat, profitSwitch: real, share: nat)
    ensures Income(totalPaid, fee, profitSwitch, share) == Distributed(totalPaid, fee, profitSwitch) * ShareRate(share)
  {
    hide Funds, ShareRate;
  }

  lemma {:induction false} ShareRatesAdd(a: nat, b: nat)
    ensures ShareRate(a + b) == ShareRate(a) + ShareRate(b)
  {}

  lemma {:induction false} Distribute(d: real, x: real, y: real)
    ensures d * (x + y) == d * x + d * y
  {}

  lemma {:induction false} IncomesByShare(totalPaid: real, fee: nat, profitSwitch: real, roles: seq<Role>)
    ensures TotalIncome(totalPaid, fee, profitSwitch, roles) ==
      Distributed(totalPaid, fee, profitSwitch) * ShareRate(TotalShares(roles))
  {
    var d := Distributed(totalPaid, fee, profitSwitch);
    if roles == [] {
      assert ShareRate(0) == 0.0;
    } else {
      var before, share := roles[..|roles| - 1], roles[|roles| - 1].sharePercentage;
      IncomesByShare(totalPaid, fee, profitSwitch, before);
      IncomeIsShare(totalPaid, fee, profitSwitch, share);
      ShareRatesAdd(TotalShares(before), share);
      hide Income, Distributed, ShareRate;
      Distribute(d, ShareRate(TotalShares(before)), ShareRate(share));
    }
  }

  /** The same in dollars and percent, which is how the profit switch and the fee are given: a role is shown its
      percentage of what is left of the payment after the fee, above the profit switch if there is one. */
  lemma {:induction false} DollarsMean(paid: real, feePercent: real, profitSwitch: real, sharePercent: real, fee: nat,
                                       share: nat)
    requires feePercent == fee as real / 1_000_000.0 && sharePercent == share as real / 100.0
    ensures var funds := paid - paid * (feePercent / 100.0);
      var income := Income(paid * 1_000_000.0, fee, profitSwitch, share) / 1_000_000.0;
      && (profitSwitch == 0.0 ==> income == funds * (sharePercent / 100.0))
      && (profitSwitch != 0.0 && funds <= profitSwitch ==> income == 0.0)
      && (profitSwitch != 0.0 && funds > profitSwitch ==> income == (funds - profitSwitch) * (sharePercent / 100.0))
  {
    var funds := paid - paid * (feePercent / 100.0);
    assert FeeRate(fee) == feePercent / 100.0 && ShareRate(share) == sharePercent / 100.0;
    FundsScale(paid, FeeRate(fee));
    assert Funds(paid * 1_000_000.0, fee) == funds * 1_000_000.0;
    Scale(funds, ShareRate(share));
    Scale(funds - profitSwitch, ShareRate(share));
  }

  lemma {:induction false} FundsScale(paid: real, rate: real)
    ensures paid * 1_000_000.0 - paid * 1_000_000.0 * rate == (paid - paid * rate) * 1_000_000.0
  {}

  lemma {:induction false} Scale(x: real, rate: real)
    ensures x * 1_000_000.0 * rate / 1_000_000.0 == x * rate
  {}

  /** The incomes of all roles are the funds above the profit switch, or all funds without one. */
  lemma {:induction false} IncomesAddUp(totalPaid: real, fee: nat, profitSwitch: real, roles: seq<Role>)
    requires TotalShares(roles) == WHOLE
    ensures TotalIncome(totalPaid, fee, profitSwitch, roles) == Distributed(totalPaid, fee, profitSwitch)
  {
    IncomesByShare(totalPaid, fee, profitSwitch, roles);
    assert ShareRate(WHOLE) == 1.0;
  }

  // ---------------------------------------------------------------- the two formulas

  /** The exact net amount when the fee is added on top. */
  function Net(paid: real, rate: real): real
    requires rate >= 0.0
  {
    paid / (1.0 + rate)
  }

  /** Taking the fee off the payment gives less than undoing a fee on top, by exactly P f^2 / (1 + f). */
  lemma {:induction false} FormulasDiffer(paid: real, rate: real)
    requires rate >= 0.0
    ensures Net(paid, rate) - (paid - paid * rate) == paid * rate * rate / (1.0 + rate)
  {
    var d := 1.0 + rate;
    assert (paid - paid * rate) * d == paid - paid * rate * rate;
    assert Net(paid, rate) * d == paid;
    DivideBoth(Net(paid, rate) - (paid - paid * rate), paid * rate * rate, d);
  }

  lemma {:induction false} DivideBoth(x: real, y: real, d: real)
    requires d > 0.0 && x * d == y
    ensures x == y / d
  {}

  lemma {:induction false} FloorBounds(x: nat, d: nat)
    requires d > 0
    ensures x / d * d <= x < (x / d + 1) * d
  {
    QuotientAtLeast(x, d, x / d);
    QuotientAtLeast(x, d, x / d + 1);
  }

  lemma {:induction false} RealProduct(a: nat, b: nat)
    ensures (a * b) as real == a as real * b as real
  {}

  lemma {:induction false} Sandwich(o: real, n: real, d: real, x: real)
    requires d > 0.0 && n * d == x && o * d <= x < (o + 1.0) * d
    ensures o <= n < o + 1.0
  {
    CompareProducts(o, n, d);
    CompareProducts(n, o + 1.0, d);
  }

  lemma {:induction false} RealFloorBounds(x: nat, d: nat)
    requires d > 0
    ensures (x / d) as real * d as real <= x as real < ((x / d) as real + 1.0) * d as real
  {
    var q := x / d;
    FloorBounds(x, d);
    RealProduct(q, d);
    RealProduct(q + 1, d);
    assert (q + 1) as real == q as real + 1.0;
  }

  lemma {:induction false} NetIsJustAbove(gross: nat, fee: nat)
    ensures var original, net := OriginalAmount(gross, fee) as real, Net(gross as real, FeeRate(fee));
      original <= net < original + 1.0
  {
    RealFloorBounds(gross * FULL, FULL + fee);
    RealProduct(gross, FULL);
    NetTimesDivisor(gross as real, fee);
    Sandwich(OriginalAmount(gross, fee) as real, Net(gross as real, FeeRate(fee)), (FULL + fee) as real,
             (gross * FULL) as real);
  }

  lemma {:induction false} NetTimesDivisor(paid: real, fee: nat)
    ensures Net(paid, FeeRate(fee)) * (FULL + fee) as real == paid * FULL as real
  {
    var n, rate := Net(paid, FeeRate(fee)), FeeRate(fee);
    assert n * (1.0 + rate) == paid;
    ScaledUp(n, rate, paid, (FULL + fee) as real);
  }

  lemma {:induction false} ScaledUp(n: real, rate: real, paid: real, d: real)
    requires n * (1.0 + rate) == paid && (1.0 + rate) * FULL as real == d
    ensures n * d == paid * FULL as real
  {
    assert n * d == n * ((1.0 + rate) * FULL as real) == (n * (1.0 + rate)) * FULL as real;
  }

  lemma {:induction false} CompareProducts(a: real, b: real, d: real)
    requires d > 0.0
    ensures a * d <= b * d <==> a <= b
    ensures a * d < b * d <==> a < b
  {
    assert (b - a) * d == b * d - a * d;
    if a < b { assert (b - a) * d > 0.0; }
    if b < a { assert (a - b) * d > 0.0; assert (a - b) * d == a * d - b * d; }
  }

  lemma {:induction false} ShareIsJustBelow(original: nat, share: nat)
    ensures var amount := ShareAmount(original, share) as real;
      amount <= original as real * ShareRate(share) < amount + 1.0
  {
    var a := ShareAmount(original, share);
    assert a * WHOLE <= original * share < (a + 1) * WHOLE;
    assert (original * share) as real == original as real * share as real;
    assert original as real * ShareRate(share) == original as real * share as real / WHOLE as real;
  }

  /** The units: a fee of so many percent, and a share of so many, are what is undone and taken, up to rounding
      down. A fee is stored with six decimals of a percent, a share with two. */
  lemma {:induction false} PercentagesMean(gross: nat, fee: nat, share: nat, feePercent: real, sharePercent: real)
    requires feePercent == fee as real / 1_000_000.0 && sharePercent == share as real / 100.0
    ensures var original, amount := OriginalAmount(gross, fee), ShareAmount(OriginalAmount(gross, fee), share);
      && original as real <= gross as real / (1.0 + feePercent / 100.0) < original as real + 1.0
      && amount as real <= original as real * (sharePercent / 100.0) < amount as real + 1.0
  {
    NetIsJustAbove(gross, fee);
    ShareIsJustBelow(OriginalAmount(gross, fee), share);
    assert FeeRate(fee) == feePercent / 100.0;
    assert ShareRate(share) == sharePercent / 100.0;
  }

  /** Without a profit switch: the dashboard shows less than two micro-units more than the e-mail, and
      the e-mail at most the share of P f^2 / (1 + f) more than the dashboard. */
  lemma {:induction false} DashboardAgainstEmail(gross: nat, fee: nat, share: nat)
    requires share <= WHOLE
    ensures var income := Income(gross as real, fee, 0.0, share);
      var mailed := ShareAmount(OriginalAmount(gross, fee), share) as real;
      var rate := FeeRate(fee);
      && income < mailed + 2.0
      && mailed <= income + gross as real * rate * rate / (1.0 + rate) * ShareRate(share)
  {
    hide ShareAmount, OriginalAmount, ShareRate, Net;
    var paid, rate, original := gross as real, FeeRate(fee), OriginalAmount(gross, fee);
    FormulasDiffer(paid, rate);
    GapIsNonnegative(paid, rate);
    NetIsJustAbove(gross, fee);
    ShareIsJustBelow(original, share);
    ShareIsFraction(share);
    SharesOfCloseAmounts(Funds(paid, fee), Net(paid, rate), original as real, ShareAmount(original, share) as real,
                         ShareRate(share));
    assert Funds(paid, fee) == paid - paid * rate;
  }

  lemma {:induction false} ShareIsFraction(share: nat)
    requires share <= WHOLE
    ensures 0.0 <= ShareRate(share) <= 1.0
  {}

  lemma {:induction false} SharesOfCloseAmounts(funds: real, net: real, original: real, mailed: real, s: real)
    requires funds <= net && original <= net < original + 1.0 && 0.0 <= s <= 1.0
    requires mailed <= original * s < mailed + 1.0
    ensures funds * s < mailed + 2.0
    ensures mailed <= funds * s + (net - funds) * s
  {
    var above, gap := net - original, net - funds;
    assert 0.0 <= above * s <= s by { FractionOf(above, s); }
    assert 0.0 <= gap * s by { ProductIsNonnegative(gap, s); }
    SplitProduct(original, above, s, net);
    SplitProduct(funds, gap, s, net);
  }

  lemma {:induction false} SplitProduct(a: real, b: real, s: real, sum: real)
    requires sum == a + b
    ensures sum * s == a * s + b * s
  {}

  lemma {:induction false} ProductIsNonnegative(a: real, s: real)
    requires a >= 0.0 && s >= 0.0
    ensures a * s >= 0.0
  {}

  lemma {:induction false} FractionOf(a: real, s: real)
    requires 0.0 <= a < 1.0 && s >= 0.0
    ensures 0.0 <= a * s <= s
  {
    ProductIsNonnegative(1.0 - a, s);
    SplitProduct(a, 1.0 - a, s, 1.0);
    ProductIsNonnegative(a, s);
  }

  lemma {:induction false} GapIsNonnegative(paid: real, rate: real)
    requires paid >= 0.0 && rate >= 0.0
    ensures paid * rate * rate / (1.0 + rate) >= 0.0
  {
    assert paid * rate >= 0.0;
    assert paid * rate * rate >= 0.0;
  }
}
