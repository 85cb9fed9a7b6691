/**
 * The amortization engine of src/utils/UtilFunctions.ts: loan bounds, the
 * level-payment formula, the chart-period count, the schedule generator,
 * the input validator and the thousands-separator formatter.
 */
module UtilFunctions {
  import opened Wrappers
  import opened Arithmetic

  const MinLoanAmount: real := 50000.0
  const MaxLoanAmount: real := 95000.0

  /** Repayment frequency. */
  datatype Period = Weekly | Fortnightly | Monthly

  /** Time scale of the chart: it fixes how many records are produced. */
  datatype ChartScale = Week | Fortnight | Month | Year

  /** The periodsPerYear table. */
  function PeriodsPerYear(period: Period): nat
  {
    match period
    case Weekly => 52
    case Fortnightly => 26
    case Monthly => 12
  }

  /** (interestRate / 100) / periodsPerYear[period]. */
  function PeriodicRate(interestRate: real, period: Period): (r: real)
    ensures r * PeriodsPerYear(period) as real * 100.0 == interestRate
    ensures interestRate > 0.0 ==> r > 0.0
    ensures interestRate == 0.0 ==> r == 0.0
  {
    (interestRate / 100.0) / PeriodsPerYear(period) as real
  }

  // ---------------------------------------------------------------------
  // calculatePayments
  // ---------------------------------------------------------------------

  /**
   * PMT = P * (r * (1+r)^n) / ((1+r)^n - 1) for a periodic rate r and n
   * payments. `None` is the non-finite number (NaN or Infinity) that
   * JavaScript produces when the denominator is 0.
   */
  function Annuity(loanAmount: real, periodicRate: real, totalPeriods: nat): (payment: Option<real>)
    ensures payment.None? <==> Pow(1.0 + periodicRate, totalPeriods) == 1.0
    ensures payment.Some? ==>
              payment.value * (Pow(1.0 + periodicRate, totalPeriods) - 1.0)
              == loanAmount * periodicRate * Pow(1.0 + periodicRate, totalPeriods)
  {
    var growth := Pow(1.0 + periodicRate, totalPeriods);
    if growth - 1.0 == 0.0 then None
    else Some(loanAmount * (periodicRate * growth) / (growth - 1.0))
  }

  /** calculatePayments: the annuity payment at the frequency's rate over years * periodsPerYear payments. */
  function CalculatePayments(loanAmount: real, interestRate: real, years: nat, period: Period): (payment: Option<real>)
    ensures interestRate == 0.0 || years == 0 ==> payment.None?
    ensures payment.Some? ==>
              var r := PeriodicRate(interestRate, period);
              var n := years * PeriodsPerYear(period);
              payment.value * (Pow(1.0 + r, n) - 1.0) == loanAmount * r * Pow(1.0 + r, n)
  {
    PowOfOne(years * PeriodsPerYear(period));
    Annuity(loanAmount, PeriodicRate(interestRate, period), years * PeriodsPerYear(period))
  }

  /** For a non-negative rate the formula is finite exactly when both the rate and the term are positive. */
  lemma PaymentDefinedIff(loanAmount: real, interestRate: real, years: nat, period: Period)
    requires interestRate >= 0.0
    ensures CalculatePayments(loanAmount, interestRate, years, period).Some? <==> interestRate > 0.0 && years > 0
  {
    var n := years * PeriodsPerYear(period);
    var r := PeriodicRate(interestRate, period);
    if interestRate > 0.0 && years > 0 {
      PowGreaterThanOne(1.0 + r, n);
    } else if interestRate == 0.0 {
      PowOfOne(n);
    }
  }

  /** (1+r)^n - 1 < n * r * (1+r)^n for r > 0 and n >= 1. */
  lemma {:induction false} GrowthBelowSimpleInterest(r: real, n: nat)
    requires r > 0.0 && n >= 1
    ensures Pow(1.0 + r, n) - 1.0 < n as real * r * Pow(1.0 + r, n)
  {
    if n > 1 {
      GrowthBelowSimpleInterest(r, n - 1);
      var q := Pow(1.0 + r, n - 1);
      PowAtLeastOne(1.0 + r, n - 1);
      calc {
        Pow(1.0 + r, n) - 1.0;
      ==
        (q - 1.0) + q * r;
      <
        (n - 1) as real * r * q + q * r;
      ==
        n as real * r * q;
      <  { assert n as real * r * q * r > 0.0; }
        n as real * r * q * (1.0 + r);
      ==
        n as real * r * Pow(1.0 + r, n);
      }
    }
  }

  /** The arithmetic behind AnnuityExceedsPrincipal, over plain reals (q stands for (1+r)^n). */
  lemma PaymentsExceedLoan(loan: real, r: real, p: real, q: real, n: real)
    requires loan > 0.0 && r > 0.0 && q > 1.0 && n >= 1.0
    requires p * (q - 1.0) == loan * r * q
    requires q - 1.0 < n * r * q
    ensures p > 0.0 && p * n > loan
  {
    MulPositive(r, q);
    assert loan * r * q == loan * (r * q);
    MulPositive(loan, r * q);
    PositiveFactor(p, q - 1.0);
    assert (p * n) * (q - 1.0) == n * (p * (q - 1.0));
    assert (p * n) * (q - 1.0) == loan * (n * r * q);
    MulStrictlyIncreasing(loan, n * r * q, q - 1.0);
    CancelPositive(p * n, loan, q - 1.0);
  }

  /** A positive loan at a positive rate over n >= 1 payments: each payment is positive and all n exceed the loan. */
  lemma AnnuityExceedsPrincipal(loanAmount: real, r: real, n: nat)
    requires loanAmount > 0.0 && r > 0.0 && n >= 1
    ensures Annuity(loanAmount, r, n).Some?
    ensures Annuity(loanAmount, r, n).value > 0.0
    ensures Annuity(loanAmount, r, n).value * n as real > loanAmount
  {
    PowGreaterThanOne(1.0 + r, n);
    GrowthBelowSimpleInterest(r, n);
    PaymentsExceedLoan(loanAmount, r, Annuity(loanAmount, r, n).value, Pow(1.0 + r, n), n as real);
  }

  /**
   * With a positive loan, rate and term the payment is positive and the n
   * payments together exceed the amount borrowed.
   */
  lemma PaymentExceedsPrincipal(loanAmount: real, interestRate: real, years: nat, period: Period)
    requires loanAmount > 0.0 && interestRate > 0.0 && years > 0
    ensures CalculatePayments(loanAmount, interestRate, years, period).Some?
    ensures var p := CalculatePayments(loanAmount, interestRate, years, period).value;
            p > 0.0 && p * (years * PeriodsPerYear(period)) as real > loanAmount
  {
    AnnuityExceedsPrincipal(loanAmount, PeriodicRate(interestRate, period), years * PeriodsPerYear(period));
  }

  // ---------------------------------------------------------------------
  // The balance recurrence of the generateChartData loop
  // ---------------------------------------------------------------------

  /**
   * remainingBalance after k turns of the loop: each turn subtracts
   * principal = payment - balance * rate.
   */
  function RemainingBalance(loanAmount: real, rate: real, payment: real, k: nat): real
  {
    if k == 0 then loanAmount
    else
      var balance := RemainingBalance(loanAmount, rate, payment, k - 1);
      balance - (payment - balance * rate)
  }

  /** At a zero rate nothing accrues: each turn takes one whole payment off the balance. */
  lemma {:induction false} BalanceAtZeroRate(loanAmount: real, payment: real, k: nat)
    ensures RemainingBalance(loanAmount, 0.0, payment, k) == loanAmount - k as real * payment
  {
    if k > 0 {
      BalanceAtZeroRate(loanAmount, payment, k - 1);
    }
  }

  /** One turn of the loop, unfolded. */
  lemma BalanceStep(loanAmount: real, rate: real, payment: real, k: nat)
    requires k > 0
    ensures RemainingBalance(loanAmount, rate, payment, k)
            == RemainingBalance(loanAmount, rate, payment, k - 1)
               - (payment - RemainingBalance(loanAmount, rate, payment, k - 1) * rate)
  {
  }

  lemma PowStep(x: real, k: nat)
    requires k > 0
    ensures Pow(x, k) == x * Pow(x, k - 1)
  {
  }

  /** One turn of the closed form, over plain reals (q stands for (1+r)^k, q' for (1+r)^(k+1)). */
  lemma ClosedFormStep(loan: real, r: real, p: real, b: real, q: real, b': real, q': real)
    requires b * r == loan * r * q - p * (q - 1.0)
    requires b' == b - (p - b * r)
    requires q' == (1.0 + r) * q
    ensures b' * r == loan * r * q' - p * (q' - 1.0)
  {
    calc {
      b' * r;
    ==
      (b * r) * (1.0 + r) - p * r;
    ==
      (loan * r * q - p * (q - 1.0)) * (1.0 + r) - p * r;
    ==
      loan * r * ((1.0 + r) * q) - p * ((1.0 + r) * q - 1.0);
    }
  }

  /** Closed form of the recurrence, multiplied through by the rate. */
  lemma {:induction false} BalanceClosedForm(loanAmount: real, rate: real, payment: real, k: nat)
    ensures RemainingBalance(loanAmount, rate, payment, k) * rate
            == loanAmount * rate * Pow(1.0 + rate, k) - payment * (Pow(1.0 + rate, k) - 1.0)
  {
    if k > 0 {
      BalanceClosedForm(loanAmount, rate, payment, k - 1);
      BalanceStep(loanAmount, rate, payment, k);
      PowStep(1.0 + rate, k);
      ClosedFormStep(loanAmount, rate, payment,
                     RemainingBalance(loanAmount, rate, payment, k - 1), Pow(1.0 + rate, k - 1),
                     RemainingBalance(loanAmount, rate, payment, k), Pow(1.0 + rate, k));
    }
  }

  /** When finite and at a non-zero rate, the annuity payment leaves exactly 0 after n turns. */
  lemma AnnuityPaysOff(loanAmount: real, r: real, n: nat)
    requires Annuity(loanAmount, r, n).Some? && r != 0.0
    ensures RemainingBalance(loanAmount, r, Annuity(loanAmount, r, n).value, n) == 0.0
  {
    var q := Pow(1.0 + r, n);
    var p := Annuity(loanAmount, r, n).value;
    assert p * (q - 1.0) == loanAmount * r * q;
    BalanceClosedForm(loanAmount, r, p, n);
    assert RemainingBalance(loanAmount, r, p, n) * r == 0.0;
  }

  /**
   * The documented formula is the level payment that retires the loan: when
   * it is finite and the rate is not 0, the balance is exactly 0 after n turns.
   */
  lemma PaymentPaysOff(loanAmount: real, interestRate: real, years: nat, period: Period)
    requires CalculatePayments(loanAmount, interestRate, years, period).Some?
    ensures RemainingBalance(loanAmount, PeriodicRate(interestRate, period),
                             CalculatePayments(loanAmount, interestRate, years, period).value,
                             years * PeriodsPerYear(period)) == 0.0
  {
    AnnuityPaysOff(loanAmount, PeriodicRate(interestRate, period), years * PeriodsPerYear(period));
  }

  /** Before the n-th turn the balance of a positive loan at a positive rate is still positive. */
  lemma AnnuityBalancePositive(loanAmount: real, r: real, n: nat, k: nat)
    requires loanAmount > 0.0 && r > 0.0 && k < n
    ensures Annuity(loanAmount, r, n).Some?
    ensures RemainingBalance(loanAmount, r, Annuity(loanAmount, r, n).value, k) > 0.0
  {
    var qn := Pow(1.0 + r, n);
    var qk := Pow(1.0 + r, k);
    assert 1.0 <= qk < qn by {
      PowIncreasing(1.0 + r, k, n);
    }
    var p := Annuity(loanAmount, r, n).value;
    assert p * (qn - 1.0) == loanAmount * r * qn;
    var b := RemainingBalance(loanAmount, r, p, k);
    assert b * r == loanAmount * r * qk - p * (qk - 1.0) by {
      BalanceClosedForm(loanAmount, r, p, k);
    }
    BalanceSign(loanAmount, r, p, qk, qn, b);
  }

  /** The arithmetic behind AnnuityBalancePositive, over plain reals. */
  lemma BalanceSign(loan: real, r: real, p: real, qk: real, qn: real, b: real)
    requires loan > 0.0 && r > 0.0 && 1.0 <= qk < qn
    requires p * (qn - 1.0) == loan * r * qn
    requires b * r == loan * r * qk - p * (qk - 1.0)
    ensures b > 0.0
  {
    calc {
      b * r * (qn - 1.0);
    ==
      loan * r * qk * (qn - 1.0) - p * (qn - 1.0) * (qk - 1.0);
    ==
      loan * r * qk * (qn - 1.0) - loan * r * qn * (qk - 1.0);
    ==
      loan * r * (qn - qk);
    }
    MulPositive(loan, r);
    MulPositive(loan * r, qn - qk);
    MulPositive(r, qn - 1.0);
    assert b * (r * (qn - 1.0)) > 0.0;
    PositiveFactor(b, r * (qn - 1.0));
  }

  /**
   * Before the n-th turn the balance of a positive loan at a positive rate is
   * still positive.
   */
  lemma BalancePositiveBeforePayoff(loanAmount: real, interestRate: real, years: nat, period: Period, k: nat)
    requires loanAmount > 0.0 && interestRate > 0.0 && years > 0
    requires k < years * PeriodsPerYear(period)
    ensures CalculatePayments(loanAmount, interestRate, years, period).Some?
    ensures RemainingBalance(loanAmount, PeriodicRate(interestRate, period),
                             CalculatePayments(loanAmount, interestRate, years, period).value, k) > 0.0
  {
    AnnuityBalancePositive(loanAmount, PeriodicRate(interestRate, period), years * PeriodsPerYear(period), k);
  }

  /**
   * Once the balance is not positive, every further turn of a positive
   * payment drives it below zero: the loop never stops at payoff.
   */
  lemma {:induction false} BalanceNegativeAfter(loanAmount: real, rate: real, payment: real, k: nat, j: nat)
    requires rate >= 0.0 && payment > 0.0
    requires RemainingBalance(loanAmount, rate, payment, k) <= 0.0
    requires j > k
    ensures RemainingBalance(loanAmount, rate, payment, j) < 0.0
  {
    if j > k + 1 {
      BalanceNegativeAfter(loanAmount, rate, payment, k, j - 1);
    }
    var b := RemainingBalance(loanAmount, rate, payment, j - 1);
    assert b * (1.0 + rate) <= 0.0;
  }

  // ---------------------------------------------------------------------
  // calculateTotalPeriods
  // ---------------------------------------------------------------------

  /** The number of chart records for a scale. */
  function CalculateTotalPeriods(years: nat, chartScale: ChartScale): (n: nat)
    ensures chartScale == Year ==> n == years
    ensures chartScale == Month ==> n == 12 * years
    ensures chartScale == Fortnight ==> n == 26 * years
    ensures chartScale == Week ==> n == 52 * years
  {
    if chartScale == Year then years
    else if chartScale == Month then years * 12
    else if chartScale == Fortnight then years * 26
    else years * 52
  }

  /** The chart scale that has the same cadence as a repayment frequency. */
  function ScaleOf(period: Period): ChartScale
  {
    match period
    case Weekly => Week
    case Fortnightly => Fortnight
    case Monthly => Month
  }

  /** On the matching scale the record count is the number of repayments. */
  lemma TotalPeriodsOfMatchingScale(years: nat, period: Period)
    ensures CalculateTotalPeriods(years, ScaleOf(period)) == years * PeriodsPerYear(period)
  {
  }

  // ---------------------------------------------------------------------
  // generateChartData
  // ---------------------------------------------------------------------

  /** One pushed record: its 1-based period and the two rounded portions. */
  datatype ChartEntry = ChartEntry(period: nat, principal: real, interest: real)

  /** The exact interest of turn k + 1: the balance left after k turns times the rate. */
  function InterestAt(loanAmount: real, rate: real, payment: real, k: nat): (interest: real)
    ensures rate == 0.0 ==> interest == 0.0
  {
    RemainingBalance(loanAmount, rate, payment, k) * rate
  }

  /** The record of turn i (i >= 1). */
  function EntryAt(loanAmount: real, rate: real, payment: real, i: nat): (e: ChartEntry)
    requires i >= 1
    ensures e.period == i
    ensures -0.005 <= e.interest - InterestAt(loanAmount, rate, payment, i - 1) <= 0.005
    ensures -0.005 <= e.principal - (payment - InterestAt(loanAmount, rate, payment, i - 1)) <= 0.005
  {
    var interest := InterestAt(loanAmount, rate, payment, i - 1);
    ChartEntry(i, Round2(payment - interest), Round2(interest))
  }

  /** The records of the first count turns, in the order they are pushed. */
  function Schedule(loanAmount: real, rate: real, payment: real, count: nat): (data: seq<ChartEntry>)
    ensures |data| == count
    ensures forall j :: 0 <= j < count ==> data[j] == EntryAt(loanAmount, rate, payment, j + 1)
  {
    if count == 0 then []
    else Schedule(loanAmount, rate, payment, count - 1) + [EntryAt(loanAmount, rate, payment, count)]
  }

  /** What generateChartData returns when the payment is finite. */
  function ChartData(loanAmount: real, interestRate: real, years: nat, period: Period, chartScale: ChartScale): (data: seq<ChartEntry>)
    requires CalculatePayments(loanAmount, interestRate, years, period).Some?
    ensures |data| == CalculateTotalPeriods(years, chartScale)
  {
    Schedule(loanAmount, PeriodicRate(interestRate, period),
             CalculatePayments(loanAmount, interestRate, years, period).value,
             CalculateTotalPeriods(years, chartScale))
  }

  /**
   * The for loop of generateChartData: totalPeriods turns that carry
   * remainingBalance and push one rounded record each.
   */
  method AmortizationLoop(loanAmount: real, periodInterestRate: real, payment: real, totalPeriods: nat)
    returns (data: seq<ChartEntry>)
    ensures data == Schedule(loanAmount, periodInterestRate, payment, totalPeriods)
  {
    data := [];
    var remainingBalance := loanAmount;
    var i := 1;
    while i <= totalPeriods
      invariant 1 <= i <= totalPeriods + 1
      invariant remainingBalance == RemainingBalance(loanAmount, periodInterestRate, payment, i - 1)
      invariant data == Schedule(loanAmount, periodInterestRate, payment, i - 1)
    {
      var periodInterest := remainingBalance * periodInterestRate;
      var periodPrincipal := payment - periodInterest;
      remainingBalance := remainingBalance - periodPrincipal;
      data := data + [ChartEntry(i, Round2(periodPrincipal), Round2(periodInterest))];
      i := i + 1;
    }
  }

  /**
   * generateChartData: the payment and rate come from the frequency, the
   * number of records from the chart scale.
   */
  method GenerateChartData(loanAmount: real, interestRate: real, years: nat, period: Period, chartScale: ChartScale)
    returns (data: seq<ChartEntry>)
    requires CalculatePayments(loanAmount, interestRate, years, period).Some?
    ensures data == ChartData(loanAmount, interestRate, years, period, chartScale)
  {
    var payment := CalculatePayments(loanAmount, interestRate, years, period).value;
    var totalPeriods := CalculateTotalPeriods(years, chartScale);
    var periodInterestRate := PeriodicRate(interestRate, period);
    data := AmortizationLoop(loanAmount, periodInterestRate, payment, totalPeriods);
  }

  /** Records are numbered 1..n in strictly ascending order. */
  lemma ChartPeriodsAscending(loanAmount: real, interestRate: real, years: nat, period: Period, chartScale: ChartScale)
    requires CalculatePayments(loanAmount, interestRate, years, period).Some?
    ensures var data := ChartData(loanAmount, interestRate, years, period, chartScale);
            (forall j :: 0 <= j < |data| ==> data[j].period == j + 1) &&
            (forall j, k :: 0 <= j < k < |data| ==> data[j].period < data[k].period)
  {
  }

  /** A record's two rounded portions add up to the payment within a cent. */
  lemma EntrySplitsPayment(loanAmount: real, rate: real, payment: real, i: nat)
    requires i >= 1
    ensures EntryAt(loanAmount, rate, payment, i).interest == Round2(InterestAt(loanAmount, rate, payment, i - 1))
    ensures -0.01 <= EntryAt(loanAmount, rate, payment, i).principal + EntryAt(loanAmount, rate, payment, i).interest - payment <= 0.01
  {
    var interest := InterestAt(loanAmount, rate, payment, i - 1);
    assert EntryAt(loanAmount, rate, payment, i) == ChartEntry(i, Round2(payment - interest), Round2(interest));
  }

  /**
   * Each record splits the payment: before rounding interest + principal is
   * the payment, so the two printed portions are within a cent of it.
   */
  lemma ChartEntrySplitsPayment(loanAmount: real, interestRate: real, years: nat, period: Period, chartScale: ChartScale, j: nat)
    requires CalculatePayments(loanAmount, interestRate, years, period).Some?
    requires j < CalculateTotalPeriods(years, chartScale)
    ensures var e := ChartData(loanAmount, interestRate, years, period, chartScale)[j];
            var p := CalculatePayments(loanAmount, interestRate, years, period).value;
            var r := PeriodicRate(interestRate, period);
            e.interest == Round2(InterestAt(loanAmount, r, p, j)) &&
            -0.01 <= e.principal + e.interest - p <= 0.01
  {
    var p := CalculatePayments(loanAmount, interestRate, years, period).value;
    var r := PeriodicRate(interestRate, period);
    var data := ChartData(loanAmount, interestRate, years, period, chartScale);
    assert data == Schedule(loanAmount, r, p, CalculateTotalPeriods(years, chartScale));
    assert data[j] == EntryAt(loanAmount, r, p, j + 1);
    EntrySplitsPayment(loanAmount, r, p, j + 1);
  }

  /**
   * The scale only decides how many records there are: two scales give
   * records of which the shorter list is a prefix of the longer one, and
   * the frequency never changes the count.
   */
  lemma ScaleChangesOnlyLength(loanAmount: real, interestRate: real, years: nat, period: Period,
                               scale1: ChartScale, scale2: ChartScale, period2: Period)
    requires CalculatePayments(loanAmount, interestRate, years, period).Some?
    requires CalculatePayments(loanAmount, interestRate, years, period2).Some?
    requires CalculateTotalPeriods(years, scale1) <= CalculateTotalPeriods(years, scale2)
    ensures var short := ChartData(loanAmount, interestRate, years, period, scale1);
            var long := ChartData(loanAmount, interestRate, years, period, scale2);
            short == long[..|short|]
    ensures |ChartData(loanAmount, interestRate, years, period2, scale1)|
            == |ChartData(loanAmount, interestRate, years, period, scale1)|
  {
    var short := ChartData(loanAmount, interestRate, years, period, scale1);
    var long := ChartData(loanAmount, interestRate, years, period, scale2);
    assert forall j :: 0 <= j < |short| ==> short[j] == long[j];
  }

  /** The balance the loop leaves behind after the last record. */
  function FinalBalance(loanAmount: real, interestRate: real, years: nat, period: Period, chartScale: ChartScale): real
    requires CalculatePayments(loanAmount, interestRate, years, period).Some?
  {
    RemainingBalance(loanAmount, PeriodicRate(interestRate, period),
                     CalculatePayments(loanAmount, interestRate, years, period).value,
                     CalculateTotalPeriods(years, chartScale))
  }

  /**
   * The frequency/scale coupling: the count comes from the scale, the rate
   * and payment from the frequency. The final balance is positive when the
   * scale is coarser than the frequency (the chart stops before payoff), 0
   * when the count is the number of repayments, and negative when the scale
   * is finer (the chart runs past payoff).
   */
  lemma FinalBalanceBySign(loanAmount: real, interestRate: real, years: nat, period: Period, chartScale: ChartScale)
    requires loanAmount > 0.0 && interestRate > 0.0 && years > 0
    ensures CalculatePayments(loanAmount, interestRate, years, period).Some?
    ensures var count := CalculateTotalPeriods(years, chartScale);
            var n := years * PeriodsPerYear(period);
            var b := FinalBalance(loanAmount, interestRate, years, period, chartScale);
            (count < n ==> b > 0.0) && (count == n ==> b == 0.0) && (count > n ==> b < 0.0)
  {
    var count := CalculateTotalPeriods(years, chartScale);
    var n := years * PeriodsPerYear(period);
    PaymentExceedsPrincipal(loanAmount, interestRate, years, period);
    var p := CalculatePayments(loanAmount, interestRate, years, period).value;
    var r := PeriodicRate(interestRate, period);
    if count < n {
      BalancePositiveBeforePayoff(loanAmount, interestRate, years, period, count);
    } else {
      PaymentPaysOff(loanAmount, interestRate, years, period);
      if count > n {
        BalanceNegativeAfter(loanAmount, r, p, n, count);
      }
    }
  }

  // ---------------------------------------------------------------------
  // validateInputs
  // ---------------------------------------------------------------------

  /** The loan amount, rate and term are within the accepted ranges. */
  predicate ValidateInputs(loanAmount: real, interestRate: real, years: int)
  {
    loanAmount >= MinLoanAmount &&
    loanAmount <= MaxLoanAmount &&
    interestRate >= 5.0 &&
    interestRate <= 7.0 &&
    years >= 5 &&
    years <= 30
  }

  /**
   * Valid inputs give a finite, positive payment and at most 1560 records
   * (30 years on the weekly scale).
   */
  lemma ValidInputsGivePayment(loanAmount: real, interestRate: real, years: nat, period: Period, chartScale: ChartScale)
    requires ValidateInputs(loanAmount, interestRate, years)
    ensures CalculatePayments(loanAmount, interestRate, years, period).Some?
    ensures CalculatePayments(loanAmount, interestRate, years, period).value > 0.0
    ensures CalculateTotalPeriods(years, chartScale) <= 1560
  {
    PaymentExceedsPrincipal(loanAmount, interestRate, years, period);
  }

  /** The boundary cases of the three ranges. */
  lemma ValidateInputsBoundaries()
    ensures ValidateInputs(50000.0, 5.0, 5) && ValidateInputs(95000.0, 7.0, 30)
    ensures !ValidateInputs(49999.0, 5.0, 5) && !ValidateInputs(95001.0, 5.0, 5)
    ensures !ValidateInputs(50000.0, 4.9, 5) && !ValidateInputs(50000.0, 7.1, 5)
    ensures !ValidateInputs(50000.0, 5.0, 4) && !ValidateInputs(50000.0, 5.0, 31)
  {
  }

  // ---------------------------------------------------------------------
  // numberWithCommas: value.toString().replace(/\B(?=(\d{3})+(?!\d))/g, ",")
  // ---------------------------------------------------------------------

  predicate IsDigit(c: char)
  {
    '0' <= c <= '9'
  }

  predicate IsDigits(s: string)
  {
    forall j :: 0 <= j < |s| ==> IsDigit(s[j])
  }

  /** The characters \w matches. */
  predicate IsWordChar(c: char)
  {
    IsDigit(c) || ('a' <= c <= 'z') || ('A' <= c <= 'Z') || c == '_'
  }

  /** \B at position p: word characters on both sides of p, or on neither. */
  predicate NotWordBoundary(s: string, p: nat)
    requires p <= |s|
  {
    (p > 0 && IsWordChar(s[p - 1])) == (p < |s| && IsWordChar(s[p]))
  }

  /** The number of consecutive digits starting at position p. */
  function DigitRun(s: string, p: nat): (d: nat)
    requires p <= |s|
    ensures p + d <= |s|
    decreases |s| - p
  {
    if p == |s| || !IsDigit(s[p]) then 0 else 1 + DigitRun(s, p + 1)
  }

  /**
   * The zero-width match of the pattern at position p: \B, then a lookahead
   * (\d{3})+ that can only be followed by a non-digit when it covers the
   * whole digit run, so the run is a positive multiple of 3.
   */
  predicate CommaAt(s: string, p: nat)
    requires p <= |s|
  {
    NotWordBoundary(s, p) && DigitRun(s, p) >= 3 && DigitRun(s, p) % 3 == 0
  }

  /** The global replacement applied to the first k characters of s. */
  function CommasUpTo(s: string, k: nat): string
    requires k <= |s|
  {
    if k == 0 then []
    else CommasUpTo(s, k - 1) + (if CommaAt(s, k - 1) then [','] else []) + [s[k - 1]]
  }

  /** The replace call: a ',' inserted at every position where the pattern matches. */
  function InsertCommas(s: string): string
  {
    CommasUpTo(s, |s|)
  }

  /** Decimal digit string of a non-negative integer, as Number.prototype.toString gives it. */
  function NatToString(n: nat): (s: string)
    ensures |s| >= 1 && IsDigits(s)
    ensures |s| > 1 ==> s[0] != '0'
  {
    if n < 10 then [(48 + n) as char]
    else NatToString(n / 10) + [(48 + n % 10) as char]
  }

  /** The value of a decimal digit string (0 for the empty string). */
  function DigitsValue(s: string): int
  {
    if s == [] then 0 else DigitsValue(s[..|s| - 1]) * 10 + (s[|s| - 1] as int - 48)
  }

  lemma {:induction false} NatToStringRoundTrip(n: nat)
    ensures DigitsValue(NatToString(n)) == n
  {
    if n >= 10 {
      NatToStringRoundTrip(n / 10);
      var s := NatToString(n);
      assert s[..|s| - 1] == NatToString(n / 10);
    }
  }

  function NumberWithCommas(value: nat): string
  {
    InsertCommas(NatToString(value))
  }

  /**
   * The pattern does not stop at a decimal point: \B holds between two
   * fraction digits, so a fraction of four or more digits gets a ',' too.
   */
  lemma FractionGetsComma()
    ensures InsertCommas("1.5678") == "1.5,678"
  {
    var s := "1.5678";
    assert DigitRun(s, 3) == 3;
    assert CommasUpTo(s, 1) == "1";
    assert CommasUpTo(s, 2) == "1.";
    assert CommasUpTo(s, 3) == "1.5";
    assert CommasUpTo(s, 4) == "1.5,6";
    assert CommasUpTo(s, 5) == "1.5,67";
  }

  /** The string with every ',' taken out. */
  function RemoveCommas(t: string): string
  {
    if t == [] then []
    else RemoveCommas(t[..|t| - 1]) + (if t[|t| - 1] == ',' then [] else [t[|t| - 1]])
  }

  lemma {:induction false} RemoveCommasAppend(a: string, b: string)
    ensures RemoveCommas(a + b) == RemoveCommas(a) + RemoveCommas(b)
    decreases |b|
  {
    if b == [] {
      assert a + b == a;
    } else {
      var b' := b[..|b| - 1];
      assert (a + b)[..|a + b| - 1] == a + b';
      RemoveCommasAppend(a, b');
    }
  }

  lemma {:induction false} RemoveCommasOfDigits(s: string)
    requires IsDigits(s)
    ensures RemoveCommas(s) == s
  {
    if s != [] {
      RemoveCommasOfDigits(s[..|s| - 1]);
    }
  }

  /** Everything the replacement inserts is a ',' and nothing else moves. */
  lemma {:induction false} CommasUpToRemoved(s: string, k: nat)
    requires k <= |s|
    ensures RemoveCommas(CommasUpTo(s, k)) == RemoveCommas(s[..k])
  {
    if k > 0 {
      CommasUpToRemoved(s, k - 1);
      var sep: string := if CommaAt(s, k - 1) then [','] else [];
      RemoveCommasAppend(CommasUpTo(s, k - 1) + sep, [s[k - 1]]);
      RemoveCommasAppend(CommasUpTo(s, k - 1), sep);
      assert s[..k] == s[..k - 1] + [s[k - 1]];
      RemoveCommasAppend(s[..k - 1], [s[k - 1]]);
      assert RemoveCommas(sep) == [] by {
        if sep != [] {
          assert sep[..0] == [];
        }
      }
    }
  }

  /** Splitting a string at every ','. */
  function SplitCommas(t: string): (groups: seq<string>)
    ensures |groups| >= 1
  {
    if t == [] then [[]]
    else
      var groups := SplitCommas(t[..|t| - 1]);
      if t[|t| - 1] == ',' then groups + [[]]
      else groups[..|groups| - 1] + [groups[|groups| - 1] + [t[|t| - 1]]]
  }

  lemma {:induction false} SplitWithoutComma(a: string, b: string)
    requires forall j :: 0 <= j < |b| ==> b[j] != ','
    ensures SplitCommas(a + b) == SplitCommas(a)[..|SplitCommas(a)| - 1] + [SplitCommas(a)[|SplitCommas(a)| - 1] + b]
    decreases |b|
  {
    if b == [] {
      assert a + b == a;
      var groupsA := SplitCommas(a);
      assert groupsA[|groupsA| - 1] + b == groupsA[|groupsA| - 1];
      assert groupsA == groupsA[..|groupsA| - 1] + [groupsA[|groupsA| - 1]];
    } else {
      var b' := b[..|b| - 1];
      var c := b[|b| - 1];
      assert (a + b)[..|a + b| - 1] == a + b';
      assert (a + b)[|a + b| - 1] == c;
      SplitWithoutComma(a, b');
      var groupsA := SplitCommas(a);
      var groups' := SplitCommas(a + b');
      assert groups' == groupsA[..|groupsA| - 1] + [groupsA[|groupsA| - 1] + b'];
      assert SplitCommas(a + b) == groups'[..|groups'| - 1] + [groups'[|groups'| - 1] + [c]];
      assert groups'[..|groups'| - 1] == groupsA[..|groupsA| - 1];
      assert groups'[|groups'| - 1] + [c] == groupsA[|groupsA| - 1] + b;
    }
  }

  lemma SplitAfterComma(a: string, b: string)
    requires forall j :: 0 <= j < |b| ==> b[j] != ','
    ensures SplitCommas(a + [','] + b) == SplitCommas(a) + [b]
  {
    var a' := a + [','];
    assert a'[..|a'| - 1] == a;
    assert a'[|a'| - 1] == ',';
    var groupsA := SplitCommas(a);
    assert SplitCommas(a') == groupsA + [[]];
    SplitWithoutComma(a', b);
    assert a' + b == a + [','] + b;
    assert [] + b == b;
  }

  lemma SplitOfPlain(b: string)
    requires forall j :: 0 <= j < |b| ==> b[j] != ','
    ensures SplitCommas(b) == [b]
  {
    SplitWithoutComma([], b);
    assert [] + b == b;
  }

  /** On a digit string the pattern matches exactly where a positive multiple of 3 digits follows. */
  lemma {:induction false} DigitRunOfDigits(s: string, p: nat)
    requires IsDigits(s) && p <= |s|
    ensures DigitRun(s, p) == |s| - p
    decreases |s| - p
  {
    if p < |s| {
      DigitRunOfDigits(s, p + 1);
    }
  }

  lemma CommaAtOfDigits(s: string, p: nat)
    requires IsDigits(s) && p <= |s|
    ensures CommaAt(s, p) <==> 0 < p < |s| && (|s| - p) % 3 == 0
  {
    DigitRunOfDigits(s, p);
  }

  /** Dropping the last three digits leaves the replacement of the leading part unchanged. */
  lemma {:induction false} CommasUpToOfPrefix(s: string, k: nat)
    requires IsDigits(s) && |s| > 3 && k <= |s| - 3
    ensures CommasUpTo(s, k) == CommasUpTo(s[..|s| - 3], k)
  {
    if k > 0 {
      CommasUpToOfPrefix(s, k - 1);
      var s' := s[..|s| - 3];
      CommaAtOfDigits(s, k - 1);
      CommaAtOfDigits(s', k - 1);
    }
  }

  /** A digit string of more than three digits gets its last group split off by a ','. */
  lemma InsertCommasStep(s: string)
    requires IsDigits(s) && |s| > 3
    ensures InsertCommas(s) == InsertCommas(s[..|s| - 3]) + [','] + s[|s| - 3..]
  {
    var n := |s|;
    CommaAtOfDigits(s, n - 3);
    CommaAtOfDigits(s, n - 2);
    CommaAtOfDigits(s, n - 1);
    CommasUpToOfPrefix(s, n - 3);
    var head := CommasUpTo(s, n - 3);
    assert CommasUpTo(s, n - 2) == head + [','] + [s[n - 3]];
    assert CommasUpTo(s, n - 1) == head + [','] + [s[n - 3]] + [s[n - 2]];
    assert CommasUpTo(s, n) == head + [','] + [s[n - 3]] + [s[n - 2]] + [s[n - 1]];
    assert s[n - 3..] == [s[n - 3], s[n - 2], s[n - 1]];
  }

  /** Three digits or fewer get no comma. */
  lemma InsertCommasShort(s: string)
    requires IsDigits(s) && |s| <= 3
    ensures InsertCommas(s) == s
  {
    forall p | 0 <= p <= |s|
      ensures !CommaAt(s, p)
    {
      CommaAtOfDigits(s, p);
    }
    if |s| >= 1 { assert CommasUpTo(s, 1) == s[..1]; }
    if |s| >= 2 { assert CommasUpTo(s, 2) == s[..2]; }
    if |s| == 3 { assert CommasUpTo(s, 3) == s[..3]; }
  }

  /**
   * The groups of a formatted digit string: the first has 1 to 3 digits,
   * every later one exactly 3, and all are digits.
   */
  lemma {:induction false} InsertCommasGroups(s: string)
    requires IsDigits(s) && |s| >= 1
    ensures var groups := SplitCommas(InsertCommas(s));
            1 <= |groups[0]| <= 3 &&
            (forall i :: 1 <= i < |groups| ==> |groups[i]| == 3) &&
            (forall i :: 0 <= i < |groups| ==> IsDigits(groups[i]))
    decreases |s|
  {
    if |s| <= 3 {
      InsertCommasShort(s);
      SplitOfPlain(s);
    } else {
      var s' := s[..|s| - 3];
      InsertCommasStep(s);
      InsertCommasGroups(s');
      SplitAfterComma(InsertCommas(s'), s[|s| - 3..]);
    }
  }

  /**
   * The formatted number: taking its commas out gives back the plain digit
   * string and hence the value; its groups are as in InsertCommasGroups.
   */
  lemma NumberWithCommasRoundTrip(value: nat)
    ensures RemoveCommas(NumberWithCommas(value)) == NatToString(value)
    ensures DigitsValue(RemoveCommas(NumberWithCommas(value))) == value
    ensures var groups := SplitCommas(NumberWithCommas(value));
            1 <= |groups[0]| <= 3 && forall i :: 1 <= i < |groups| ==> |groups[i]| == 3
  {
    var s := NatToString(value);
    CommasUpToRemoved(s, |s|);
    assert s[..|s|] == s;
    RemoveCommasOfDigits(s);
    NatToStringRoundTrip(value);
    InsertCommasGroups(s);
  }
}
