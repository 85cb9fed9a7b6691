/**
 * The value logic of src/components/LoanInputForm/LoanInputForm.tsx: the
 * loan-amount change and blur handlers, the error flag, the visibility of
 * the payment summary and the total-interest line.
 */
module LoanInputForm {
  import opened Arithmetic
  import opened UtilFunctions

  /** handleLoanAmountBlur: the amount pulled into [minLoanAmount, maxLoanAmount]. */
  function BlurLoanAmount(loanAmount: real): (r: real)
    ensures MinLoanAmount <= r <= MaxLoanAmount
    ensures MinLoanAmount <= loanAmount <= MaxLoanAmount ==> r == loanAmount
    ensures loanAmount < MinLoanAmount ==> r == MinLoanAmount
    ensures loanAmount > MaxLoanAmount ==> r == MaxLoanAmount
  {
    if loanAmount < MinLoanAmount then MinLoanAmount
    else if loanAmount > MaxLoanAmount then MaxLoanAmount
    else loanAmount
  }

  lemma BlurIdempotent(loanAmount: real)
    ensures BlurLoanAmount(BlurLoanAmount(loanAmount)) == BlurLoanAmount(loanAmount)
  {
  }

  /** The `error` flag of the amount field. */
  predicate LoanAmountError(loanAmount: real)
  {
    loanAmount < MinLoanAmount || loanAmount > MaxLoanAmount
  }

  /** The field is flagged exactly when leaving it would change the amount. */
  lemma ErrorIffBlurChanges(loanAmount: real)
    ensures LoanAmountError(loanAmount) <==> BlurLoanAmount(loanAmount) != loanAmount
  {
  }

  /** The helperText of the amount field: the accepted range while the field is flagged. */
  function LoanAmountHelperText(loanAmount: real): (text: string)
    ensures LoanAmountError(loanAmount) ==> text == "Enter an amount between $50,000 and $95,000"
    ensures !LoanAmountError(loanAmount) ==> text == ""
  {
    FiftyThousandText();
    NinetyFiveThousandText();
    if LoanAmountError(loanAmount)
    then "Enter an amount between $" + NumberWithCommas(MinLoanAmount.Floor as nat) + " and $" + NumberWithCommas(MaxLoanAmount.Floor as nat)
    else ""
  }

  lemma FiftyThousandText()
    ensures NumberWithCommas(50000) == "50,000"
  {
    assert NatToString(5) == "5";
    assert NatToString(50) == "50";
    assert NatToString(500) == "500";
    assert NatToString(5000) == "5000";
    assert NatToString(50000) == "50000";
    InsertCommasStep("50000");
    assert "50000"[..2] == "50";
    InsertCommasShort("50");
  }

  lemma NinetyFiveThousandText()
    ensures NumberWithCommas(95000) == "95,000"
  {
    assert NatToString(9) == "9";
    assert NatToString(95) == "95";
    assert NatToString(950) == "950";
    assert NatToString(9500) == "9500";
    assert NatToString(95000) == "95000";
    InsertCommasStep("95000");
    assert "95000"[..2] == "95";
    InsertCommasShort("95");
  }

  /** e.target.value.replace(/^0+/, ''): every leading '0' removed. */
  function StripLeadingZeros(s: string): (r: string)
    ensures |r| <= |s| && r == s[|s| - |r|..]
    ensures forall j :: 0 <= j < |s| - |r| ==> s[j] == '0'
    ensures r == [] || r[0] != '0'
  {
    if s != [] && s[0] == '0' then StripLeadingZeros(s[1..]) else s
  }

  /**
   * handleLoanAmountChange: an empty remainder becomes 0, anything else is
   * converted by `toNumber` (JavaScript's Number()).
   */
  function ChangeLoanAmount(raw: string, toNumber: string -> real): (amount: real)
    ensures (forall j :: 0 <= j < |raw| ==> raw[j] == '0') ==> amount == 0.0
  {
    var cleanValue := StripLeadingZeros(raw);
    if cleanValue == [] then 0.0 else toNumber(cleanValue)
  }

  /** An input of zeros only leaves nothing after the strip and gives 0. */
  lemma ChangeOfZeros(toNumber: string -> real)
    ensures ChangeLoanAmount("000", toNumber) == 0.0
  {
    assert StripLeadingZeros("000") == "" by {
      assert "000"[1..] == "00" && "00"[1..] == "0" && "0"[1..] == "";
    }
  }

  /** Leading zeros are dropped before the conversion. */
  lemma ChangeOfLeadingZeros(toNumber: string -> real)
    ensures ChangeLoanAmount("007", toNumber) == toNumber("7")
  {
    assert StripLeadingZeros("007") == "7" by {
      assert "007"[1..] == "07" && "07"[1..] == "7";
      assert "7"[0] != '0';
    }
  }

  lemma {:induction false} DigitsValueOfZeroPrefix(s: string)
    requires IsDigits(s)
    ensures DigitsValue(['0'] + s) == DigitsValue(s)
  {
    if s != [] {
      var t := ['0'] + s;
      assert t[..|t| - 1] == ['0'] + s[..|s| - 1];
      DigitsValueOfZeroPrefix(s[..|s| - 1]);
    }
  }

  lemma {:induction false} DigitsValueOfStripped(s: string)
    requires IsDigits(s)
    ensures IsDigits(StripLeadingZeros(s))
    ensures DigitsValue(StripLeadingZeros(s)) == DigitsValue(s)
  {
    if s != [] && s[0] == '0' {
      DigitsValueOfStripped(s[1..]);
      assert s == ['0'] + s[1..];
      DigitsValueOfZeroPrefix(s[1..]);
    }
  }

  /**
   * For a decimal digit string the change handler gives the value of the
   * digits: stripping the zeros never changes the number.
   */
  lemma ChangeOfDigits(raw: string)
    requires IsDigits(raw)
    ensures ChangeLoanAmount(raw, s => DigitsValue(s) as real) == DigitsValue(raw) as real
  {
    DigitsValueOfStripped(raw);
  }

  /** The payment summary is shown (opacity 1) when the utility validator accepts. */
  function ShowPaymentSummary(loanAmount: real, interestRate: real, years: int): (shown: bool)
    ensures shown ==> !LoanAmountError(loanAmount)
  {
    ValidateInputs(loanAmount, interestRate, years)
  }

  /** A shown summary always has a finite, positive payment behind it. */
  lemma ShownSummaryHasPayment(loanAmount: real, interestRate: real, years: nat, period: Period)
    requires ShowPaymentSummary(loanAmount, interestRate, years)
    ensures CalculatePayments(loanAmount, interestRate, years, period).Some?
    ensures CalculatePayments(loanAmount, interestRate, years, period).value > 0.0
  {
    ValidInputsGivePayment(loanAmount, interestRate, years, period, Year);
  }

  /** The inline `weekly ? 52 : fortnightly ? 26 : 12` of the total-interest line. */
  function SummaryPeriodsPerYear(period: Period): nat
  {
    if period == Weekly then 52 else if period == Fortnightly then 26 else 12
  }

  lemma SummaryTableMatchesPaymentTable(period: Period)
    ensures SummaryPeriodsPerYear(period) == PeriodsPerYear(period)
  {
  }

  /** parseFloat((payment * (years * ppy) - loanAmount).toFixed(2)). */
  function TotalInterest(payment: real, years: nat, period: Period, loanAmount: real): (shown: real)
    ensures -0.005 <= shown - (payment * (years * SummaryPeriodsPerYear(period)) as real - loanAmount) <= 0.005
    ensures (shown * 100.0).Floor as real == shown * 100.0
  {
    Round2(payment * (years * SummaryPeriodsPerYear(period)) as real - loanAmount)
  }

  /** Sum of the exact interest of the first k turns of the schedule. */
  function InterestPaid(loanAmount: real, rate: real, payment: real, k: nat): real
  {
    if k == 0 then 0.0
    else InterestPaid(loanAmount, rate, payment, k - 1) + RemainingBalance(loanAmount, rate, payment, k - 1) * rate
  }

  /** Interest paid over k turns is k payments less the principal repaid. */
  lemma {:induction false} InterestPaidTelescopes(loanAmount: real, rate: real, payment: real, k: nat)
    ensures InterestPaid(loanAmount, rate, payment, k)
            == k as real * payment - (loanAmount - RemainingBalance(loanAmount, rate, payment, k))
  {
    if k > 0 {
      InterestPaidTelescopes(loanAmount, rate, payment, k - 1);
    }
  }

  /**
   * Before rounding, the displayed total interest is the total of the
   * interest portions of the n-payment schedule.
   */
  lemma TotalInterestIsScheduleInterest(loanAmount: real, interestRate: real, years: nat, period: Period)
    requires CalculatePayments(loanAmount, interestRate, years, period).Some?
    ensures var p := CalculatePayments(loanAmount, interestRate, years, period).value;
            p * (years * SummaryPeriodsPerYear(period)) as real - loanAmount
            == InterestPaid(loanAmount, PeriodicRate(interestRate, period), p, years * PeriodsPerYear(period))
  {
    var p := CalculatePayments(loanAmount, interestRate, years, period).value;
    var n := years * PeriodsPerYear(period);
    var r := PeriodicRate(interestRate, period);
    SummaryTableMatchesPaymentTable(period);
    PaymentPaysOff(loanAmount, interestRate, years, period);
    InterestPaidTelescopes(loanAmount, r, p, n);
  }

  /** For a positive loan, rate and term the interest is positive, so the shown figure is not negative. */
  lemma TotalInterestPositive(loanAmount: real, interestRate: real, years: nat, period: Period)
    requires loanAmount > 0.0 && interestRate > 0.0 && years > 0
    ensures CalculatePayments(loanAmount, interestRate, years, period).Some?
    ensures var p := CalculatePayments(loanAmount, interestRate, years, period).value;
            p * (years * SummaryPeriodsPerYear(period)) as real - loanAmount > 0.0 &&
            TotalInterest(p, years, period, loanAmount) >= 0.0
  {
    SummaryTableMatchesPaymentTable(period);
    PaymentExceedsPrincipal(loanAmount, interestRate, years, period);
  }
}
