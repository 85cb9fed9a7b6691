/**
 * The App component of src/App.tsx: its state, its own copies of the
 * validator, payment formula, period count and schedule generator, the
 * Apply transition, and the loan-amount handlers of the form wired to its
 * setLoanAmount.
 */
module App {
  import opened Wrappers
  import opened Arithmetic
  import opened UtilFunctions
  import LoanInputForm

  /** The upper loan bound of App's own validator. */
  const AppMaxLoanAmount: real := 950000.0

  class LoanCalculator {
    var loanAmount: real
    var interestRate: real
    var years: nat
    var period: Period
    var chartScale: ChartScale
    var chartData: seq<ChartEntry>
    var isValid: bool

    /** The useState initial values. */
    constructor ()
      ensures loanAmount == 50000.0 && interestRate == 5.0 && years == 5
      ensures period == Monthly && chartScale == Year
      ensures chartData == [] && isValid
    {
      loanAmount := 50000.0;
      interestRate := 5.0;
      years := 5;
      period := Monthly;
      chartScale := Year;
      chartData := [];
      isValid := true;
    }

    /**
     * App's validateInputs: the utility ranges except that the loan may go
     * up to 950000.
     */
    function ValidateInputs(): (ok: bool)
      reads this`loanAmount, this`interestRate, this`years
      ensures UtilFunctions.ValidateInputs(loanAmount, interestRate, years) ==> ok
      ensures loanAmount <= MaxLoanAmount ==> (ok <==> UtilFunctions.ValidateInputs(loanAmount, interestRate, years))
      ensures ok ==> MinLoanAmount <= loanAmount <= AppMaxLoanAmount
      ensures MaxLoanAmount < loanAmount <= AppMaxLoanAmount ==>
                (ok <==> UtilFunctions.ValidateInputs(MaxLoanAmount, interestRate, years))
    {
      loanAmount >= 50000.0 &&
      loanAmount <= 950000.0 &&
      interestRate >= 5.0 &&
      interestRate <= 7.0 &&
      years >= 5 &&
      years <= 30
    }

    /** App's calculatePayments over the current state. */
    function CalculatePayments(): (payment: Option<real>)
      reads this`loanAmount, this`interestRate, this`years, this`period
      ensures payment == UtilFunctions.CalculatePayments(loanAmount, interestRate, years, period)
    {
      var totalPeriods := years * PeriodsPerYear(period);
      var periodicRate := (interestRate / 100.0) / PeriodsPerYear(period) as real;
      var growth := Pow(1.0 + periodicRate, totalPeriods);
      if growth - 1.0 == 0.0 then None
      else
        var payment := loanAmount * (periodicRate * growth) / (growth - 1.0);
        var expected := Annuity(loanAmount, periodicRate, totalPeriods).value;
        assert loanAmount * (periodicRate * growth) == loanAmount * periodicRate * growth;
        assert payment * (growth - 1.0) == loanAmount * periodicRate * growth;
        assert expected * (growth - 1.0) == loanAmount * periodicRate * growth;
        assert payment * (growth - 1.0) == expected * (growth - 1.0);
        CancelNonZero(payment, expected, growth - 1.0);
        Some(payment)
    }

    /** App's calculateTotalPeriods: no fortnight branch, so 'fortnight' falls through to 52 per year. */
    function CalculateTotalPeriods(): (n: nat)
      reads this`years, this`chartScale
      ensures chartScale != Fortnight ==> n == UtilFunctions.CalculateTotalPeriods(years, chartScale)
      ensures chartScale == Fortnight ==> n == 52 * years
    {
      if chartScale == Year then years
      else if chartScale == Month then years * 12
      else years * 52
    }

    /** The records App's generateChartData produces from the current state. */
    function ExpectedChartData(): (data: seq<ChartEntry>)
      reads this`loanAmount, this`interestRate, this`years, this`period, this`chartScale
      requires CalculatePayments().Some?
      ensures |data| == CalculateTotalPeriods()
    {
      Schedule(loanAmount, PeriodicRate(interestRate, period), CalculatePayments().value, CalculateTotalPeriods())
    }

    /** App's generateChartData: the same loop, counted by App's calculateTotalPeriods. */
    method GenerateChartData() returns (data: seq<ChartEntry>)
      requires CalculatePayments().Some?
      ensures data == ExpectedChartData()
    {
      var payment := CalculatePayments().value;
      var totalPeriods := CalculateTotalPeriods();
      var periodInterestRate := PeriodicRate(interestRate, period);
      data := AmortizationLoop(loanAmount, periodInterestRate, payment, totalPeriods);
    }

    /**
     * handleApply: valid inputs replace the chart data and set isValid;
     * otherwise only isValid is cleared.
     */
    method HandleApply()
      modifies this`chartData, this`isValid
      ensures old(ValidateInputs()) ==> isValid && CalculatePayments().Some? && chartData == ExpectedChartData()
      ensures !old(ValidateInputs()) ==> !isValid && chartData == old(chartData)
    {
      if ValidateInputs() {
        PaymentExceedsPrincipal(loanAmount, interestRate, years, period);
        chartData := GenerateChartData();
        isValid := true;
      } else {
        isValid := false;
      }
    }

    /** The mount-time effect: the initial state followed by handleApply. */
    static method Mount() returns (app: LoanCalculator)
      ensures fresh(app) && app.isValid
      ensures app.loanAmount == 50000.0 && app.interestRate == 5.0 && app.years == 5
      ensures app.period == Monthly && app.chartScale == Year
      ensures UtilFunctions.CalculatePayments(50000.0, 5.0, 5, Monthly).Some?
      ensures app.chartData == ChartData(50000.0, 5.0, 5, Monthly, Year)
      ensures |app.chartData| == 5
      ensures forall j :: 0 <= j < 5 ==> app.chartData[j].period == j + 1
      ensures FinalBalance(50000.0, 5.0, 5, Monthly, Year) > 0.0
    {
      app := new LoanCalculator();
      app.HandleApply();
      AppChartMatchesUtil(app);
      FinalBalanceBySign(50000.0, 5.0, 5, Monthly, Year);
    }

    method SetInterestRate(value: real)
      modifies this`interestRate
      ensures interestRate == value
    {
      interestRate := value;
    }

    method SetYears(value: nat)
      modifies this`years
      ensures years == value
    {
      years := value;
    }

    method SetPeriod(value: Period)
      modifies this`period
      ensures period == value
    {
      period := value;
    }

    method SetChartScale(value: ChartScale)
      modifies this`chartScale
      ensures chartScale == value
    {
      chartScale := value;
    }

    /** The form's handleLoanAmountChange, which calls setLoanAmount. */
    method OnLoanAmountChange(raw: string, toNumber: string -> real)
      modifies this`loanAmount
      ensures loanAmount == LoanInputForm.ChangeLoanAmount(raw, toNumber)
    {
      loanAmount := LoanInputForm.ChangeLoanAmount(raw, toNumber);
    }

    /**
     * The form's handleLoanAmountBlur: after it the field shows no error and
     * App's own loan bound holds too.
     */
    method OnLoanAmountBlur()
      modifies this`loanAmount
      ensures loanAmount == LoanInputForm.BlurLoanAmount(old(loanAmount))
      ensures !LoanInputForm.LoanAmountError(loanAmount)
      ensures MinLoanAmount <= loanAmount <= AppMaxLoanAmount
    {
      loanAmount := LoanInputForm.BlurLoanAmount(loanAmount);
    }
  }

  /** Off the fortnight scale, Apply draws exactly the utility generator's records. */
  lemma AppChartMatchesUtil(app: LoanCalculator)
    requires app.CalculatePayments().Some? && app.chartScale != Fortnight
    ensures app.ExpectedChartData() == ChartData(app.loanAmount, app.interestRate, app.years, app.period, app.chartScale)
  {
  }

  /**
   * On the fortnight scale App's count falls through to 52 a year: its chart
   * is the utility's weekly chart, twice as long as the fortnight one.
   */
  lemma AppFortnightIsWeekly(app: LoanCalculator)
    requires app.CalculatePayments().Some? && app.chartScale == Fortnight
    ensures app.ExpectedChartData() == ChartData(app.loanAmount, app.interestRate, app.years, app.period, Week)
    ensures |app.ExpectedChartData()| == 2 * |ChartData(app.loanAmount, app.interestRate, app.years, app.period, Fortnight)|
  {
  }

  /**
   * The two bounds disagree: App's validator accepts 500000, so Apply draws a
   * chart, while the utility validator rejects it, the form flags the amount
   * and the payment summary is hidden.
   */
  lemma BoundsDisagree(app: LoanCalculator)
    requires app.loanAmount == 500000.0 && app.interestRate == 5.0 && app.years == 5
    ensures app.ValidateInputs()
    ensures app.CalculatePayments().Some?
    ensures !UtilFunctions.ValidateInputs(app.loanAmount, app.interestRate, app.years)
    ensures !LoanInputForm.ShowPaymentSummary(app.loanAmount, app.interestRate, app.years)
    ensures LoanInputForm.LoanAmountError(app.loanAmount)
  {
    PaymentExceedsPrincipal(app.loanAmount, app.interestRate, app.years, app.period);
  }
}
