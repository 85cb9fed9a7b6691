# Loan calculator: amortization core in Dafny

This project models the computational core of a React loan calculator. A
borrower picks:

- a loan amount;
- an annual interest rate;
- a term in years;
- a repayment frequency (weekly, fortnightly or monthly);
- a chart time scale (week, fortnight, month or year).

The calculator then shows the level repayment given by the annuity formula
PMT = P·r(1+r)^n / ((1+r)^n − 1), the total interest, and a bar chart of
the principal and interest portions of each repayment.

The model covers three source files:

- `src/utils/UtilFunctions.ts`: the validator, the periods-per-year table,
  the payment formula, the chart-length function, the schedule loop and
  the thousands separator (module `UtilFunctions`).
- `src/App.tsx`: the component's own copies of these functions, its state,
  and the Apply transition (module `App`, class `LoanCalculator`).
- `src/components/LoanInputForm/LoanInputForm.tsx`: the loan-amount
  handlers, the error and helper text, the visibility of the payment
  summary, and the total-interest figure (module `LoanInputForm`). The
  handlers that call `setLoanAmount` are methods of `LoanCalculator`.

Arithmetic is exact, over `real`:

- `Math.pow` with a whole exponent is `Arithmetic.Pow`.
- `Number(x.toFixed(2))` is `Arithmetic.Round2`, which rounds half away
  from zero to whole cents.
- The payment is an `Option<real>`. `None` stands for the NaN or Infinity
  that JavaScript produces when (1+r)^n − 1 is 0. For a non-negative rate
  this happens exactly when the rate or the term is 0.

The schedule loop is a `while` loop (`UtilFunctions.AmortizationLoop`). Its
invariants tie the running balance and the pushed records to the recursive
specifications `RemainingBalance` and `Schedule`. The amortization facts are
proved about those specifications:

- the closed form of the balance;
- payoff to exactly 0 after n repayments;
- a positive balance before payoff;
- a negative balance after payoff.

The schedule's length comes from the chart scale, while its rate and payment
come from the repayment frequency. `FinalBalanceBySign` states the outcome of
that coupling: the final balance is positive, zero or negative as the record
count is below, equal to or above the number of repayments.

The two validators disagree on the upper loan bound:

- the utility module has `maxLoanAmount = 95000`;
- App accepts up to 950000, which is also what both doc comments say.

The model keeps each bound as written. `App.BoundsDisagree` shows an amount
that App charts while the form flags it and hides the summary. That state
arises only if Apply runs with no blur of the amount field in between; in a
browser, clicking Apply usually blurs the field first, and the blur clamps
the amount to 95000. The model does not order events.

## Model

| member | source | states |
|---|---|---|
| Arithmetic.Pow | src/utils/UtilFunctions.ts:31 | Math.pow with a whole exponent: x multiplied by itself n times; its growth is stated by PowIncreasing |
| Arithmetic.PowIncreasing | src/utils/UtilFunctions.ts:31 | for a base above 1, Math.pow grows strictly with the exponent and is at least 1 |
| Arithmetic.Cents | src/utils/UtilFunctions.ts:88-89 | toFixed(2)'s cent count is within half a cent of 100·x, keeps the sign, and on a tie takes the cent farther from zero |
| Arithmetic.Round2 | src/utils/UtilFunctions.ts:88-89 | Number(x.toFixed(2)) is within 0.005 of x, is a whole number of cents, and keeps a non-negative x non-negative |
| Arithmetic.Round2OfCents | src/utils/UtilFunctions.ts:88-89 | a value that is already whole cents is returned unchanged |
| Arithmetic.Round2Idempotent | src/utils/UtilFunctions.ts:88-89 | rounding twice is rounding once |
| UtilFunctions.PeriodsPerYear | src/utils/UtilFunctions.ts:20-24 | the periodsPerYear table: weekly 52, fortnightly 26, monthly 12; its agreement with the form's inline table is SummaryTableMatchesPaymentTable |
| UtilFunctions.PeriodicRate | src/utils/UtilFunctions.ts:28 | the periodic rate times periodsPerYear times 100 gives back the annual percentage; it is positive for a positive rate and 0 for a zero rate |
| UtilFunctions.Annuity | src/utils/UtilFunctions.ts:31 | the formula is non-finite exactly when (1+r)^n is 1; otherwise payment·((1+r)^n − 1) = P·r·(1+r)^n |
| UtilFunctions.CalculatePayments | src/utils/UtilFunctions.ts:18-34 | a zero rate or a zero term gives a non-finite payment; a finite one satisfies the annuity equation at the frequency's rate over years·ppy payments |
| UtilFunctions.PaymentDefinedIff | src/utils/UtilFunctions.ts:27-31 | for a rate >= 0, the payment is finite iff the rate and the term are both positive |
| UtilFunctions.AnnuityExceedsPrincipal | src/utils/UtilFunctions.ts:31 | for P > 0, r > 0 and n >= 1, the formula is finite, positive, and its n payments exceed P |
| UtilFunctions.PaymentExceedsPrincipal | src/utils/UtilFunctions.ts:18-34 | for a positive loan, rate and term, calculatePayments is finite and positive, and payment·n exceeds the loan |
| UtilFunctions.RemainingBalance | src/utils/UtilFunctions.ts:81-83 | remainingBalance after k turns of the loop; its behaviour is stated by BalanceAtZeroRate, BalanceClosedForm and the payoff lemmas |
| UtilFunctions.BalanceAtZeroRate | src/utils/UtilFunctions.ts:81-83 | at a zero rate no interest accrues, so after k turns the balance is the loan less k payments |
| UtilFunctions.BalanceClosedForm | src/utils/UtilFunctions.ts:81-83 | after k turns of the loop recurrence, balance·r = P·r·(1+r)^k − payment·((1+r)^k − 1) |
| UtilFunctions.AnnuityPaysOff | src/utils/UtilFunctions.ts:79-84 | at a non-zero rate, the annuity payment leaves a balance of exactly 0 after n turns |
| UtilFunctions.PaymentPaysOff | src/utils/UtilFunctions.ts:27-31 | the documented formula drives the loop's balance to 0 after years·ppy[period] turns |
| UtilFunctions.AnnuityBalancePositive | src/utils/UtilFunctions.ts:81-83 | for a positive loan and rate, the balance is still positive after every k < n turns |
| UtilFunctions.BalancePositiveBeforePayoff | src/utils/UtilFunctions.ts:79-84 | the same, for the payment calculatePayments returns |
| UtilFunctions.BalanceNegativeAfter | src/utils/UtilFunctions.ts:81-83 | once the balance is <= 0, every later turn makes it strictly negative |
| UtilFunctions.CalculateTotalPeriods | src/utils/UtilFunctions.ts:43-48 | year gives years, month 12·years, fortnight 26·years, week 52·years |
| UtilFunctions.TotalPeriodsOfMatchingScale | src/utils/UtilFunctions.ts:43-48 | on the scale that matches the frequency, the record count equals the number of repayments |
| UtilFunctions.InterestAt | src/utils/UtilFunctions.ts:81 | periodInterest of turn k+1 is the balance after k turns times r; the member is that product (and 0 at a zero rate), and EntrySplitsPayment and BalanceClosedForm carry the facts about it |
| UtilFunctions.EntryAt | src/utils/UtilFunctions.ts:86-90 | the record pushed at turn i has period i, and each rounded portion is within half a cent of its exact value |
| UtilFunctions.Schedule | src/utils/UtilFunctions.ts:79-91 | the records of count turns: exactly count of them, the j-th being turn j+1 of the recurrence |
| UtilFunctions.ChartData | src/utils/UtilFunctions.ts:61-94 | generateChartData's result has calculateTotalPeriods(years, chartScale) records |
| UtilFunctions.AmortizationLoop | src/utils/UtilFunctions.ts:79-91 | the for loop returns the Schedule of its inputs; the invariants keep the balance equal to RemainingBalance |
| UtilFunctions.GenerateChartData | src/utils/UtilFunctions.ts:61-94 | for a finite payment, returns ChartData: the schedule at the frequency's rate, with as many records as the scale asks |
| UtilFunctions.ChartPeriodsAscending | src/utils/UtilFunctions.ts:86-87 | records are numbered 1..n, strictly ascending |
| UtilFunctions.EntrySplitsPayment | src/utils/UtilFunctions.ts:81-89 | one pushed record: its interest is the balance after i − 1 turns times r, rounded to cents, and its two rounded portions add up to the payment within one cent |
| UtilFunctions.ChartEntrySplitsPayment | src/utils/UtilFunctions.ts:81-89 | each record's rounded principal and interest add up to the payment within one cent, and the interest is the balance after j turns times r, rounded to cents |
| UtilFunctions.ScaleChangesOnlyLength | src/utils/UtilFunctions.ts:63-76 | a shorter scale gives a prefix of a longer one, and the record count does not depend on the frequency |
| UtilFunctions.FinalBalanceBySign | src/utils/UtilFunctions.ts:75-84 | the final balance is > 0, = 0 or < 0 as the scale's count is below, equal to or above years·ppy[period] |
| UtilFunctions.ValidateInputs | src/utils/UtilFunctions.ts:104-111 | the conjunction minLoanAmount (50000) <= loan <= maxLoanAmount (95000), 5 <= rate <= 7, 5 <= years <= 30; its consequences are ValidInputsGivePayment and ValidateInputsBoundaries |
| UtilFunctions.ValidInputsGivePayment | src/utils/UtilFunctions.ts:104-111 | accepted inputs give a finite, positive payment and at most 1560 records |
| UtilFunctions.ValidateInputsBoundaries | src/utils/UtilFunctions.ts:104-111 | the ranges are inclusive at 50000/95000, 5/7 and 5/30 and exclude values just outside |
| UtilFunctions.NatToString | src/utils/UtilFunctions.ts:113 | toString of a whole number is a non-empty digit string without a leading zero |
| UtilFunctions.NatToStringRoundTrip | src/utils/UtilFunctions.ts:113 | the digit string's value is the number |
| UtilFunctions.CommaAtOfDigits | src/utils/UtilFunctions.ts:113 | in a digit string, the pattern matches at p iff p is interior and a multiple of 3 digits remains |
| UtilFunctions.InsertCommasShort | src/utils/UtilFunctions.ts:113 | three digits or fewer are left unchanged |
| UtilFunctions.InsertCommasStep | src/utils/UtilFunctions.ts:113 | a longer digit string is its formatted head, then ',', then its last three digits |
| UtilFunctions.InsertCommasGroups | src/utils/UtilFunctions.ts:113 | the first group has 1 to 3 digits, every later group exactly 3 |
| UtilFunctions.CommaAt | src/utils/UtilFunctions.ts:113 | a zero-width match of the pattern at p: \B there, and the digit run from p is a positive multiple of 3 long; on digit strings, CommaAtOfDigits |
| UtilFunctions.InsertCommas | src/utils/UtilFunctions.ts:113 | the global replace: a ',' before every position where CommaAt holds; its shape is stated by InsertCommasShort, InsertCommasStep and InsertCommasGroups |
| UtilFunctions.NumberWithCommas | src/utils/UtilFunctions.ts:113 | numberWithCommas of a whole number; its round trip and groups are NumberWithCommasRoundTrip |
| UtilFunctions.NumberWithCommasRoundTrip | src/utils/UtilFunctions.ts:113 | removing the commas gives back the digit string and the value; the groups are as above |
| UtilFunctions.FractionGetsComma | src/utils/UtilFunctions.ts:113 | the pattern also splits fraction digits: "1.5678" becomes "1.5,678" |
| LoanInputForm.BlurLoanAmount | src/components/LoanInputForm/LoanInputForm.tsx:51 | the blur clamp lands in [minLoanAmount, maxLoanAmount], is the identity inside it, and gives the nearer bound outside |
| LoanInputForm.BlurIdempotent | src/components/LoanInputForm/LoanInputForm.tsx:51 | clamping twice is clamping once |
| LoanInputForm.LoanAmountError | src/components/LoanInputForm/LoanInputForm.tsx:75 | the field's error flag: the amount is below minLoanAmount or above maxLoanAmount; ErrorIffBlurChanges relates it to the clamp |
| LoanInputForm.ErrorIffBlurChanges | src/components/LoanInputForm/LoanInputForm.tsx:75 | the field is flagged iff the blur clamp would change the amount |
| LoanInputForm.LoanAmountHelperText | src/components/LoanInputForm/LoanInputForm.tsx:76 | a flagged field reads "Enter an amount between $50,000 and $95,000"; otherwise the text is empty |
| LoanInputForm.FiftyThousandText | src/components/LoanInputForm/LoanInputForm.tsx:76 | numberWithCommas(50000) is "50,000" |
| LoanInputForm.NinetyFiveThousandText | src/components/LoanInputForm/LoanInputForm.tsx:76 | numberWithCommas(95000) is "95,000" |
| LoanInputForm.StripLeadingZeros | src/components/LoanInputForm/LoanInputForm.tsx:42 | the result is a suffix of the input, everything removed is '0', and the result does not start with '0' |
| LoanInputForm.ChangeLoanAmount | src/components/LoanInputForm/LoanInputForm.tsx:40-45 | an input made only of zeros (or empty) gives 0 |
| LoanInputForm.ChangeOfZeros | src/components/LoanInputForm/LoanInputForm.tsx:42-43 | "000" is stripped to the empty string and gives 0 |
| LoanInputForm.ChangeOfLeadingZeros | src/components/LoanInputForm/LoanInputForm.tsx:42-43 | "007" is stripped to "7" and gives Number("7") |
| LoanInputForm.DigitsValueOfStripped | src/components/LoanInputForm/LoanInputForm.tsx:42 | stripping leading zeros from a digit string keeps its digits and its value |
| LoanInputForm.ChangeOfDigits | src/components/LoanInputForm/LoanInputForm.tsx:42-43 | for a digit string, the handler yields the string's decimal value |
| LoanInputForm.ShowPaymentSummary | src/components/LoanInputForm/LoanInputForm.tsx:132 | the summary is visible (opacity 1) when the utility validator accepts, and a visible summary never sits beside a flagged amount |
| LoanInputForm.ShownSummaryHasPayment | src/components/LoanInputForm/LoanInputForm.tsx:132 | whenever the summary is visible (the utility validator accepts), the payment is finite and positive |
| LoanInputForm.SummaryTableMatchesPaymentTable | src/components/LoanInputForm/LoanInputForm.tsx:138 | the inline 52/26/12 choice equals the payment's periods-per-year table |
| LoanInputForm.SummaryPeriodsPerYear | src/components/LoanInputForm/LoanInputForm.tsx:138 | the inline weekly 52 / fortnightly 26 / otherwise 12 choice; SummaryTableMatchesPaymentTable ties it to the payment's table |
| LoanInputForm.TotalInterest | src/components/LoanInputForm/LoanInputForm.tsx:138 | the displayed total interest is whole cents and within half a cent of payment·(years·ppy) − loanAmount |
| LoanInputForm.InterestPaidTelescopes | src/components/LoanInputForm/LoanInputForm.tsx:138 | the interest of k turns is k payments less the principal repaid |
| LoanInputForm.TotalInterestIsScheduleInterest | src/components/LoanInputForm/LoanInputForm.tsx:138 | before rounding, payment·(years·ppy) − loan is the sum of the schedule's interest portions over n turns |
| LoanInputForm.TotalInterestPositive | src/components/LoanInputForm/LoanInputForm.tsx:138 | for a positive loan, rate and term, that interest is positive and the displayed figure is not negative |
| App.LoanCalculator.constructor | src/App.tsx:55-61 | the initial state is 50000, 5, 5, monthly, year, [], true |
| App.LoanCalculator.ValidateInputs | src/App.tsx:69-76 | true iff 50000 <= loan <= 950000, 5 <= rate <= 7 and 5 <= years <= 30: it agrees with the utility validator up to 95000, above that up to 950000 it decides on the rate and term alone, and it never accepts a loan outside [50000, 950000] |
| App.LoanCalculator.CalculatePayments | src/App.tsx:100-112 | App's copy of the formula equals the utility calculatePayments on the current state |
| App.LoanCalculator.CalculateTotalPeriods | src/App.tsx:118-122 | agrees with the utility function except on the fortnight scale, which gives 52·years |
| App.LoanCalculator.ExpectedChartData | src/App.tsx:128-154 | the schedule App draws has as many records as App's calculateTotalPeriods |
| App.LoanCalculator.GenerateChartData | src/App.tsx:128-154 | App's copy of the loop has the same text as the utility one, so the model runs UtilFunctions.AmortizationLoop; it returns the schedule at the frequency's rate, counted by App's calculateTotalPeriods |
| App.LoanCalculator.HandleApply | src/App.tsx:82-89 | valid inputs: isValid becomes true and chartData becomes the generated records; invalid inputs: isValid false, chartData unchanged; nothing else changes |
| App.LoanCalculator.Mount | src/App.tsx:92-94 | the mount-time Apply keeps the initial inputs (50000, 5%, 5 years, monthly, yearly scale), sets isValid, and its chartData is exactly the utility ChartData of those inputs: 5 records numbered 1 to 5, whose final balance is still positive because the five yearly records are the first five monthly repayments |
| App.LoanCalculator.SetInterestRate | src/components/LoanInputForm/LoanInputForm.tsx:96 | the slider sets the rate and nothing else |
| App.LoanCalculator.SetYears | src/components/LoanInputForm/LoanInputForm.tsx:109 | the slider sets the term and nothing else |
| App.LoanCalculator.SetPeriod | src/components/LoanInputForm/LoanInputForm.tsx:123 | the select sets the frequency and nothing else |
| App.LoanCalculator.SetChartScale | src/components/PaymentBreakdown/PaymentBreakdown.tsx:76 | the select sets the scale and nothing else |
| App.LoanCalculator.OnLoanAmountChange | src/components/LoanInputForm/LoanInputForm.tsx:40-45 | the amount becomes the change handler's value; nothing else changes |
| App.LoanCalculator.OnLoanAmountBlur | src/components/LoanInputForm/LoanInputForm.tsx:47-60 | the amount becomes the clamped value, which is not flagged and is within App's bound |
| App.AppChartMatchesUtil | src/App.tsx:128-154 | off the fortnight scale, App's chart is exactly the utility generateChartData result |
| App.AppFortnightIsWeekly | src/App.tsx:118-122 | on the fortnight scale (offered by the selector at PaymentBreakdown.tsx:79), App's chart is the utility's weekly chart, twice as long as the fortnight one |
| App.BoundsDisagree | src/App.tsx:70-71 | a state with 500000, 5% and 5 years passes App's validator and has a finite payment, so Apply draws a chart, while the utility validator rejects it, the form flags it and the summary is hidden |

## Left out

- Rendering: the JSX trees, the MUI widgets and the Chart.js configuration. They are presentation only.
- The Excel export and its `new Date()` file name, in `PaymentBreakdown.tsx`. These are a foreign library call and the wall clock.
- `src/theme/theme.ts` and `CustomButton.tsx`. They hold only style tables.
- React `useState` and `useEffect` scheduling. State is plain fields updated by methods. A setter takes effect immediately, and a render in between is not modelled.
- Arithmetic.Round2: rounds the exact real value half away from zero. It does not reproduce the binary floating-point representation that `toFixed` actually rounds.
- Arithmetic.Pow: exact. IEEE-754 rounding, overflow to Infinity and underflow are not modelled.
- UtilFunctions.GenerateChartData: requires a finite payment. At a zero rate the payment is NaN (0/0), and the source still pushes its records: the first has interest 0 and principal NaN, and every later one is NaN throughout. Those records are not modelled. At a zero term the payment is Infinity, but the count is 0 and nothing is pushed; the model excludes that case too.
- App.LoanCalculator.GenerateChartData: requires a finite payment, for the same reason. `HandleApply` only calls it when the inputs are valid, and then the payment is always finite.
- UtilFunctions.NumberWithCommas: takes a whole number and turns it into its plain digit string. Exponent notation for values of 1e21 and above is not modelled.
- Formatting of fractional or negative numbers by `numberWithCommas` is not modelled. This affects the loan amount and the total interest in the summary lines (`LoanInputForm.tsx:137-138`). The regex itself is modelled over any string (`InsertCommas`), and `FractionGetsComma` shows its behaviour on a fraction.
- `payment.toFixed(2)` and the capitalised frequency label of the summary heading (`LoanInputForm.tsx:134`). These are display strings.
- `Number(...)` string parsing in the change handler. It is a parameter, `toNumber`.
- App.LoanCalculator.SetYears: the term is a whole number, as the slider with step 1 produces.
- The interest-rate slider bounds `minInterest` and `maxInterest`. The form imports them, but `UtilFunctions.ts` does not export them, so they do not constrain any value here.
