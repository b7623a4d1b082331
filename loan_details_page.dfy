/**
 * The loan details page (src/pages/LoanDetailsPage.jsx): the repayment
 * progress percentage, the amount-paid figure that shares its numerator,
 * the transaction status colour and the ten-row cap on recent
 * transactions. Numbers are exact reals; `None` stands for `NaN` (or an
 * infinite quotient).
 */
module LoanDetailsPage {
  import opened Wrappers
  import opened Text
  import opened Json

  /** `Math.round(x)`: the nearest integer, halves rounded up. */
  function Round(x: real): (n: int)
    ensures n as real <= x + 0.5 < n as real + 1.0
  {
    (x + 0.5).Floor
  }

  /** `loan.key` used in arithmetic: `undefined` is `NaN`, anything else goes through ToNumber. */
  function Arith(loan: Json, key: string): Option<real> {
    var v := Get(loan, key);
    if v.Some? then ToNumber(v.value) else None
  }

  /** `parseFloat((loanDetails.interestRate / 100) * loanDetails.amount)`. */
  function Interest(loan: Json): Option<real> {
    var rate := Arith(loan, "interestRate");
    var amount := Arith(loan, "amount");
    if rate.Some? && amount.Some? then Some(InterestOn(rate.value, amount.value)) else None
  }

  /** `(rate / 100) * amount`. */
  function InterestOn(rate: real, amount: real): real {
    rate / 100.0 * amount
  }

  /** The rounded percentage of `total` already repaid when `outstanding` is left. */
  function Percent(total: real, outstanding: real): int
    requires total != 0.0
  {
    Round((total - outstanding) / total * 100.0)
  }

  /** `getRepaymentProgress()`. */
  function RepaymentProgress(loanDetails: Option<Json>): (p: Option<int>)
    ensures loanDetails.None? ==> p == Some(0)
    ensures loanDetails.Some? && AmountOrZero(loanDetails, "amount") == Some(0.0) ==> p == Some(0)
  {
    if loanDetails.None? || !Truthy(loanDetails.value) then Some(0)
    else
      var principal := AmountOrZero(loanDetails, "amount");
      var interest := Interest(loanDetails.value);
      var outstanding := AmountOrZero(loanDetails, "outstandingBalance");
      if principal == Some(0.0) then Some(0)
      else if principal.Some? && interest.Some? && outstanding.Some? && principal.value + interest.value != 0.0 then
        Some(Percent(principal.value + interest.value, outstanding.value))
      else None
  }

  /** Nothing left is 100; nothing repaid is 0. */
  lemma PercentEnds(total: real)
    requires total != 0.0
    ensures Percent(total, 0.0) == 100
    ensures Percent(total, total) == 0
  {
  }

  /** With a positive total and an outstanding balance between 0 and the total, progress lies in [0, 100]. */
  lemma PercentBounds(total: real, outstanding: real)
    requires total > 0.0 && 0.0 <= outstanding <= total
    ensures 0 <= Percent(total, outstanding) <= 100
  {
    var x := (total - outstanding) / total;
    assert 0.0 <= x <= 1.0 by {
      assert total - outstanding <= total;
    }
  }

  /**
   * Progress is not clamped: an outstanding balance over the total gives at
   * most 0, and below 0 once it exceeds the total by more than half a percent.
   */
  lemma PercentUnclamped(total: real, outstanding: real)
    requires total > 0.0 && outstanding > total
    ensures Percent(total, outstanding) <= 0
    ensures outstanding > total + total / 200.0 ==> Percent(total, outstanding) < 0
  {
    var x := (total - outstanding) / total * 100.0;
    assert x < 0.0;
    if outstanding > total + total / 200.0 {
      assert (total - outstanding) / total < -1.0 / 200.0 by {
        assert total - outstanding < -(total / 200.0);
      }
      assert x < -0.5;
    }
  }

  /** More left to pay never means more progress. */
  lemma PercentMonotone(total: real, less: real, more: real)
    requires total > 0.0 && less <= more
    ensures Percent(total, more) <= Percent(total, less)
  {
    assert (total - more) / total <= (total - less) / total;
  }

  /**
   * The displayed Amount Paid:
   * `parseFloat(interest) + parseFloat(loanDetails.amount) - parseFloat(loanDetails.outstandingBalance)`.
   */
  function AmountPaid(loan: Json): (paid: Option<real>)
    ensures Get(loan, "amount").None? || Get(loan, "outstandingBalance").None? ==> paid.None?
    ensures paid.Some? ==> Interest(loan).Some?
  {
    var interest := Interest(loan);
    var amount := Get(loan, "amount");
    var outstanding := Get(loan, "outstandingBalance");
    var principal := if amount.Some? then ParseFloatOf(amount.value) else None;
    var left := if outstanding.Some? then ParseFloatOf(outstanding.value) else None;
    if interest.Some? && principal.Some? && left.Some? then
      Some(interest.value + principal.value - left.value)
    else None
  }

  /**
   * For a loan whose amount and balance are numbers, progress is the amount
   * paid as a rounded percentage of principal plus interest.
   */
  lemma ProgressIsAmountPaidShare(fields: map<string, Json>, amount: real, rate: real, outstanding: real)
    requires "amount" in fields && fields["amount"] == JNumber(amount) && amount != 0.0
    requires "interestRate" in fields && fields["interestRate"] == JNumber(rate)
    requires "outstandingBalance" in fields && fields["outstandingBalance"] == JNumber(outstanding)
    requires amount + InterestOn(rate, amount) != 0.0
    ensures var loan := JObject(fields);
      var total := amount + InterestOn(rate, amount);
      && AmountPaid(loan) == Some(total - outstanding)
      && RepaymentProgress(Some(loan)) == Some(Round(AmountPaid(loan).value / total * 100.0))
  {
    var loan := JObject(fields);
    assert Get(loan, "interestRate") == Some(JNumber(rate));
    assert Get(loan, "amount") == Some(JNumber(amount));
    assert Arith(loan, "interestRate") == Some(rate) && Arith(loan, "amount") == Some(amount);
    assert Interest(loan) == Some(InterestOn(rate, amount));
    assert AmountOrZero(Some(loan), "amount") == Some(amount);
    assert AmountOrZero(Some(loan), "outstandingBalance") == Some(outstanding);
  }

  const CompletedColor := "bg-green-100 text-green-800"
  const PendingColor := "bg-yellow-100 text-yellow-800"
  const FailedColor := "bg-red-100 text-red-800"
  const OtherColor := "bg-gray-100 text-gray-800"

  /** `getStatusColor` on the lower-cased status. */
  function StatusColor(status: Option<string>): (c: string)
    ensures c == CompletedColor <==> status.Some? && ToLower(status.value) == "completed"
    ensures c == PendingColor <==> status.Some? && ToLower(status.value) == "pending"
    ensures c == FailedColor <==> status.Some? && ToLower(status.value) == "failed"
    ensures status.None? ==> c == OtherColor
  {
    var k := if status.Some? then Some(ToLower(status.value)) else None;
    if k == Some("completed") then CompletedColor
    else if k == Some("pending") then PendingColor
    else if k == Some("failed") then FailedColor
    else OtherColor
  }

  /** The colour ignores letter case; grey is every status but completed, pending and failed. */
  lemma {:induction false} StatusColorRule(s: string)
    ensures StatusColor(Some(s)) == StatusColor(Some(ToLower(s)))
    ensures StatusColor(Some(s)) == OtherColor <==> ToLower(s) !in {"completed", "pending", "failed"}
    ensures StatusColor(None) == OtherColor
  {
    LowerIdempotent(s);
  }

  /** `transactions.slice(0, 10)`: the first ten transactions at most, in order. */
  function Recent<T>(transactions: seq<T>): (shown: seq<T>)
    ensures |shown| == if |transactions| < 10 then |transactions| else 10
    ensures forall i :: 0 <= i < |shown| ==> shown[i] == transactions[i]
  {
    if |transactions| < 10 then transactions else transactions[..10]
  }
}
