/**
 * The repayment form of one loan (src/pages/RepayLoanPage.jsx): a payment
 * method and an amount, checked in turn against the loaded loan's
 * outstanding balance; the first failing check is the one error shown.
 * Amounts are `parseFloat` readings, `None` standing for `NaN`.
 */
module RepayLoanPage {
  import opened Wrappers
  import opened Text
  import opened Numbers
  import opened Json
  import opened FormRules
  import opened Storage
  import opened Http

  const Fields: set<string> := {"paymentMethod", "paymentAmount"}

  /** The form as first rendered, and as reset after a payment goes through. */
  const EmptyForm: map<string, string> := map["paymentMethod" := "", "paymentAmount" := ""]

  predicate HasFields(form: map<string, string>) {
    Fields <= form.Keys
  }

  const SelectMethod := "Please select a payment method"
  const InvalidAmount := "Please enter a valid payment amount"
  const ExceedsBalance := "Payment amount cannot exceed outstanding balance"
  const PaymentFailed := "Failed to process payment"

  /** `parseFloat(loanDetails?.outstandingBalance || 0)`. */
  function OutstandingOf(loanDetails: Option<Json>): Option<real> {
    AmountOrZero(loanDetails, "outstandingBalance")
  }

  /** The guard chain of `handleSubmitPayment`: the first failing check's message, if any. */
  function PaymentError(form: map<string, string>, outstanding: Option<real>): (e: Option<string>)
    requires HasFields(form)
    ensures e == Some(SelectMethod) <==> form["paymentMethod"] == ""
    ensures e.None? ==> form["paymentAmount"] != "" && !AtMostZero(ParseFloat(form["paymentAmount"]))
    ensures e == Some(ExceedsBalance) ==>
      && ParseFloat(form["paymentAmount"]).Some? && outstanding.Some?
      && ParseFloat(form["paymentAmount"]).value > outstanding.value
    ensures e.None? || e == Some(SelectMethod) || e == Some(InvalidAmount) || e == Some(ExceedsBalance)
  {
    var amount := ParseFloat(form["paymentAmount"]);
    if form["paymentMethod"] == "" then Some(SelectMethod)
    else if form["paymentAmount"] == "" || AtMostZero(amount) then Some(InvalidAmount)
    else if Exceeds(amount, outstanding) then Some(ExceedsBalance)
    else None
  }

  /**
   * For an amount and a balance that both read as numbers, the payment goes
   * ahead exactly when a method is chosen and 0 < amount <= balance; the
   * method check comes first, then the amount's sign, then the balance.
   */
  lemma PaymentRule(form: map<string, string>, outstanding: Option<real>)
    requires HasFields(form)
    requires ParseFloat(form["paymentAmount"]).Some? && outstanding.Some?
    ensures var a := ParseFloat(form["paymentAmount"]).value;
      PaymentError(form, outstanding).None? <==>
        form["paymentMethod"] != "" && 0.0 < a <= outstanding.value
    ensures form["paymentMethod"] == "" ==> PaymentError(form, outstanding) == Some(SelectMethod)
    ensures var a := ParseFloat(form["paymentAmount"]).value;
      form["paymentMethod"] != "" && a <= 0.0 ==> PaymentError(form, outstanding) == Some(InvalidAmount)
    ensures var a := ParseFloat(form["paymentAmount"]).value;
      form["paymentMethod"] != "" && 0.0 < a && a > outstanding.value ==> PaymentError(form, outstanding) == Some(ExceedsBalance)
  {
  }

  /** An empty amount is reported once a method is chosen, whatever the balance. */
  lemma EmptyAmountRejected(form: map<string, string>, outstanding: Option<real>)
    requires HasFields(form) && form["paymentMethod"] != "" && form["paymentAmount"] == ""
    ensures PaymentError(form, outstanding) == Some(InvalidAmount)
  {
  }

  /**
   * An amount `parseFloat` cannot read is neither `<= 0` nor `> balance`, so
   * with a method chosen it passes every check (the amount input is of type
   * number, which keeps such text out).
   */
  lemma UnreadableAmountPasses(form: map<string, string>, outstanding: Option<real>)
    requires HasFields(form) && form["paymentMethod"] != "" && form["paymentAmount"] != ""
    requires ParseFloat(form["paymentAmount"]).None?
    ensures PaymentError(form, outstanding).None?
  {
  }

  /** The JSON body of the repayment request; `paymentMethod` is not part of it. */
  datatype RepayBody = RepayBody(loanId: string, amount: Option<real>)

  /** The request: its body and its `Authorization` header. */
  datatype Repayment = Repayment(body: RepayBody, authorization: string)

  function BodyOf(loanId: string, form: map<string, string>): RepayBody
    requires HasFields(form)
  {
    RepayBody(loanId, ParseFloat(form["paymentAmount"]))
  }

  /** The body carries the route's loan id and the amount and nothing of the method. */
  lemma BodyIgnoresMethod(loanId: string, f: map<string, string>, g: map<string, string>)
    requires HasFields(f) && HasFields(g)
    ensures BodyOf(loanId, f) == BodyOf(loanId, g) <==>
      ParseFloat(f["paymentAmount"]) == ParseFloat(g["paymentAmount"])
    ensures BodyOf(loanId, f).loanId == loanId
  {
  }

  /** The message `setError(err.message)` shows after a failed request. */
  function PaymentFailure(reply: Reply): (m: string)
    requires !Succeeded(reply)
    ensures reply.Answered? ==> m != "" && (reply.message != "" ==> m == reply.message)
    ensures reply.Answered? && reply.message == "" ==> m == PaymentFailed
    ensures reply.Threw? ==> m == reply.reason
  {
    match reply
    case Answered(_, message, _) => OrElse(message, PaymentFailed)
    case Threw(reason) => reason
  }

  /** The component's state: `formData`, `error`, `submitting`, `success` and the loaded `loanDetails`. */
  class Page {
    var form: map<string, string>
    var error: Option<string>
    var submitting: bool
    var success: bool
    var loanDetails: Option<Json>

    ghost predicate Valid()
      reads this
    {
      HasFields(form)
    }

    /** The initial state: both fields empty, no error, no loan loaded yet. */
    constructor ()
      ensures Valid()
      ensures form == EmptyForm && error.None? && !submitting && !success && loanDetails.None?
    {
      form := EmptyForm;
      error := None;
      submitting := false;
      success := false;
      loanDetails := None;
    }

    /**
     * `setLoanDetails(data.loan || data)` once the loan has been fetched. On a
     * `null` body, `data.loan` throws a `TypeError`, which the `catch` shows
     * with `setError(err.message)`; the loan shown is then left as it was.
     */
    method ShowLoan(data: Json)
      modifies this
      ensures data == JNull ==> error == Some(NullReadError("loan")) && loanDetails == old(loanDetails)
      ensures data != JNull && Present(Get(data, "loan")) ==> loanDetails == Get(data, "loan")
      ensures data != JNull && !Present(Get(data, "loan")) ==> loanDetails == Some(data)
      ensures data != JNull ==> error == old(error)
      ensures form == old(form) && submitting == old(submitting) && success == old(success)
    {
      if data == JNull {
        error := Some(NullReadError("loan"));
        return;
      }
      var loan := Get(data, "loan");
      if Present(loan) {
        loanDetails := loan;
      } else {
        loanDetails := Some(data);
      }
    }

    /** `handleInputChange`: the named field takes the value and the error is cleared. */
    method HandleInputChange(name: string, value: string)
      requires Valid()
      modifies this
      ensures Valid()
      ensures form == SetField(old(form), name, value)
      ensures error.None?
      ensures submitting == old(submitting) && success == old(success) && loanDetails == old(loanDetails)
    {
      form := form[name := value];
      error := None;
    }

    /**
     * `handleSubmitPayment(loanId)`: returns the request it sends, if any.
     * A failing check sets its message and sends nothing; otherwise the
     * request goes out, a success sets `success` and empties both fields,
     * and a failure sets the failure message. Storage is only read.
     */
    method HandleSubmitPayment(loanId: string, store: LocalStorage, reply: Reply) returns (sent: Option<Repayment>)
      requires Valid()
      modifies this
      ensures Valid() && loanDetails == old(loanDetails)
      ensures sent.Some? <==> PaymentError(old(form), OutstandingOf(old(loanDetails))).None?
      ensures sent.None? ==>
        && error == PaymentError(old(form), OutstandingOf(old(loanDetails)))
        && form == old(form) && submitting == old(submitting) && success == old(success)
      ensures sent.Some? ==>
        sent.value == Repayment(BodyOf(loanId, old(form)), Bearer(store.GetItem(TokenKey))) && !submitting
      ensures sent.Some? && Succeeded(reply) ==> success && form == EmptyForm && error == old(error)
      ensures sent.Some? && !Succeeded(reply) ==>
        error == Some(PaymentFailure(reply)) && form == old(form) && success == old(success)
    {
      var problem := PaymentError(form, OutstandingOf(loanDetails));
      if problem.Some? {
        error := problem;
        return None;
      }
      submitting := true;
      var token := store.GetItem(TokenKey);
      sent := Some(Repayment(BodyOf(loanId, form), Bearer(token)));
      match reply {
        case Threw(reason) =>
          error := Some(reason);
        case Answered(ok, message, _) =>
          if !ok {
            error := Some(OrElse(message, PaymentFailed));
          } else {
            success := true;
            form := EmptyForm;
          }
      }
      submitting := false;
    }
  }
}
