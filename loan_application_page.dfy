/**
 * The customer's loan application form (src/pages/LoanApplicationPage.jsx):
 * amount, loan type, term and free-text notes. The submit handler validates,
 * needs a stored token, posts the parsed amount and term with the chosen
 * type, and clears the form on success.
 */
module LoanApplicationPage {
  import opened Wrappers
  import opened Text
  import opened Numbers
  import opened FormRules
  import opened Storage
  import opened Http

  const Fields: set<string> := {"loanAmount", "loanType", "loanTerm", "notes"}

  /** The form as first rendered, and as reset after a successful submission. */
  const EmptyForm: map<string, string> := map["loanAmount" := "", "loanType" := "", "loanTerm" := "", "notes" := ""]

  predicate HasFields(form: map<string, string>) {
    Fields <= form.Keys
  }

  /** The amount rule: present, numeric (`isNaN`), and `parseFloat` above zero. */
  function AmountMessage(amount: string): (m: Option<string>)
    ensures m == Some("Loan amount is required") <==> AllSpace(amount)
    ensures m.None? ==> NumberOf(amount).Some? && ParseFloat(amount) == NumberOf(amount) && NumberOf(amount).value > 0.0
  {
    if Trim(amount) == "" then Some("Loan amount is required")
    else if NumberOf(amount).None? then Some("Please enter a valid loan amount")
    else
      ParseFloatAgrees(amount);
      if AtMostZero(ParseFloat(amount)) then Some("Please enter a valid loan amount") else None
  }

  /** An amount passes exactly when it is a non-blank decimal literal whose value is positive. */
  lemma {:induction false} AmountRule(amount: string)
    ensures AmountMessage(amount).None? <==>
      !AllSpace(amount) && NumberOf(amount).Some? && NumberOf(amount).value > 0.0
    ensures AmountMessage(amount).None? ==> ParseFloat(amount) == NumberOf(amount)
  {
    if Trim(amount) != "" && NumberOf(amount).Some? {
      ParseFloatAgrees(amount);
    }
  }

  /**
   * The term rule as the source writes it: present, numeric, and
   * `parseInt(term) <= 0` rejected. A `NaN` from `parseInt` is not `<= 0`,
   * so a numeric term without whole digits passes.
   */
  function TermMessageAsWritten(term: string): (m: Option<string>)
    ensures m == Some("Loan term is required") <==> AllSpace(term)
    ensures m.None? ==> NumberOf(term).Some? && (ParseInt(term).None? || ParseInt(term).value >= 1)
  {
    if Trim(term) == "" then Some("Loan term is required")
    else if NumberOf(term).None? || (ParseInt(term).Some? && ParseInt(term).value <= 0) then
      Some("Please enter a valid loan term")
    else None
  }

  /** ".5" passes the written rule, yet `parseInt` gives `NaN`, sent as `tenureMonth: null`. */
  lemma TermAsWrittenAcceptsNaN()
    ensures TermMessageAsWritten(".5").None?
    ensures ParseInt(".5").None?
  {
    assert TrimStart(".5") == ".5";
    assert TrimEnd(".5") == ".5";
    assert DigitRun(".5") == [];
    assert DigitRun("5") == "5";
    var l := Scan(".5");
    assert l == Literal(false, "", "5", "");
    assert Digits("5") == 5;
    assert NumberOf(".5") == Some(0.5);
  }

  /** The term rule with the evident intent: the term must parse to a whole number of months above zero. */
  function TermMessage(term: string): (m: Option<string>)
    ensures m == Some("Loan term is required") <==> AllSpace(term)
    ensures m.None? ==> NumberOf(term).Some? && ParseInt(term).Some? && ParseInt(term).value >= 1
  {
    if Trim(term) == "" then Some("Loan term is required")
    else if NumberOf(term).None? || ParseInt(term).None? || ParseInt(term).value <= 0 then
      Some("Please enter a valid loan term")
    else None
  }

  /**
   * A term passes exactly when it is a non-blank decimal literal whose
   * integer part is at least 1; what is sent is then that integer part.
   */
  lemma {:induction false} TermRule(term: string)
    ensures TermMessage(term).None? <==>
      && !AllSpace(term) && NumberOf(term).Some?
      && var n := WholePart(Scan(Trim(term))); n.Some? && n.value >= 1
    ensures TermMessage(term).None? ==> ParseInt(term).Some? && ParseInt(term).value >= 1
  {
    if Trim(term) != "" && NumberOf(term).Some? {
      ParseIntAgrees(term);
    }
  }

  /**
   * The two term rules differ on exactly the terms that are numeric but have
   * no whole digits (".5", "-.5"): the written rule lets them through, the
   * corrected one reports them.
   */
  lemma {:induction false} TermRulesDiffer(term: string)
    ensures TermMessageAsWritten(term) != TermMessage(term) <==>
      !AllSpace(term) && NumberOf(term).Some? && ParseInt(term).None?
    ensures TermMessageAsWritten(term) != TermMessage(term) ==>
      TermMessageAsWritten(term).None? && TermMessage(term) == Some("Please enter a valid loan term")
  {
    TrimBlank(term);
  }

  /** What the written rule lets through is sent as a `tenureMonth` of at least 1, or as `null` (`NaN`). */
  lemma AsWrittenTermSent(term: string)
    requires TermMessageAsWritten(term).None?
    ensures ParseInt(term).None? || ParseInt(term).value >= 1
    ensures ParseInt(term).None? ==> TermMessage(term).Some?
  {
    TrimBlank(term);
  }

  /** `"0.5"` is turned away: its integer part is 0. */
  lemma TermRejectsHalf()
    ensures TermMessage("0.5").Some?
  {
    assert TrimStart("0.5") == "0.5" && TrimEnd("0.5") == "0.5";
    assert DigitRun("0.5") == "0" && DigitRun("5") == "5";
    assert Scan("0.5") == Literal(false, "0", "5", "");
    assert Digits("0") == 0;
  }

  /** `"1.9"` passes and is taken as one month. */
  lemma TermTakesWholePart()
    ensures TermMessage("1.9").None? && ParseInt("1.9") == Some(1)
  {
    assert TrimStart("1.9") == "1.9" && TrimEnd("1.9") == "1.9";
    assert DigitRun("1.9") == "1" && DigitRun("9") == "9";
    assert Scan("1.9") == Literal(false, "1", "9", "");
    assert Digits("1") == 1 && Digits("9") == 9;
  }

  /** The checked fields, in `validateForm`'s order. */
  const CheckOrder: seq<string> := ["loanAmount", "loanType", "loanTerm"]

  /** `validateForm`'s checks, in its order; `notes` is not checked. */
  function Checks(form: map<string, string>): (checks: seq<Check>)
    requires HasFields(form)
    ensures |checks| == |CheckOrder|
    ensures forall i :: 0 <= i < |checks| ==> checks[i].field == CheckOrder[i]
  {
    var amount := AmountMessage(form["loanAmount"]);
    var loanType := if form["loanType"] == "" then Some("Loan type is required") else None;
    var term := TermMessage(form["loanTerm"]);
    [Check(CheckOrder[0], amount), Check(CheckOrder[1], loanType), Check(CheckOrder[2], term)]
  }

  function Errors(form: map<string, string>): map<string, string>
    requires HasFields(form)
  {
    Record(Checks(form))
  }

  lemma ChecksDistinct(form: map<string, string>)
    requires HasFields(form)
    ensures DistinctFields(Checks(form))
  {
    assert CheckOrder[1][5] != CheckOrder[2][5];
  }

  /** What the form is meant to accept. */
  ghost predicate Acceptable(form: map<string, string>)
    requires HasFields(form)
  {
    && AmountMessage(form["loanAmount"]).None?
    && form["loanType"] != ""
    && TermMessage(form["loanTerm"]).None?
  }

  /** The dictionary is empty exactly when the three checked fields pass. */
  lemma NoErrorsIffAcceptable(form: map<string, string>)
    requires HasFields(form)
    ensures Errors(form) == map[] <==> Acceptable(form)
  {
    RecordEmptyThree(Checks(form));
  }

  /** `notes` never gets a message. */
  lemma ErrorsOnCheckedFields(form: map<string, string>)
    requires HasFields(form)
    ensures Errors(form).Keys <= Fields - {"notes"}
  {
    var c := Checks(form);
    RecordKeysAmong(c, Fields - {"notes"});
  }

  /** An empty loan type gets its message. */
  lemma LoanTypeRequired(form: map<string, string>)
    requires HasFields(form) && form["loanType"] == ""
    ensures "loanType" in Errors(form) && Errors(form)["loanType"] == "Loan type is required"
  {
    ChecksDistinct(form);
    RecordLookup(Checks(form), 1);
  }

  /** Blank amounts and terms get "required" ahead of the numeric checks. */
  lemma RequiredComesFirst(form: map<string, string>)
    requires HasFields(form)
    ensures AllSpace(form["loanAmount"]) ==>
      "loanAmount" in Errors(form) && Errors(form)["loanAmount"] == "Loan amount is required"
    ensures AllSpace(form["loanTerm"]) ==>
      "loanTerm" in Errors(form) && Errors(form)["loanTerm"] == "Loan term is required"
  {
    ChecksDistinct(form);
    RecordLookup(Checks(form), 0);
    RecordLookup(Checks(form), 2);
  }

  /** `validateForm()`. */
  method ValidateForm(form: map<string, string>) returns (errors: map<string, string>)
    requires HasFields(form)
    ensures errors == Errors(form)
  {
    errors := map[];
    var amount := form["loanAmount"];
    if Trim(amount) == "" {
      errors := errors["loanAmount" := "Loan amount is required"];
    } else if NumberOf(amount).None? || AtMostZero(ParseFloat(amount)) {
      errors := errors["loanAmount" := "Please enter a valid loan amount"];
    }
    if form["loanType"] == "" {
      errors := errors["loanType" := "Loan type is required"];
    }
    var term := form["loanTerm"];
    if Trim(term) == "" {
      errors := errors["loanTerm" := "Loan term is required"];
    } else if NumberOf(term).None? || ParseInt(term).None? || ParseInt(term).value <= 0 {
      errors := errors["loanTerm" := "Please enter a valid loan term"];
    }
    var c := Checks(form);
    assert c[..0] == [];
    RecordStep(c, 1);
    RecordStep(c, 2);
    RecordStep(c, 3);
    assert c[..3] == c;
  }

  /** The JSON body; `None` is `NaN`, which `JSON.stringify` writes as `null`. */
  datatype LoanBody = LoanBody(amount: Option<real>, loanTypeId: string, tenureMonth: Option<int>)

  /** The request: its body and its `Authorization` header. */
  datatype Submission = Submission(body: LoanBody, authorization: string)

  function BodyOf(form: map<string, string>): LoanBody
    requires HasFields(form)
  {
    LoanBody(ParseFloat(form["loanAmount"]), form["loanType"], ParseInt(form["loanTerm"]))
  }

  /** A form that passes sends a positive amount equal to its numeric value and a whole term of at least one month. */
  lemma AcceptedBody(form: map<string, string>)
    requires HasFields(form) && Errors(form) == map[]
    ensures BodyOf(form).amount == NumberOf(form["loanAmount"])
    ensures BodyOf(form).amount.Some? && BodyOf(form).amount.value > 0.0
    ensures BodyOf(form).tenureMonth.Some? && BodyOf(form).tenureMonth.value >= 1
    ensures BodyOf(form).loanTypeId == form["loanType"] != ""
  {
    NoErrorsIffAcceptable(form);
    AmountRule(form["loanAmount"]);
    TermRule(form["loanTerm"]);
  }

  /** `notes` is neither checked nor sent. */
  lemma NotesIgnored(form: map<string, string>, notes: string)
    requires HasFields(form)
    ensures Errors(form["notes" := notes]) == Errors(form)
    ensures BodyOf(form["notes" := notes]) == BodyOf(form)
  {
    var f := form["notes" := notes];
    assert f["loanAmount"] == form["loanAmount"] && f["loanType"] == form["loanType"];
    assert f["loanTerm"] == form["loanTerm"];
    assert Checks(f) == Checks(form);
  }

  const MissingToken := "Authentication token not found. Please log in again."
  const SubmitFailed := "Failed to submit loan application"
  const SubmitCrashed := "An error occurred while submitting the application."

  /** The component's state: `formData`, `errors` and `loading`. */
  class Page {
    var form: map<string, string>
    var errors: map<string, string>
    var loading: bool

    ghost predicate Valid()
      reads this
    {
      HasFields(form)
    }

    constructor ()
      ensures Valid()
      ensures form == EmptyForm && errors == map[] && !loading
    {
      form := EmptyForm;
      errors := map[];
      loading := false;
    }

    /** `handleChange`: the named field takes the value; only that field's error is blanked. */
    method HandleChange(name: string, value: string)
      requires Valid()
      modifies this
      ensures Valid()
      ensures form == SetField(old(form), name, value)
      ensures errors == ClearError(old(errors), name)
      ensures loading == old(loading)
    {
      form := form[name := value];
      if name in errors && errors[name] != "" {
        errors := errors[name := ""];
      }
    }

    /**
     * The part of `handleSubmit` after validation passed. Without a truthy
     * stored token only the `submit` message is set; otherwise the request
     * is sent, a successful answer resets all four fields and a failure sets
     * the `submit` message. Earlier messages stay, and storage is only read.
     */
    method Submit(store: LocalStorage, reply: Reply) returns (sent: Option<Submission>)
      requires Valid()
      modifies this
      ensures Valid()
      ensures sent.Some? <==> TruthyToken(store.GetItem(TokenKey)).Some?
      ensures sent.None? ==> errors == old(errors)["submit" := MissingToken] && form == old(form) && !loading
      ensures sent.Some? ==>
        sent.value == Submission(BodyOf(old(form)), "Bearer " + store.GetItem(TokenKey).value) && !loading
      ensures sent.Some? && Succeeded(reply) ==> errors == old(errors) && form == EmptyForm
      ensures sent.Some? && !Succeeded(reply) ==>
        errors == old(errors)["submit" := SubmitError(reply, SubmitFailed, SubmitCrashed)] && form == old(form)
    {
      loading := true;
      var token := store.GetItem(TokenKey);
      if token.None? || token.value == "" {
        errors := errors["submit" := MissingToken];
        loading := false;
        return None;
      }
      sent := Some(Submission(BodyOf(form), "Bearer " + token.value));
      match reply {
        case Threw(reason) =>
          errors := errors["submit" := OrElse(reason, SubmitCrashed)];
        case Answered(ok, message, _) =>
          if !ok {
            errors := errors["submit" := OrElse(OrElse(message, SubmitFailed), SubmitCrashed)];
          } else {
            form := EmptyForm;
          }
      }
      loading := false;
    }

    /**
     * `handleSubmit`: returns the request it sends, if any. Nothing is sent
     * while there are errors; otherwise the form is submitted.
     */
    method HandleSubmit(store: LocalStorage, reply: Reply) returns (sent: Option<Submission>)
      requires Valid()
      modifies this
      ensures Valid()
      ensures sent.Some? <==> Errors(old(form)) == map[] && TruthyToken(store.GetItem(TokenKey)).Some?
      ensures Errors(old(form)) != map[] ==>
        errors == Errors(old(form)) && form == old(form) && loading == old(loading)
      ensures Errors(old(form)) == map[] && sent.None? ==>
        errors == old(errors)["submit" := MissingToken] && form == old(form) && !loading
      ensures sent.Some? ==>
        sent.value == Submission(BodyOf(old(form)), "Bearer " + store.GetItem(TokenKey).value) && !loading
      ensures sent.Some? && Succeeded(reply) ==> errors == old(errors) && form == EmptyForm
      ensures sent.Some? && !Succeeded(reply) ==>
        errors == old(errors)["submit" := SubmitError(reply, SubmitFailed, SubmitCrashed)] && form == old(form)
    {
      var newErrors := ValidateForm(form);
      if |newErrors| > 0 {
        errors := newErrors;
        return None;
      }
      sent := Submit(store, reply);
    }
  }
}
