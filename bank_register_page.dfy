/**
 * The bank registration form (src/pages/BankRegisterPage.jsx): seven text
 * fields, a validator that fills an error dictionary field by field, a
 * change handler, and a submit handler that sends nothing while there are
 * errors and otherwise posts the renamed fields.
 */
module BankRegisterPage {
  import opened Wrappers
  import opened Text
  import opened FormRules
  import opened Storage
  import opened Http

  const Fields: set<string> :=
    {"bankName", "licenseNumber", "head_office_address", "contactEmail", "contactPhone", "password", "confirmPassword"}

  /** The form as first rendered: every field empty. */
  const EmptyForm: map<string, string> := map k | k in Fields :: ""

  predicate HasFields(form: map<string, string>) {
    Fields <= form.Keys
  }

  /** The phone rule: present, then at least ten digits. */
  function PhoneMessage(phone: string): (m: Option<string>)
    ensures m.None? <==> !AllSpace(phone) && PhoneDigitsOk(phone)
  {
    if Trim(phone) == "" then Some("Phone number is required")
    else if !PhoneDigitsOk(phone) then Some("Please enter a valid phone number")
    else None
  }

  /** The confirmation rule: present, then equal to the password. */
  function ConfirmMessage(password: string, confirm: string): (m: Option<string>)
    ensures m.None? <==> confirm != "" && confirm == password
  {
    if confirm == "" then Some("Please confirm your password")
    else if password != confirm then Some("Passwords do not match")
    else None
  }

  /** The checked fields, in `validateForm`'s order. */
  const CheckOrder: seq<string> :=
    ["bankName", "licenseNumber", "contactEmail", "contactPhone", "head_office_address", "password", "confirmPassword"]

  /** `validateForm`'s checks, in its order. */
  function Checks(form: map<string, string>): (checks: seq<Check>)
    requires HasFields(form)
    ensures |checks| == |CheckOrder|
    ensures forall i :: 0 <= i < |checks| ==> checks[i].field == CheckOrder[i]
  {
    [ Check("bankName", RequiredMessage(form["bankName"], "Bank name is required")),
      Check("licenseNumber", RequiredMessage(form["licenseNumber"], "License number is required")),
      Check("contactEmail", EmailMessage(form["contactEmail"])),
      Check("contactPhone", PhoneMessage(form["contactPhone"])),
      Check("head_office_address", RequiredMessage(form["head_office_address"], "Head office address is required")),
      Check("password", PasswordMessage(form["password"])),
      Check("confirmPassword", ConfirmMessage(form["password"], form["confirmPassword"])) ]
  }

  lemma CheckOrderDistinct()
    ensures forall i, j :: 0 <= i < j < |CheckOrder| ==> CheckOrder[i] != CheckOrder[j]
  {
    assert CheckOrder[0][0] != CheckOrder[5][0];
    assert CheckOrder[2][7] != CheckOrder[3][7];
  }

  lemma ChecksDistinct(form: map<string, string>)
    requires HasFields(form)
    ensures DistinctFields(Checks(form))
  {
    CheckOrderDistinct();
  }

  /** The error dictionary `validateForm` returns. */
  function Errors(form: map<string, string>): map<string, string>
    requires HasFields(form)
  {
    Record(Checks(form))
  }

  /** What the form is meant to accept, field by field. */
  ghost predicate Acceptable(form: map<string, string>)
    requires HasFields(form)
  {
    && !AllSpace(form["bankName"])
    && !AllSpace(form["licenseNumber"])
    && !AllSpace(form["head_office_address"])
    && !AllSpace(form["contactEmail"]) && EmailRegex(form["contactEmail"])
    && !AllSpace(form["contactPhone"]) && PhoneDigitsOk(form["contactPhone"])
    && |form["password"]| >= 6
    && form["confirmPassword"] == form["password"]
  }

  /** Every check passes exactly when the form is acceptable. */
  lemma ChecksPassIffAcceptable(form: map<string, string>)
    requires HasFields(form)
    ensures (forall i :: 0 <= i < |Checks(form)| ==> Checks(form)[i].message.None?) <==> Acceptable(form)
  {
    AllPassSeven(Checks(form));
  }

  /** The dictionary is empty exactly when every field passes. */
  lemma NoErrorsIffAcceptable(form: map<string, string>)
    requires HasFields(form)
    ensures Errors(form) == map[] <==> Acceptable(form)
  {
    RecordEmpty(Checks(form));
    ChecksPassIffAcceptable(form);
  }

  /** Only the form's fields ever get a message. */
  lemma ErrorsOnFields(form: map<string, string>)
    requires HasFields(form)
    ensures Errors(form).Keys <= Fields
  {
    var c := Checks(form);
    assert forall i :: 0 <= i < |c| ==> c[i].field in Fields;
    RecordKeysAmong(c, Fields);
  }

  /** Blank required fields get their "required" message, ahead of any format check. */
  lemma RequiredComesFirst(form: map<string, string>)
    requires HasFields(form)
    ensures AllSpace(form["bankName"]) ==> "bankName" in Errors(form) && Errors(form)["bankName"] == "Bank name is required"
    ensures AllSpace(form["licenseNumber"]) ==> "licenseNumber" in Errors(form) && Errors(form)["licenseNumber"] == "License number is required"
    ensures AllSpace(form["contactEmail"]) ==> "contactEmail" in Errors(form) && Errors(form)["contactEmail"] == "Email is required"
    ensures AllSpace(form["contactPhone"]) ==> "contactPhone" in Errors(form) && Errors(form)["contactPhone"] == "Phone number is required"
    ensures AllSpace(form["head_office_address"]) ==>
      "head_office_address" in Errors(form) && Errors(form)["head_office_address"] == "Head office address is required"
    ensures form["password"] == "" ==> "password" in Errors(form) && Errors(form)["password"] == "Password is required"
    ensures form["confirmPassword"] == "" ==> "confirmPassword" in Errors(form) && Errors(form)["confirmPassword"] == "Please confirm your password"
  {
    var c := Checks(form);
    ChecksDistinct(form);
    RecordLookup(c, 0);
    RecordLookup(c, 1);
    RecordLookup(c, 2);
    RecordLookup(c, 3);
    RecordLookup(c, 4);
    RecordLookup(c, 5);
    RecordLookup(c, 6);
  }

  /** A filled-in confirmation is wrong exactly when it differs from the password. */
  lemma ConfirmationRule(form: map<string, string>)
    requires HasFields(form) && form["confirmPassword"] != ""
    ensures "confirmPassword" in Errors(form) <==> form["confirmPassword"] != form["password"]
  {
    ChecksDistinct(form);
    RecordLookup(Checks(form), 6);
  }

  /** The phone `if`/`else if`. */
  method NotePhone(errors: map<string, string>, phone: string) returns (r: map<string, string>)
    ensures r == Note(errors, Check("contactPhone", PhoneMessage(phone)))
  {
    r := errors;
    if Trim(phone) == "" {
      r := r["contactPhone" := "Phone number is required"];
    } else if !PhoneDigitsOk(phone) {
      r := r["contactPhone" := "Please enter a valid phone number"];
    }
  }

  /** The confirmation `if`/`else if`. */
  method NoteConfirm(errors: map<string, string>, password: string, confirm: string) returns (r: map<string, string>)
    ensures r == Note(errors, Check("confirmPassword", ConfirmMessage(password, confirm)))
  {
    r := errors;
    if confirm == "" {
      r := r["confirmPassword" := "Please confirm your password"];
    } else if password != confirm {
      r := r["confirmPassword" := "Passwords do not match"];
    }
  }

  /** `validateForm()`: the dictionary built one field at a time, in the source's order. */
  method ValidateForm(form: map<string, string>) returns (errors: map<string, string>)
    requires HasFields(form)
    ensures errors == Errors(form)
  {
    errors := map[];
    errors := NoteRequired(errors, "bankName", form["bankName"], "Bank name is required");
    errors := NoteRequired(errors, "licenseNumber", form["licenseNumber"], "License number is required");
    errors := NoteEmail(errors, "contactEmail", form["contactEmail"]);
    errors := NotePhone(errors, form["contactPhone"]);
    errors := NoteRequired(errors, "head_office_address", form["head_office_address"], "Head office address is required");
    errors := NotePassword(errors, "password", form["password"]);
    errors := NoteConfirm(errors, form["password"], form["confirmPassword"]);
    RecordSeven(Checks(form));
  }

  /** The JSON body posted to the registration endpoint. */
  datatype RegisterBody = RegisterBody(
    bankName: string, licenseNumber: string, headOfficeAddress: string,
    contactEmail: string, contactPhone: string, passwordHash: string)

  function BodyOf(form: map<string, string>): RegisterBody
    requires HasFields(form)
  {
    RegisterBody(form["bankName"], form["licenseNumber"], form["head_office_address"],
                 form["contactEmail"], form["contactPhone"], form["password"])
  }

  /**
   * The body loses only the confirmation: two forms give the same body
   * exactly when they agree on every other field.
   */
  lemma BodyDropsOnlyConfirmation(f: map<string, string>, g: map<string, string>)
    requires HasFields(f) && HasFields(g)
    ensures BodyOf(f) == BodyOf(g) <==> forall k :: k in Fields - {"confirmPassword"} ==> f[k] == g[k]
  {
    if BodyOf(f) == BodyOf(g) {
      forall k | k in Fields - {"confirmPassword"} ensures f[k] == g[k] {
      }
    }
  }

  const RegistrationFailed := "Registration failed"
  const RegistrationCrashed := "An error occurred during registration."

  /** The component's state: `formData`, `errors` and `loading`. */
  class Page {
    var form: map<string, string>
    var errors: map<string, string>
    var loading: bool

    ghost predicate Valid()
      reads this
    {
      HasFields(form)
    }

    /** The initial state: every field empty, no errors, not loading. */
    constructor ()
      ensures Valid()
      ensures form == EmptyForm && errors == map[] && !loading
    {
      form := EmptyForm;
      errors := map[];
      loading := false;
    }

    /** `handleChange`: the named field takes the value; only that field's error is blanked. */
    method HandleChange(name: string, value: string)
      requires Valid()
      modifies this
      ensures Valid()
      ensures form == SetField(old(form), name, value)
      ensures errors == ClearError(old(errors), name)
      ensures loading == old(loading)
    {
      form := form[name := value];
      if name in errors && errors[name] != "" {
        errors := errors[name := ""];
      }
    }

    /**
     * The part of `handleRegister` after validation passed: the errors are
     * cleared, the body is sent, a truthy token in a successful answer is
     * stored, and a failure leaves only the `submit` message.
     */
    method Submit(store: LocalStorage, reply: Reply) returns (body: RegisterBody)
      requires Valid()
      modifies this, store
      ensures Valid() && form == old(form)
      ensures body == BodyOf(old(form)) && !loading
      ensures Succeeded(reply) ==> errors == map[]
      ensures !Succeeded(reply) ==> errors == map["submit" := SubmitError(reply, RegistrationFailed, RegistrationCrashed)]
      ensures Succeeded(reply) && reply.token != "" ==> store.items == old(store.items)[TokenKey := reply.token]
      ensures !(Succeeded(reply) && reply.token != "") ==> store.items == old(store.items)
    {
      errors := map[];
      loading := true;
      body := BodyOf(form);
      match reply {
        case Threw(reason) =>
          errors := errors["submit" := OrElse(reason, RegistrationCrashed)];
        case Answered(ok, message, token) =>
          if !ok {
            errors := errors["submit" := OrElse(OrElse(message, RegistrationFailed), RegistrationCrashed)];
          } else if token != "" {
            store.SetItem(TokenKey, token);
          }
      }
      loading := false;
    }

    /**
     * `handleRegister`: returns the body it posts, if any. With errors nothing
     * is sent and the errors are shown; otherwise the form is submitted.
     */
    method HandleRegister(store: LocalStorage, reply: Reply) returns (sent: Option<RegisterBody>)
      requires Valid()
      modifies this, store
      ensures Valid() && form == old(form)
      ensures sent.Some? <==> Errors(old(form)) == map[]
      ensures sent.None? ==>
        errors == Errors(old(form)) && loading == old(loading) && store.items == old(store.items)
      ensures sent.Some? ==> sent.value == BodyOf(old(form)) && !loading
      ensures sent.Some? && Succeeded(reply) ==> errors == map[]
      ensures sent.Some? && !Succeeded(reply) ==>
        errors == map["submit" := SubmitError(reply, RegistrationFailed, RegistrationCrashed)]
      ensures sent.Some? && Succeeded(reply) && reply.token != "" ==>
        store.items == old(store.items)[TokenKey := reply.token]
      ensures sent.Some? && !(Succeeded(reply) && reply.token != "") ==> store.items == old(store.items)
    {
      var newErrors := ValidateForm(form);
      if |newErrors| > 0 {
        errors := newErrors;
        return None;
      }
      var body := Submit(store, reply);
      sent := Some(body);
    }
  }
}
