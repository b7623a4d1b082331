/**
 * The bank login form (src/pages/BankLoginPage.jsx): an email and a password,
 * validated before anything is sent; a successful answer's token is kept in
 * storage.
 */
module BankLoginPage {
  import opened Wrappers
  import opened Text
  import opened FormRules
  import opened Storage
  import opened Http

  const Fields: set<string> := {"email", "password"}

  /** The form as first rendered: both fields empty. */
  const EmptyForm: map<string, string> := map["email" := "", "password" := ""]

  predicate HasFields(form: map<string, string>) {
    Fields <= form.Keys
  }

  /** `validateForm`'s checks, in its order. */
  function Checks(form: map<string, string>): (checks: seq<Check>)
    requires HasFields(form)
    ensures |checks| == 2
  {
    [ Check("email", EmailMessage(form["email"])),
      Check("password", PasswordMessage(form["password"])) ]
  }

  /** The error dictionary `validateForm` returns. */
  function Errors(form: map<string, string>): map<string, string>
    requires HasFields(form)
  {
    Record(Checks(form))
  }

  /** What the form is meant to accept. */
  ghost predicate Acceptable(form: map<string, string>)
    requires HasFields(form)
  {
    !AllSpace(form["email"]) && EmailRegex(form["email"]) && |form["password"]| >= 6
  }

  /** The dictionary is empty exactly when both fields pass; only the two fields get messages. */
  lemma NoErrorsIffAcceptable(form: map<string, string>)
    requires HasFields(form)
    ensures Errors(form) == map[] <==> Acceptable(form)
    ensures Errors(form).Keys <= Fields
  {
    var c := Checks(form);
    RecordEmpty(c);
    assert (forall i :: 0 <= i < |c| ==> c[i].message.None?) <==> c[0].message.None? && c[1].message.None?;
    RecordKeysAmong(c, Fields);
  }

  /** Each field's message: "required" before the format or length check. */
  lemma FieldMessages(form: map<string, string>)
    requires HasFields(form)
    ensures AllSpace(form["email"]) ==> "email" in Errors(form) && Errors(form)["email"] == "Email is required"
    ensures !AllSpace(form["email"]) && !EmailRegex(form["email"]) ==>
      "email" in Errors(form) && Errors(form)["email"] == "Please enter a valid email address"
    ensures form["password"] == "" ==> "password" in Errors(form) && Errors(form)["password"] == "Password is required"
    ensures 0 < |form["password"]| < 6 ==>
      "password" in Errors(form) && Errors(form)["password"] == "Password must be at least 6 characters long"
  {
    var c := Checks(form);
    RecordLookup(c, 0);
    RecordLookup(c, 1);
    EmailMatchesIff(form["email"]);
  }

  /** `validateForm()`. */
  method ValidateForm(form: map<string, string>) returns (errors: map<string, string>)
    requires HasFields(form)
    ensures errors == Errors(form)
  {
    errors := map[];
    errors := NoteEmail(errors, "email", form["email"]);
    errors := NotePassword(errors, "password", form["password"]);
    var c := Checks(form);
    assert c[..0] == [];
    RecordStep(c, 1);
    RecordStep(c, 2);
    assert c[..2] == c;
  }

  /** The JSON body posted to the login endpoint. */
  datatype LoginBody = LoginBody(contactEmail: string, passwordHash: string)

  function BodyOf(form: map<string, string>): LoginBody
    requires HasFields(form)
  {
    LoginBody(form["email"], form["password"])
  }

  /** The body renames the two fields and loses neither: it determines the form's two values. */
  lemma BodyKeepsBothFields(f: map<string, string>, g: map<string, string>)
    requires HasFields(f) && HasFields(g)
    ensures BodyOf(f) == BodyOf(g) <==> f["email"] == g["email"] && f["password"] == g["password"]
  {
  }

  const LoginFailed := "Login failed"
  const LoginCrashed := "An error occurred during login."

  /** The component's state: `formData`, `errors` and `loading`. */
  class Page {
    var form: map<string, string>
    var errors: map<string, string>
    var loading: bool

    ghost predicate Valid()
      reads this
    {
      HasFields(form)
    }

    /** The initial state: both fields empty, no errors, not loading. */
    constructor ()
      ensures Valid()
      ensures form == EmptyForm && errors == map[] && !loading
    {
      form := EmptyForm;
      errors := map[];
      loading := false;
    }

    /** `handleChange`: the named field takes the value; only that field's error is blanked. */
    method HandleChange(name: string, value: string)
      requires Valid()
      modifies this
      ensures Valid()
      ensures form == SetField(old(form), name, value)
      ensures errors == ClearError(old(errors), name)
      ensures loading == old(loading)
    {
      form := form[name := value];
      if name in errors && errors[name] != "" {
        errors := errors[name := ""];
      }
    }

    /**
     * `handleLogin`: returns the body it posts, if any. Storage changes only
     * when the answer is ok and carries a truthy token.
     */
    method HandleLogin(store: LocalStorage, reply: Reply) returns (sent: Option<LoginBody>)
      requires Valid()
      modifies this, store
      ensures Valid() && form == old(form)
      ensures sent.Some? <==> Errors(old(form)) == map[]
      ensures sent.None? ==>
        errors == Errors(old(form)) && loading == old(loading) && store.items == old(store.items)
      ensures sent.Some? ==> sent.value == BodyOf(old(form)) && !loading
      ensures sent.Some? && Succeeded(reply) ==> errors == map[]
      ensures sent.Some? && !Succeeded(reply) ==>
        errors == map["submit" := SubmitError(reply, LoginFailed, LoginCrashed)]
      ensures sent.Some? && Succeeded(reply) && reply.token != "" ==>
        store.items == old(store.items)[TokenKey := reply.token]
      ensures sent.Some? && !(Succeeded(reply) && reply.token != "") ==> store.items == old(store.items)
    {
      var newErrors := ValidateForm(form);
      if |newErrors| > 0 {
        errors := newErrors;
        return None;
      }
      errors := map[];
      loading := true;
      sent := Some(BodyOf(form));
      match reply {
        case Threw(reason) =>
          errors := errors["submit" := OrElse(reason, LoginCrashed)];
        case Answered(ok, message, token) =>
          if !ok {
            errors := errors["submit" := OrElse(OrElse(message, LoginFailed), LoginCrashed)];
          } else if token != "" {
            store.SetItem(TokenKey, token);
          }
      }
      loading := false;
    }
  }
}
