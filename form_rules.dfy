/**
 * Field rules shared by the bank registration and bank login forms
 * (src/pages/BankRegisterPage.jsx, src/pages/BankLoginPage.jsx), and the
 * single-field update that every form's change handler performs.
 */
module FormRules {
  import opened Wrappers
  import opened Text

  /** A character of the class `[^\s@]`. */
  predicate Plain(c: char) {
    !IsSpace(c) && c != '@'
  }

  predicate PlainRun(t: string) {
    forall k :: 0 <= k < |t| ==> Plain(t[k])
  }

  /**
   * `s` matches `^[^\s@]+@[^\s@]+\.[^\s@]+$` with the `@` at `i` and the
   * escaped dot at `j`.
   */
  predicate EmailSplitAt(s: string, i: int, j: int) {
    && 0 < i && i + 1 < j && j + 1 < |s|
    && s[i] == '@' && s[j] == '.'
    && PlainRun(s[..i]) && PlainRun(s[i + 1..j]) && PlainRun(s[j + 1..])
  }

  /** The email pattern, read as the regular expression it is. */
  ghost predicate EmailRegex(s: string) {
    exists i, j :: EmailSplitAt(s, i, j)
  }

  /** The pattern decided directly: the first `@`, a plain local part, and a dot strictly inside a plain domain. */
  predicate EmailMatches(s: string) {
    var i := FirstIndex(s, '@');
    && 0 < i < |s|
    && PlainRun(s[..i])
    && var d := s[i + 1..];
       && PlainRun(d)
       && |d| >= 3
       && '.' in d[1..|d| - 1]
  }

  lemma FirstIndexAt(s: string, c: char, i: int)
    requires 0 <= i < |s| && s[i] == c && c !in s[..i]
    ensures FirstIndex(s, c) == i
  {
  }

  /** The direct decision agrees with the regular expression on every string. */
  lemma EmailMatchesIff(s: string)
    ensures EmailMatches(s) <==> EmailRegex(s)
  {
    var i := FirstIndex(s, '@');
    if EmailMatches(s) {
      var d := s[i + 1..];
      var inner := d[1..|d| - 1];
      var k := FirstIndex(inner, '.');
      var j := i + 2 + k;
      assert s[j] == '.';
      assert s[i + 1..j] == d[..k + 1];
      assert s[j + 1..] == d[k + 2..];
      assert EmailSplitAt(s, i, j);
    }
    if EmailRegex(s) {
      var a, b :| EmailSplitAt(s, a, b);
      assert '@' !in s[..a] by {
        forall k | 0 <= k < a ensures s[..a][k] != '@' { assert Plain(s[..a][k]); }
      }
      FirstIndexAt(s, '@', a);
      var d := s[a + 1..];
      assert PlainRun(d) by {
        forall k | 0 <= k < |d| ensures Plain(d[k]) {
          if a + 1 + k < b { assert d[k] == s[a + 1..b][k]; }
          else if a + 1 + k > b { assert d[k] == s[b + 1..][a + k - b]; }
        }
      }
      assert d[1..|d| - 1][b - a - 2] == '.';
    }
  }

  /** `/^\d{10,}$/.test(s.replace(/\D/g, ''))`: at least ten digits once the rest is stripped. */
  predicate PhoneDigitsOk(s: string) {
    |KeepDigits(s)| >= 10
  }

  /** A non-blank email's message, if any: "required" wins over the format check. */
  function EmailMessage(email: string): (m: Option<string>)
    ensures m.None? <==> !AllSpace(email) && EmailRegex(email)
  {
    EmailMatchesIff(email);
    if Trim(email) == "" then Some("Email is required")
    else if !EmailMatches(email) then Some("Please enter a valid email address")
    else None
  }

  /** The password rule: present, and at least six characters, spaces included. */
  function PasswordMessage(password: string): (m: Option<string>)
    ensures m.None? <==> |password| >= 6
    ensures m == Some("Password is required") <==> password == ""
  {
    if password == "" then Some("Password is required")
    else if |password| < 6 then Some("Password must be at least 6 characters long")
    else None
  }

  /** A field that must not be blank after trimming. */
  function RequiredMessage(value: string, message: string): (m: Option<string>)
    ensures m.Some? <==> AllSpace(value)
  {
    if Trim(value) == "" then Some(message) else None
  }

  /** One `if` of a validator: the field it checks and the message it records, if any. */
  datatype Check = Check(field: string, message: Option<string>)

  /** `newErrors[field] = message` when the check produced one. */
  function Note(errors: map<string, string>, check: Check): map<string, string> {
    if check.message.Some? then errors[check.field := check.message.value] else errors
  }

  /** The dictionary a validator builds by running its checks in order from `{}`. */
  function Record(checks: seq<Check>): map<string, string> {
    if checks == [] then map[] else Note(Record(checks[..|checks| - 1]), checks[|checks| - 1])
  }

  /** Seven checks recorded one after another. */
  lemma RecordSeven(c: seq<Check>)
    requires |c| == 7
    ensures Record(c) == Note(Note(Note(Note(Note(Note(Note(map[], c[0]), c[1]), c[2]), c[3]), c[4]), c[5]), c[6])
  {
    assert c[..0] == [];
    RecordStep(c, 1);
    RecordStep(c, 2);
    RecordStep(c, 3);
    RecordStep(c, 4);
    RecordStep(c, 5);
    RecordStep(c, 6);
    RecordStep(c, 7);
    assert c[..7] == c;
  }

  lemma RecordStep(c: seq<Check>, n: int)
    requires 0 < n <= |c|
    ensures Record(c[..n]) == Note(Record(c[..n - 1]), c[n - 1])
  {
    assert c[..n][..n - 1] == c[..n - 1];
  }

  predicate DistinctFields(checks: seq<Check>) {
    forall i, j :: 0 <= i < j < |checks| ==> checks[i].field != checks[j].field
  }

  /** With one check per field, a field has an entry exactly when its check produced a message, and it is that message. */
  lemma {:induction false} RecordLookup(checks: seq<Check>, i: int)
    requires DistinctFields(checks) && 0 <= i < |checks|
    ensures checks[i].field in Record(checks) <==> checks[i].message.Some?
    ensures checks[i].message.Some? ==> Record(checks)[checks[i].field] == checks[i].message.value
  {
    var n := |checks| - 1;
    var front := checks[..n];
    assert DistinctFields(front) by {
      forall a, b | 0 <= a < b < |front| ensures front[a].field != front[b].field {
        assert front[a] == checks[a] && front[b] == checks[b];
      }
    }
    if i < n {
      assert front[i] == checks[i];
      RecordLookup(front, i);
      assert checks[n].field != checks[i].field;
    } else {
      RecordEmpty(front);
    }
  }

  /** The dictionary is empty exactly when no check produced a message, and every key is a checked field. */
  lemma {:induction false} RecordEmpty(checks: seq<Check>)
    ensures Record(checks) == map[] <==> forall i :: 0 <= i < |checks| ==> checks[i].message.None?
    ensures forall k :: k in Record(checks) ==> exists i :: 0 <= i < |checks| && checks[i].field == k
  {
    if checks != [] {
      var n := |checks| - 1;
      var front := checks[..n];
      RecordEmpty(front);
      assert forall i :: 0 <= i < n ==> front[i] == checks[i];
      if checks[n].message.Some? {
        assert checks[n].field in Record(checks);
      }
      forall k | k in Record(checks) ensures exists i :: 0 <= i < |checks| && checks[i].field == k {
        if k != checks[n].field {
          var i :| 0 <= i < |front| && front[i].field == k;
          assert checks[i].field == k;
        }
      }
    }
  }

  /** Every one of seven checks passing, spelled out. */
  lemma AllPassSeven(checks: seq<Check>)
    requires |checks| == 7
    ensures (forall i :: 0 <= i < |checks| ==> checks[i].message.None?) <==>
      && checks[0].message.None? && checks[1].message.None? && checks[2].message.None? && checks[3].message.None?
      && checks[4].message.None? && checks[5].message.None? && checks[6].message.None?
  {
  }

  /** `RecordEmpty` spelled out for three checks. */
  lemma RecordEmptyThree(checks: seq<Check>)
    requires |checks| == 3
    ensures Record(checks) == map[] <==>
      checks[0].message.None? && checks[1].message.None? && checks[2].message.None?
  {
    RecordEmpty(checks);
    assert (forall i :: 0 <= i < |checks| ==> checks[i].message.None?) <==>
      checks[0].message.None? && checks[1].message.None? && checks[2].message.None?;
  }

  /** Only the checked fields can carry a message. */
  lemma RecordKeysAmong(checks: seq<Check>, fields: set<string>)
    requires forall i :: 0 <= i < |checks| ==> checks[i].field in fields
    ensures Record(checks).Keys <= fields
  {
    RecordEmpty(checks);
    forall k | k in Record(checks) ensures k in fields {
      var i :| 0 <= i < |checks| && checks[i].field == k;
    }
  }

  /** `if (!value.trim()) newErrors[field] = message`. */
  method NoteRequired(errors: map<string, string>, field: string, value: string, message: string)
      returns (r: map<string, string>)
    ensures r == Note(errors, Check(field, RequiredMessage(value, message)))
  {
    r := errors;
    if Trim(value) == "" {
      r := r[field := message];
    }
  }

  /** The email `if`/`else if` of the bank forms. */
  method NoteEmail(errors: map<string, string>, field: string, email: string) returns (r: map<string, string>)
    ensures r == Note(errors, Check(field, EmailMessage(email)))
  {
    r := errors;
    if Trim(email) == "" {
      r := r[field := "Email is required"];
    } else if !EmailMatches(email) {
      r := r[field := "Please enter a valid email address"];
    }
  }

  /** The password `if`/`else if` of the bank forms. */
  method NotePassword(errors: map<string, string>, field: string, password: string) returns (r: map<string, string>)
    ensures r == Note(errors, Check(field, PasswordMessage(password)))
  {
    r := errors;
    if password == "" {
      r := r[field := "Password is required"];
    } else if |password| < 6 {
      r := r[field := "Password must be at least 6 characters long"];
    }
  }

  /** `{...prev, [name]: value}`: the one field set, every other field kept. */
  function SetField(form: map<string, string>, name: string, value: string): (r: map<string, string>)
    ensures r.Keys == form.Keys + {name}
    ensures r[name] == value
    ensures forall k :: k in form && k != name ==> r[k] == form[k]
  {
    form[name := value]
  }

  /** `if (errors[name]) setErrors({...prev, [name]: ''})`: only a truthy message is blanked. */
  function ClearError(errors: map<string, string>, name: string): (r: map<string, string>)
    ensures r.Keys == errors.Keys
    ensures name in r ==> r[name] == ""
    ensures forall k :: k in errors && k != name ==> r[k] == errors[k]
  {
    if name in errors && errors[name] != "" then errors[name := ""] else errors
  }
}
