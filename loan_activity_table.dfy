/**
 * The dashboard's recent-loans table (src/components/LoanActivityTable.jsx):
 * the status label and button colour, the row builder over the first five
 * loans, and the fetch handler's effect on `tableLoans`, `tableLoading` and
 * `error`.
 */
module LoanActivityTable {
  import opened Wrappers
  import opened Text
  import opened Json
  import opened Storage

  // -------------------------------------------------------------- status

  /** A string whose first character is not a lower-case letter and whose others are not upper-case. */
  predicate Capitalized(r: string) {
    && r != ""
    && !('a' <= r[0] <= 'z')
    && forall i :: 1 <= i < |r| ==> !('A' <= r[i] <= 'Z')
  }

  /** `formatLoanStatus`: 'Unknown' for a falsy status, otherwise the first character upper-cased and the rest lower-cased. */
  function FormatLoanStatus(status: Option<string>): (r: string)
    ensures status.None? || status.value == "" ==> r == "Unknown"
    ensures status.Some? && status.value != "" ==> |r| == |status.value| && Capitalized(r)
  {
    if status.None? || status.value == "" then "Unknown"
    else
      var s := status.value;
      [UpperChar(s[0])] + ToLower(s[1..])
  }

  /** The label spells the status: only letter case changes. */
  lemma {:induction false} LabelSpellsStatus(s: string)
    requires s != ""
    ensures ToLower(FormatLoanStatus(Some(s))) == ToLower(s)
  {
    var r := FormatLoanStatus(Some(s));
    forall i | 0 <= i < |s| ensures LowerChar(r[i]) == LowerChar(s[i]) {
      if i > 0 {
        assert r[i] == ToLower(s[1..])[i - 1];
      }
    }
  }

  /** Two characters that are not lower-case letters and lower-case alike are equal. */
  lemma SameLower(c: char, d: char)
    requires !('a' <= c <= 'z') && !('a' <= d <= 'z') && LowerChar(c) == LowerChar(d)
    ensures c == d
  {
  }

  /** Two characters that are not upper-case letters and lower-case alike are equal. */
  lemma SameUpperless(c: char, d: char)
    requires !('A' <= c <= 'Z') && !('A' <= d <= 'Z') && LowerChar(c) == LowerChar(d)
    ensures c == d
  {
  }

  /**
   * The label is the one capitalized spelling of the status: any capitalized
   * string that lower-cases like the status is the label.
   */
  lemma {:induction false} LabelIsTheCapitalizedSpelling(s: string, t: string)
    requires s != "" && Capitalized(t) && ToLower(t) == ToLower(s)
    ensures t == FormatLoanStatus(Some(s))
  {
    var r := FormatLoanStatus(Some(s));
    LabelSpellsStatus(s);
    assert |t| == |r|;
    forall i | 0 <= i < |t| ensures t[i] == r[i] {
      assert LowerChar(t[i]) == ToLower(t)[i] == ToLower(r)[i] == LowerChar(r[i]);
      if i == 0 {
        SameLower(t[0], r[0]);
      } else {
        SameUpperless(t[i], r[i]);
      }
    }
  }

  /** Formatting a label again changes nothing. */
  lemma {:induction false} FormatIdempotent(s: string)
    requires s != ""
    ensures FormatLoanStatus(Some(FormatLoanStatus(Some(s)))) == FormatLoanStatus(Some(s))
  {
    var r := FormatLoanStatus(Some(s));
    LabelSpellsStatus(r);
    LabelIsTheCapitalizedSpelling(r, r);
  }

  const CompletedButton := "bg-green-100 text-green-800"
  const NeutralButton := "bg-[#f0f2f4] text-[#111518]"
  const PendingButton := "bg-yellow-100 text-yellow-800"
  const OverdueButton := "bg-red-100 text-red-800"

  /** `getStatusButtonColor`: on the lower-cased status; 'active' shares the default's colour. */
  function StatusButtonColor(status: Option<string>): (c: string)
    ensures c == CompletedButton <==> status.Some? && ToLower(status.value) == "completed"
    ensures c == PendingButton <==> status.Some? && ToLower(status.value) == "pending"
    ensures c == OverdueButton <==> status.Some? && ToLower(status.value) == "overdue"
    ensures status.None? || ToLower(status.value) == "active" ==> c == NeutralButton
  {
    var k := if status.Some? then Some(ToLower(status.value)) else None;
    if k == Some("completed") then CompletedButton
    else if k == Some("active") then NeutralButton
    else if k == Some("pending") then PendingButton
    else if k == Some("overdue") then OverdueButton
    else NeutralButton
  }

  /**
   * The colour ignores letter case, and the neutral colour is exactly the
   * statuses other than completed, pending and overdue, 'active' and a
   * missing status among them.
   */
  lemma {:induction false} ButtonColorRule(s: string)
    ensures StatusButtonColor(Some(s)) == StatusButtonColor(Some(ToLower(s)))
    ensures StatusButtonColor(Some(s)) == NeutralButton <==> ToLower(s) !in {"completed", "pending", "overdue"}
    ensures StatusButtonColor(Some("active")) == StatusButtonColor(None) == NeutralButton
  {
    LowerIdempotent(s);
    LowerOfLower("active");
  }

  // ---------------------------------------------------------------- rows

  /**
   * A loan as the server sends it, with the fields the table reads. `None`
   * is a missing field; `amount` and `createdAt` are kept unformatted.
   */
  datatype LoanRecord = LoanRecord(
    id: Option<Json>,
    loanTypeName: Option<string>,
    amount: Option<Json>,
    status: Option<string>,
    createdAt: Option<string>)

  /** A table row. */
  datatype Row = Row(
    id: Option<Json>,
    loanType: string,
    amount: Option<Json>,
    status: string,
    createdAt: Option<string>,
    rawStatus: Option<string>)

  const UnknownLoan := "Unknown Loan"

  /** `loan.loanTypeName || 'Unknown Loan'`. */
  function TypeLabel(name: Option<string>): string {
    if name.Some? then OrElse(name.value, UnknownLoan) else UnknownLoan
  }

  /** The `.map` callback. */
  function RowOf(loan: LoanRecord): Row {
    Row(loan.id, TypeLabel(loan.loanTypeName), loan.amount, FormatLoanStatus(loan.status), loan.createdAt, loan.status)
  }

  function Min(a: int, b: int): int {
    if a <= b then a else b
  }

  /** `loans.slice(0, 5).map(...)`. */
  function Rows(loans: seq<LoanRecord>): (rows: seq<Row>)
    ensures |rows| == Min(5, |loans|)
    ensures forall i :: 0 <= i < |rows| ==> rows[i] == RowOf(loans[i])
  {
    var first := loans[..Min(5, |loans|)];
    seq(|first|, i requires 0 <= i < |first| => RowOf(first[i]))
  }

  /**
   * The rows are the first (at most) five loans in their order; each keeps
   * its id and raw status verbatim and names its type, defaulting to
   * 'Unknown Loan'.
   */
  lemma RowsRule(loans: seq<LoanRecord>)
    ensures |Rows(loans)| == Min(5, |loans|)
    ensures forall i :: 0 <= i < |Rows(loans)| ==>
      && Rows(loans)[i].id == loans[i].id
      && Rows(loans)[i].rawStatus == loans[i].status
      && Rows(loans)[i].status == FormatLoanStatus(loans[i].status)
      && (Rows(loans)[i].loanType == UnknownLoan <==>
            loans[i].loanTypeName.None? || loans[i].loanTypeName.value in {"", UnknownLoan})
  {
  }

  /** Loans past the fifth never reach the table. */
  lemma RowsIgnoreTail(loans: seq<LoanRecord>, more: seq<LoanRecord>)
    requires |loans| >= 5
    ensures Rows(loans + more) == Rows(loans)
  {
    assert (loans + more)[..5] == loans[..5];
  }

  // --------------------------------------------------------------- fetch

  /**
   * What `fetchLoans` learns: a thrown error's message, or the response's
   * `ok` and `status` and `data.loans` when that is a truthy array.
   */
  datatype LoansReply =
    | Threw(reason: string)
    | Answered(ok: bool, status: int, loans: Option<seq<LoanRecord>>)

  const NoToken := "No authentication token found"
  const FetchFailed := "Failed to fetch loans"

  /** The component's state. */
  class Table {
    var tableLoans: seq<Row>
    var tableLoading: bool
    var error: Option<string>

    /** The initial state from the `loans` and `loading` props. */
    constructor (loans: seq<Row>, loading: bool)
      ensures tableLoans == loans && tableLoading == loading && error.None?
    {
      tableLoans := loans;
      tableLoading := loading;
      error := None;
    }

    /**
     * `fetchLoans`: returns whether a request was made. Without a token the
     * error says so and no request is made; a thrown error or a non-ok
     * status other than 404 empties the table; a usable `data.loans` replaces
     * the rows, and anything else leaves them. Loading always ends false.
     */
    method FetchLoans(store: LocalStorage, reply: LoansReply) returns (requested: bool)
      modifies this
      ensures !tableLoading
      ensures requested <==> TruthyToken(store.GetItem(TokenKey)).Some?
      ensures !requested ==> error == Some(NoToken) && tableLoans == old(tableLoans)
      ensures requested && reply.Threw? ==> error == Some(reply.reason) && tableLoans == []
      ensures requested && reply.Answered? && !reply.ok && reply.status != 404 ==>
        error == Some(FetchFailed) && tableLoans == []
      ensures requested && reply.Answered? && (reply.ok || reply.status == 404) ==>
        && error.None?
        && (reply.loans.Some? ==> tableLoans == Rows(reply.loans.value))
        && (reply.loans.None? ==> tableLoans == old(tableLoans))
    {
      tableLoading := true;
      error := None;
      var token := store.GetItem(TokenKey);
      if token.None? || token.value == "" {
        error := Some(NoToken);
        tableLoading := false;
        return false;
      }
      requested := true;
      match reply {
        case Threw(reason) =>
          error := Some(reason);
          tableLoans := [];
        case Answered(ok, status, loans) =>
          if !ok && status != 404 {
            error := Some(FetchFailed);
            tableLoans := [];
          } else if loans.Some? {
            tableLoans := Rows(loans.value);
          }
      }
      tableLoading := false;
    }
  }
}
