/**
 * The customer's loan list (src/pages/LoanPage.jsx): `filterLoans` narrows the
 * fetched loans first by the status tab, then by a case-insensitive search
 * over four fields. `None` is a field the server left out (`undefined`).
 */
module LoanPage {
  import opened Wrappers
  import opened Text

  /**
   * The fields of a loan the filter reads. `amount` is the string
   * `amount.toString()` gives.
   */
  datatype Loan = Loan(
    id: Option<string>,
    amount: Option<string>,
    loanTypeName: Option<string>,
    dueDate: Option<string>,
    status: Option<string>)

  /** `s.filter(p)`: the elements satisfying `p`, in their order. */
  function Keep<T(==,!new)>(s: seq<T>, p: T -> bool): (r: seq<T>)
    ensures |r| <= |s|
    ensures forall x :: x in r <==> x in s && p(x)
    ensures forall x :: multiset(r)[x] == if p(x) then multiset(s)[x] else 0
  {
    if s == [] then []
    else
      assert s == [s[0]] + s[1..];
      if p(s[0]) then [s[0]] + Keep(s[1..], p)
      else Keep(s[1..], p)
  }

  /** `a` is `b` with some elements removed and the rest in their original order. */
  predicate Subsequence<T(==)>(a: seq<T>, b: seq<T>)
    decreases |b|
  {
    if a == [] then true
    else if b == [] then false
    else (a[0] == b[0] && Subsequence(a[1..], b[1..])) || Subsequence(a, b[1..])
  }

  /** Filtering only drops elements: the order of what remains is kept. */
  lemma {:induction false} KeepIsSubsequence<T(!new)>(s: seq<T>, p: T -> bool)
    ensures Subsequence(Keep(s, p), s)
  {
    if s != [] {
      KeepIsSubsequence(s[1..], p);
      if p(s[0]) {
        assert Keep(s, p)[1..] == Keep(s[1..], p);
      } else {
        var r := Keep(s, p);
        if r != [] {
          assert Subsequence(r, s[1..]);
        }
      }
    }
  }

  /** The conjunction of two conditions. */
  function Both<T>(p: T -> bool, q: T -> bool): T -> bool {
    x => p(x) && q(x)
  }

  /** Filtering twice is filtering once by both conditions. */
  lemma {:induction false} KeepKeep<T(!new)>(s: seq<T>, p: T -> bool, q: T -> bool)
    ensures Keep(Keep(s, p), q) == Keep(s, Both(p, q))
  {
    if s != [] {
      KeepKeep(s[1..], p, q);
      if p(s[0]) {
        assert Keep(s, p) == [s[0]] + Keep(s[1..], p);
        assert ([s[0]] + Keep(s[1..], p))[1..] == Keep(s[1..], p);
      }
    }
  }

  /** Filtering by a condition every element meets changes nothing. */
  lemma {:induction false} KeepAll<T(!new)>(s: seq<T>, p: T -> bool)
    requires forall x :: x in s ==> p(x)
    ensures Keep(s, p) == s
  {
    if s != [] {
      KeepAll(s[1..], p);
      assert [s[0]] + s[1..] == s;
    }
  }

  /** `field?.toLowerCase().includes(term)`: a missing field never matches. */
  predicate FieldMatches(field: Option<string>, term: string) {
    field.Some? && Contains(ToLower(field.value), term)
  }

  /** The search condition for a lower-cased term. */
  predicate Matches(loan: Loan, term: string) {
    || FieldMatches(loan.id, term)
    || FieldMatches(loan.amount, term)
    || FieldMatches(loan.loanTypeName, term)
    || FieldMatches(loan.dueDate, term)
  }

  /** The status test `loan.status === filterStatus`. */
  function HasStatus(filterStatus: string): Loan -> bool {
    (loan: Loan) => loan.status == Some(filterStatus)
  }

  /** The search test for a term already lower-cased. */
  function SearchFor(searchLower: string): Loan -> bool {
    (loan: Loan) => Matches(loan, searchLower)
  }

  /** The status stage: every loan for `'all'`, otherwise the loans whose status is exactly the tab's. */
  function ByStatus(loans: seq<Loan>, filterStatus: string): seq<Loan> {
    if filterStatus != "all" then Keep(loans, HasStatus(filterStatus)) else loans
  }

  /** `filterLoans()`: the status stage, then the search stage when the term is not blank. */
  function FilterLoans(loans: seq<Loan>, searchTerm: string, filterStatus: string): (shown: seq<Loan>)
    ensures |shown| <= |loans|
    ensures forall x :: multiset(shown)[x] <= multiset(loans)[x]
    ensures filterStatus != "all" ==> forall x :: x in shown ==> x.status == Some(filterStatus)
    ensures !AllSpace(searchTerm) ==> forall x :: x in shown ==> Matches(x, ToLower(searchTerm))
  {
    var byStatus := ByStatus(loans, filterStatus);
    if Trim(searchTerm) != "" then Keep(byStatus, SearchFor(ToLower(searchTerm))) else byStatus
  }

  /** With the `'all'` tab and a blank search, every loan is shown. */
  lemma ShowsAllByDefault(loans: seq<Loan>, searchTerm: string)
    requires AllSpace(searchTerm)
    ensures FilterLoans(loans, searchTerm, "all") == loans
  {
  }

  /** The result is the loans with some removed, in their original order. */
  lemma FilterKeepsOrder(loans: seq<Loan>, searchTerm: string, filterStatus: string)
    ensures Subsequence(FilterLoans(loans, searchTerm, filterStatus), loans)
  {
    var st := HasStatus(filterStatus);
    var sm := SearchFor(ToLower(searchTerm));
    if filterStatus != "all" && Trim(searchTerm) != "" {
      KeepKeep(loans, st, sm);
      KeepIsSubsequence(loans, Both(st, sm));
    } else if filterStatus != "all" {
      KeepIsSubsequence(loans, st);
    } else if Trim(searchTerm) != "" {
      KeepIsSubsequence(loans, sm);
    } else {
      var all := (loan: Loan) => true;
      KeepAll(loans, all);
      KeepIsSubsequence(loans, all);
    }
  }

  /**
   * A loan is shown exactly when it passes the status stage (its status is
   * the tab's, case-sensitively, unless the tab is `'all'`) and, for a
   * non-blank search, one of its four fields contains the lower-cased,
   * untrimmed term.
   */
  lemma ShownIff(loans: seq<Loan>, searchTerm: string, filterStatus: string, loan: Loan)
    ensures loan in FilterLoans(loans, searchTerm, filterStatus) <==>
      && loan in loans
      && (filterStatus == "all" || loan.status == Some(filterStatus))
      && (AllSpace(searchTerm) || Matches(loan, ToLower(searchTerm)))
  {
  }

  /** A loan with none of the four searched fields is hidden by any non-blank search. */
  lemma MissingFieldsNeverMatch(loans: seq<Loan>, searchTerm: string, filterStatus: string, loan: Loan)
    requires !AllSpace(searchTerm)
    requires loan.id.None? && loan.amount.None? && loan.loanTypeName.None? && loan.dueDate.None?
    ensures loan !in FilterLoans(loans, searchTerm, filterStatus)
  {
    ShownIff(loans, searchTerm, filterStatus, loan);
  }

  /** The tabs set the status to `'all'` or `'active'`; the `'active'` tab shows exactly the active loans. */
  lemma ActiveTab(loans: seq<Loan>)
    ensures forall loan :: loan in FilterLoans(loans, "", "active") <==> loan in loans && loan.status == Some("active")
  {
  }
}
