/**
 * The endpoint table (src/config/api.js): a base URL taken from the build
 * environment with a local default, fixed routes under it, and builders
 * that splice ids into the path. Ids are the strings a template literal
 * would print.
 */
module ApiConfig {
  import opened Wrappers

  const DefaultBase := "http://localhost:2010"

  /** `import.meta.env.VITE_API_BASE_URL || 'http://localhost:2010'`. */
  function BaseUrl(env: Option<string>): (base: string)
    ensures env.None? || env.value == "" ==> base == DefaultBase
    ensures env.Some? && env.value != "" ==> base == env.value
    ensures base != ""
  {
    if env.Some? && env.value != "" then env.value else DefaultBase
  }

  /** The fixed entries of `API_ENDPOINTS`. */
  datatype Route =
    | AuthLogin | AuthRegister | AuthLogout
    | CustomerProfile
    | LoansAll | LoansActive | LoanTypes | LoanSummary | LoanRepay
    | WalletDetails | WalletTransactions | WalletFund | WalletWithdraw
    | BanksAll | BankMetrics | BankPendingLoans

  /** Each fixed entry's path after the base. */
  function Path(r: Route): string {
    match r
    case AuthLogin => "/api/auth/login"
    case AuthRegister => "/api/auth/register"
    case AuthLogout => "/api/auth/logout"
    case CustomerProfile => "/api/customers/profile"
    case LoansAll => "/api/loans"
    case LoansActive => "/api/loans/active"
    case LoanTypes => "/api/loans/types"
    case LoanSummary => "/api/loans/summary"
    case LoanRepay => "/api/loans/repay"
    case WalletDetails => "/api/wallet"
    case WalletTransactions => "/api/wallet/transactions"
    case WalletFund => "/api/wallet/fund"
    case WalletWithdraw => "/api/wallet/withdraw"
    case BanksAll => "/api/banks"
    case BankMetrics => "/api/banks/metrics"
    case BankPendingLoans => "/api/banks/loans/pending"
  }

  function Url(base: string, r: Route): string {
    base + Path(r)
  }

  /** `CUSTOMERS.PROFILE_BY_ID(id)`. */
  function ProfileById(base: string, id: string): (u: string)
    ensures base + "/api/customers/profile/" <= u
    ensures |u| >= |id| && u[|u| - |id|..] == id
  {
    base + "/api/customers/profile/" + id
  }

  /** `LOANS.GET_BY_ID(loanId, customerId)`: the customer segment only for a truthy id. */
  function LoanById(base: string, loanId: string, customerId: Option<string>): (u: string)
    ensures base + "/api/loans/" + loanId <= u
    ensures u == base + "/api/loans/" + loanId <==> customerId.None? || customerId.value == ""
  {
    if customerId.Some? && customerId.value != "" then base + "/api/loans/" + loanId + "/customerId/" + customerId.value
    else base + "/api/loans/" + loanId
  }

  /** `LOANS.REPAYMENT_HISTORY(loanId)`. */
  function RepaymentHistory(base: string, loanId: string): (u: string)
    ensures base + "/api/loans/" + loanId <= u
    ensures |u| >= 18 && u[|u| - 18..] == "/repayment_history"
  {
    base + "/api/loans/" + loanId + "/repayment_history"
  }

  /** `BANKS.GET_LOAN_DETAILS(loanId)`. */
  function BankLoanDetails(base: string, loanId: string): (u: string)
    ensures base + "/api/banks/loans/" <= u
    ensures |u| >= |loanId| && u[|u| - |loanId|..] == loanId
  {
    base + "/api/banks/loans/" + loanId
  }

  /** `BANKS.APPROVE_LOAN(loanId)`. */
  function ApproveLoan(base: string, loanId: string): (u: string)
    ensures base + "/api/banks/loans/" + loanId <= u
    ensures |u| >= 8 && u[|u| - 8..] == "/approve"
  {
    base + "/api/banks/loans/" + loanId + "/approve"
  }

  /** `BANKS.REJECT_LOAN(loanId)`. */
  function RejectLoan(base: string, loanId: string): (u: string)
    ensures base + "/api/banks/loans/" + loanId <= u
    ensures |u| >= 7 && u[|u| - 7..] == "/reject"
  {
    base + "/api/banks/loans/" + loanId + "/reject"
  }

  /** Every entry and every builder result lies under `base + "/api"`. */
  lemma EverythingUnderBase(base: string, r: Route, id: string, customerId: Option<string>)
    ensures base + "/api/" <= Url(base, r)
    ensures base + "/api/" <= ProfileById(base, id)
    ensures base + "/api/" <= LoanById(base, id, customerId)
    ensures base + "/api/" <= RepaymentHistory(base, id)
    ensures base + "/api/" <= BankLoanDetails(base, id)
    ensures base + "/api/" <= ApproveLoan(base, id)
    ensures base + "/api/" <= RejectLoan(base, id)
  {
    RouteUnderBase(base, r);
    var api := base + "/api/";
    assert api <= base + "/api/customers/profile/";
    assert api <= base + "/api/loans/" + id;
    assert api <= base + "/api/banks/loans/";
    assert api <= base + "/api/banks/loans/" + id;
  }

  /** Every fixed entry's path starts with `/api/`. */
  lemma RouteUnderBase(base: string, r: Route)
    ensures base + "/api/" <= Url(base, r)
  {
    assert "/api/" <= Path(r);
    assert Url(base, r) == base + Path(r);
    assert Url(base, r)[..|base| + 5] == base + Path(r)[..5];
  }

  /** The builders extend the fixed entries they belong to. */
  lemma BuildersExtendRoutes(base: string, id: string, customerId: string)
    ensures ProfileById(base, id) == Url(base, CustomerProfile) + "/" + id
    ensures LoanById(base, id, None) == LoanById(base, id, Some("")) == Url(base, LoansAll) + "/" + id
    ensures customerId != "" ==>
      LoanById(base, id, Some(customerId)) == LoanById(base, id, None) + "/customerId/" + customerId
    ensures RepaymentHistory(base, id) == Url(base, LoansAll) + "/" + id + "/repayment_history"
  {
  }

  /** Approve and reject share the loan-details prefix and differ only in the last segment. */
  lemma ApproveRejectShareDetails(base: string, id: string)
    ensures ApproveLoan(base, id) == BankLoanDetails(base, id) + "/approve"
    ensures RejectLoan(base, id) == BankLoanDetails(base, id) + "/reject"
    ensures ApproveLoan(base, id) != RejectLoan(base, id)
  {
    var p := BankLoanDetails(base, id);
    assert ApproveLoan(base, id)[|p| + 1] == 'a';
    assert RejectLoan(base, id)[|p| + 1] == 'r';
  }

  /** Distinct ids give distinct profile and history URLs. */
  lemma {:induction false} IdsRecoverable(base: string, a: string, b: string)
    ensures ProfileById(base, a) == ProfileById(base, b) ==> a == b
    ensures RepaymentHistory(base, a) == RepaymentHistory(base, b) ==> a == b
  {
    var p := base + "/api/customers/profile/";
    if ProfileById(base, a) == ProfileById(base, b) {
      assert a == ProfileById(base, a)[|p|..];
    }
    var q := base + "/api/loans/";
    if RepaymentHistory(base, a) == RepaymentHistory(base, b) {
      assert |a| == |b|;
      assert a == RepaymentHistory(base, a)[|q|..|q| + |a|];
    }
  }
}
