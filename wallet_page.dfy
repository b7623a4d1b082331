/**
 * The wallet page (src/pages/WalletPage.jsx): funding and withdrawal forms
 * with their amount guards, the wallet-response unwrap, the transaction
 * colour, badge and sign rules, and the sidebar chosen from the token's role.
 * Toasts are returned as values; amounts are `parseFloat` readings.
 */
module WalletPage {
  import opened Wrappers
  import opened Text
  import opened Numbers
  import opened Json
  import opened FormRules
  import opened Storage
  import opened Http
  import opened JwtHelper

  // ---------------------------------------------------------------- role

  /**
   * `JSON.parse(atob(token.split('.')[1]))` with no alphabet substitution
   * and no UTF-8 step; `None` is a throw. Without a '.' the index reads
   * `undefined`, which `atob` sees as the text "undefined".
   */
  function RolePayload(token: string, codec: Codec): Option<Json> {
    var parts := Split(token, '.');
    var segment := if |parts| >= 2 then parts[1] else "undefined";
    match codec.atob(segment)
    case None => None
    case Some(bytes) => codec.parse(BinaryString(bytes))
  }

  /** The page renders: no token, or one whose payload parses to something other than `null`. */
  predicate RoleReadable(stored: Option<string>, codec: Codec) {
    var token := TruthyToken(stored);
    token.None? || (RolePayload(token.value, codec).Some? && RolePayload(token.value, codec).value != JNull)
  }

  /** `role()`: `null` without a token, else the payload's `role` (`None` is `undefined`). */
  function Role(stored: Option<string>, codec: Codec): (role: Option<Json>)
    requires RoleReadable(stored, codec)
    ensures TruthyToken(stored).None? ==> role == Some(JNull)
    ensures TruthyToken(stored).Some? ==> role == Get(RolePayload(TruthyToken(stored).value, codec).value, "role")
    ensures TruthyToken(stored).Some? && role.Some? ==>
      var payload := RolePayload(TruthyToken(stored).value, codec).value;
      payload.JObject? && "role" in payload.fields && role.value == payload.fields["role"]
  {
    var token := TruthyToken(stored);
    if token.None? then Some(JNull) else Get(RolePayload(token.value, codec).value, "role")
  }

  datatype Sidebar = CustomerSidebar | BankSidebar

  /** `userRole === 'bank' ? BankSidebar : Sidebar`. */
  function SidebarFor(role: Option<Json>): (s: Sidebar)
    ensures s == BankSidebar <==> role.Some? && role.value.JString? && role.value.s == "bank"
  {
    if role == Some(JString("bank")) then BankSidebar else CustomerSidebar
  }

  /**
   * The bank sidebar is chosen exactly when a token is stored and its
   * payload's `role` is the string "bank"; without a token the customer
   * sidebar is shown.
   */
  lemma SidebarRule(stored: Option<string>, codec: Codec)
    requires RoleReadable(stored, codec)
    ensures SidebarFor(Role(stored, codec)) == BankSidebar <==>
      && TruthyToken(stored).Some?
      && var payload := RolePayload(TruthyToken(stored).value, codec).value;
         payload.JObject? && "role" in payload.fields && payload.fields["role"] == JString("bank")
    ensures TruthyToken(stored).None? ==> SidebarFor(Role(stored, codec)) == CustomerSidebar
  {
  }

  // ------------------------------------------------------- transactions

  const CreditColor := "text-green-600"
  const DebitColor := "text-red-600"
  const OtherColor := "text-slate-600"
  const CreditBadge := "bg-green-100 text-green-800"
  const DebitBadge := "bg-red-100 text-red-800"
  const OtherBadge := "bg-slate-100 text-slate-800"

  /** `type?.toLowerCase()`. */
  function LowerType(t: Option<string>): Option<string> {
    if t.Some? then Some(ToLower(t.value)) else None
  }

  /** `getTransactionTypeColor`. */
  function TypeColor(t: Option<string>): (c: string)
    ensures c == CreditColor <==> LowerType(t) == Some("credit") || LowerType(t) == Some("fund")
    ensures c == DebitColor <==> LowerType(t) == Some("debit") || LowerType(t) == Some("withdrawal")
    ensures c == CreditColor || c == DebitColor || c == OtherColor
  {
    var k := LowerType(t);
    if k == Some("credit") || k == Some("fund") then CreditColor
    else if k == Some("debit") || k == Some("withdrawal") then DebitColor
    else OtherColor
  }

  /** `getTransactionTypeBadge`. */
  function TypeBadge(t: Option<string>): (b: string)
    ensures b == CreditBadge <==> LowerType(t) == Some("credit") || LowerType(t) == Some("fund")
    ensures b == DebitBadge <==> LowerType(t) == Some("debit") || LowerType(t) == Some("withdrawal")
    ensures b == CreditBadge || b == DebitBadge || b == OtherBadge
  {
    var k := LowerType(t);
    if k == Some("credit") || k == Some("fund") then CreditBadge
    else if k == Some("debit") || k == Some("withdrawal") then DebitBadge
    else OtherBadge
  }

  /** The sign before an amount: '-' only for the lower-cased type "debit". */
  function Sign(t: Option<string>): (s: string)
    ensures s == "-" <==> LowerType(t) == Some("debit")
    ensures s == "-" || s == "+"
  {
    if LowerType(t) == Some("debit") then "-" else "+"
  }

  /** The colour and the badge split the types the same way, into exactly three classes. */
  lemma ColorAndBadgeAgree(t: Option<string>)
    ensures TypeColor(t) == CreditColor <==> TypeBadge(t) == CreditBadge
    ensures TypeColor(t) == DebitColor <==> TypeBadge(t) == DebitBadge
    ensures TypeColor(t) == OtherColor <==> TypeBadge(t) == OtherBadge
    ensures TypeColor(t) in {CreditColor, DebitColor, OtherColor}
  {
  }

  /** All three rules ignore letter case. */
  lemma {:induction false} CaseInsensitive(s: string)
    ensures TypeColor(Some(s)) == TypeColor(Some(ToLower(s)))
    ensures TypeBadge(Some(s)) == TypeBadge(Some(ToLower(s)))
    ensures Sign(Some(s)) == Sign(Some(ToLower(s)))
  {
    LowerIdempotent(s);
  }

  /** A missing type is neither credit nor debit, and gets a '+'. */
  lemma MissingType()
    ensures TypeColor(None) == OtherColor && TypeBadge(None) == OtherBadge && Sign(None) == "+"
  {
  }

  /** A '-' always comes with the debit colour, but a withdrawal is red and still shows '+'. */
  lemma {:induction false} SignAndColor(t: Option<string>)
    ensures Sign(t) == "-" ==> TypeColor(t) == DebitColor
    ensures Sign(Some("withdrawal")) == "+" && TypeColor(Some("withdrawal")) == DebitColor
    ensures Sign(Some("DEBIT")) == "-"
  {
    LowerOfLower("withdrawal");
    assert ToLower("DEBIT") == "debit";
  }

  // -------------------------------------------------------------- guards

  /** What the page toasts. */
  datatype Toast =
    | InvalidAmount
    | Insufficient(available: real)
    | Added(amount: Option<real>)
    | Withdrawn(amount: Option<real>)
    | Failed(message: string)

  const AddFailed := "Failed to add funds"
  const WithdrawFailed := "Failed to withdraw funds"

  /** The shared first guard: `!formData.amount || parseFloat(formData.amount) <= 0`. */
  function AmountError(amount: string): (e: Option<Toast>)
    ensures e.None? || e == Some(InvalidAmount)
    ensures e.None? <==> amount != "" && (ParseFloat(amount).None? || ParseFloat(amount).value > 0.0)
  {
    if amount == "" || AtMostZero(ParseFloat(amount)) then Some(InvalidAmount) else None
  }

  /** The withdrawal guards: the amount, then `parseFloat(amount) > walletBalance`. */
  function WithdrawError(amount: string, balance: Option<real>): (e: Option<Toast>)
    ensures AmountError(amount).Some? ==> e == Some(InvalidAmount)
    ensures AmountError(amount).None? ==> (e.None? <==> !Exceeds(ParseFloat(amount), balance))
    ensures e.Some? && e != Some(InvalidAmount) ==>
      && ParseFloat(amount).Some? && balance.Some? && ParseFloat(amount).value > balance.value
      && e == Some(Insufficient(balance.value))
  {
    var a := ParseFloat(amount);
    if AmountError(amount).Some? then AmountError(amount)
    else if Exceeds(a, balance) then Some(Insufficient(balance.value))
    else None
  }

  /** For an amount that reads as a number, funding goes ahead exactly when it is positive. */
  lemma FundRule(amount: string)
    requires ParseFloat(amount).Some?
    ensures AmountError(amount).None? <==> ParseFloat(amount).value > 0.0
  {
  }

  /**
   * For readable amounts and balances, a withdrawal goes ahead exactly when
   * 0 < amount <= balance; a positive amount over the balance is reported
   * with the available balance.
   */
  lemma WithdrawRule(amount: string, balance: Option<real>)
    requires ParseFloat(amount).Some? && balance.Some?
    ensures WithdrawError(amount, balance).None? <==> 0.0 < ParseFloat(amount).value <= balance.value
    ensures ParseFloat(amount).value > 0.0 && ParseFloat(amount).value > balance.value ==>
      WithdrawError(amount, balance) == Some(Insufficient(balance.value))
  {
  }

  /** An empty amount is turned away by both forms. */
  lemma EmptyAmountRejected(balance: Option<real>)
    ensures AmountError("") == Some(InvalidAmount)
    ensures WithdrawError("", balance) == Some(InvalidAmount)
  {
  }

  /** A withdrawal passes every guard only when funding with the same amount would. */
  lemma WithdrawStricter(amount: string, balance: Option<real>)
    ensures WithdrawError(amount, balance).None? ==> AmountError(amount).None?
  {
  }

  // --------------------------------------------------------------- state

  /** The JSON body of a funding or withdrawal request. */
  datatype WalletBody = WalletBody(amount: Option<real>, description: string)

  datatype WalletRequest = WalletRequest(body: WalletBody, authorization: string)

  const EmptyForm: map<string, string> := map["amount" := "", "description" := ""]

  predicate HasFields(form: map<string, string>) {
    "amount" in form && "description" in form
  }

  /** `Array.isArray(data) ? data[0] : data`; `None` is the `undefined` of an empty array. */
  function WalletOf(data: Json): (w: Option<Json>)
    ensures data.JArray? && |data.items| > 0 ==> w == Some(data.items[0])
    ensures data.JArray? && |data.items| == 0 ==> w.None?
    ensures !data.JArray? ==> w == Some(data)
  {
    match data
    case JArray(items) => if |items| > 0 then Some(items[0]) else None
    case _ => Some(data)
  }

  /** The component's state: the form, the loaded wallet, the two modals and their loading flags. */
  class Page {
    var form: map<string, string>
    var wallet: Option<Json>
    var showAddFundsModal: bool
    var showWithdrawModal: bool
    var addFundsLoading: bool
    var withdrawLoading: bool

    ghost predicate Valid()
      reads this
    {
      HasFields(form)
    }

    constructor ()
      ensures Valid()
      ensures form == EmptyForm && wallet.None?
      ensures !showAddFundsModal && !showWithdrawModal && !addFundsLoading && !withdrawLoading
    {
      form := EmptyForm;
      wallet := None;
      showAddFundsModal := false;
      showWithdrawModal := false;
      addFundsLoading := false;
      withdrawLoading := false;
    }

    /** `setWallet(walletData)` after a successful wallet fetch. */
    method ShowWallet(data: Json)
      modifies this
      ensures wallet == WalletOf(data)
      ensures form == old(form) && showAddFundsModal == old(showAddFundsModal) && showWithdrawModal == old(showWithdrawModal)
      ensures addFundsLoading == old(addFundsLoading) && withdrawLoading == old(withdrawLoading)
    {
      wallet := WalletOf(data);
    }

    /** The inputs' `setFormData({ ...formData, [field]: value })`. */
    method EditField(name: string, value: string)
      requires Valid()
      modifies this
      ensures Valid() && form == SetField(old(form), name, value)
      ensures wallet == old(wallet) && showAddFundsModal == old(showAddFundsModal) && showWithdrawModal == old(showWithdrawModal)
      ensures addFundsLoading == old(addFundsLoading) && withdrawLoading == old(withdrawLoading)
    {
      form := form[name := value];
    }

    /** The cancel buttons: the modal closes and the form is emptied. */
    method CancelModal(withdraw: bool)
      modifies this
      ensures Valid() && form == EmptyForm
      ensures withdraw ==> !showWithdrawModal && showAddFundsModal == old(showAddFundsModal)
      ensures !withdraw ==> !showAddFundsModal && showWithdrawModal == old(showWithdrawModal)
      ensures wallet == old(wallet) && addFundsLoading == old(addFundsLoading) && withdrawLoading == old(withdrawLoading)
    {
      if withdraw {
        showWithdrawModal := false;
      } else {
        showAddFundsModal := false;
      }
      form := EmptyForm;
    }

    /**
     * `handleAddFunds`: returns the request it sends, if any, and the toast.
     * A bad amount sends nothing and changes nothing; a success closes the
     * modal and empties the form; a failure keeps both.
     */
    method HandleAddFunds(store: LocalStorage, reply: Reply) returns (sent: Option<WalletRequest>, toast: Toast)
      requires Valid()
      modifies this
      ensures Valid() && wallet == old(wallet)
      ensures showWithdrawModal == old(showWithdrawModal) && withdrawLoading == old(withdrawLoading)
      ensures sent.Some? <==> AmountError(old(form)["amount"]).None?
      ensures sent.None? ==>
        && toast == InvalidAmount && form == old(form)
        && showAddFundsModal == old(showAddFundsModal) && addFundsLoading == old(addFundsLoading)
      ensures sent.Some? ==>
        && sent.value == WalletRequest(
             WalletBody(ParseFloat(old(form)["amount"]), OrElse(old(form)["description"], "Wallet funding")),
             Bearer(store.GetItem(TokenKey)))
        && !addFundsLoading
      ensures sent.Some? && Succeeded(reply) ==>
        toast == Added(ParseFloat(old(form)["amount"])) && !showAddFundsModal && form == EmptyForm
      ensures sent.Some? && !Succeeded(reply) ==>
        toast == Failed(SubmitError(reply, AddFailed, AddFailed)) && form == old(form) && showAddFundsModal == old(showAddFundsModal)
    {
      var amount := form["amount"];
      if amount == "" || AtMostZero(ParseFloat(amount)) {
        return None, InvalidAmount;
      }
      addFundsLoading := true;
      var token := store.GetItem(TokenKey);
      var body := WalletBody(ParseFloat(amount), OrElse(form["description"], "Wallet funding"));
      sent := Some(WalletRequest(body, Bearer(token)));
      match reply {
        case Threw(reason) =>
          toast := Failed(OrElse(reason, AddFailed));
        case Answered(ok, message, _) =>
          if !ok {
            toast := Failed(OrElse(OrElse(message, AddFailed), AddFailed));
          } else {
            toast := Added(ParseFloat(amount));
            showAddFundsModal := false;
            form := EmptyForm;
          }
      }
      addFundsLoading := false;
    }

    /**
     * `handleWithdraw`: as funding, with the balance guard read from the
     * loaded wallet (`parseFloat(wallet?.balance || 0)`).
     */
    method HandleWithdraw(store: LocalStorage, reply: Reply) returns (sent: Option<WalletRequest>, toast: Toast)
      requires Valid()
      modifies this
      ensures Valid() && wallet == old(wallet)
      ensures showAddFundsModal == old(showAddFundsModal) && addFundsLoading == old(addFundsLoading)
      ensures sent.Some? <==> WithdrawError(old(form)["amount"], AmountOrZero(old(wallet), "balance")).None?
      ensures sent.None? ==>
        && Some(toast) == WithdrawError(old(form)["amount"], AmountOrZero(old(wallet), "balance"))
        && form == old(form)
        && showWithdrawModal == old(showWithdrawModal) && withdrawLoading == old(withdrawLoading)
      ensures sent.Some? ==>
        && sent.value == WalletRequest(
             WalletBody(ParseFloat(old(form)["amount"]), OrElse(old(form)["description"], "Wallet withdrawal")),
             Bearer(store.GetItem(TokenKey)))
        && !withdrawLoading
      ensures sent.Some? && Succeeded(reply) ==>
        toast == Withdrawn(ParseFloat(old(form)["amount"])) && !showWithdrawModal && form == EmptyForm
      ensures sent.Some? && !Succeeded(reply) ==>
        toast == Failed(SubmitError(reply, WithdrawFailed, WithdrawFailed)) && form == old(form) && showWithdrawModal == old(showWithdrawModal)
    {
      var amount := form["amount"];
      if amount == "" || AtMostZero(ParseFloat(amount)) {
        assert AmountError(amount) == Some(InvalidAmount);
        return None, InvalidAmount;
      }
      var walletBalance := AmountOrZero(wallet, "balance");
      assert AmountError(amount).None?;
      if Exceeds(ParseFloat(amount), walletBalance) {
        assert WithdrawError(amount, walletBalance) == Some(Insufficient(walletBalance.value));
        return None, Insufficient(walletBalance.value);
      }
      assert WithdrawError(amount, walletBalance).None?;
      withdrawLoading := true;
      var token := store.GetItem(TokenKey);
      var body := WalletBody(ParseFloat(amount), OrElse(form["description"], "Wallet withdrawal"));
      sent := Some(WalletRequest(body, Bearer(token)));
      match reply {
        case Threw(reason) =>
          toast := Failed(OrElse(reason, WithdrawFailed));
        case Answered(ok, message, _) =>
          if !ok {
            toast := Failed(OrElse(OrElse(message, WithdrawFailed), WithdrawFailed));
          } else {
            toast := Withdrawn(ParseFloat(amount));
            showWithdrawModal := false;
            form := EmptyForm;
          }
      }
      withdrawLoading := false;
    }
  }
}
