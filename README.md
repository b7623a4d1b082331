# LendWise client core, modelled in Dafny

LendWise is a lending web client written in React. Customers apply for
loans, browse and repay them, and fund or withdraw from a wallet. Banks
register, log in and review applications. This project models the logic
behind those pages. The models cover:

- the route guard that judges the stored bearer token;
- the token-claim reader;
- the form validators of the bank registration, bank login and loan
  application pages, and their submit handlers;
- the loan list filter;
- the repayment guard;
- the wallet's amount guards and transaction classifiers;
- the recent-loans table;
- the repayment-progress figure;
- the endpoint table and the shared request helper.

Each source file becomes one module:

| module | source file |
|---|---|
| `ProtectedRoute` | `src/components/Auth/ProtectedRoute.jsx` |
| `JwtHelper` | `src/utils/jwtHelper.js` |
| `BankRegisterPage` | `src/pages/BankRegisterPage.jsx` |
| `BankLoginPage` | `src/pages/BankLoginPage.jsx` |
| `LoanApplicationPage` | `src/pages/LoanApplicationPage.jsx` |
| `LoanPage` | `src/pages/LoanPage.jsx` |
| `RepayLoanPage` | `src/pages/RepayLoanPage.jsx` |
| `WalletPage` | `src/pages/WalletPage.jsx` |
| `LoanActivityTable` | `src/components/LoanActivityTable.jsx` |
| `LoanDetailsPage` | `src/pages/LoanDetailsPage.jsx` |
| `ApiConfig` | `src/config/api.js` |
| `ApiClient` | `src/utils/apiClient.js` |

`FormRules` holds the field rules and the error-dictionary construction that
the form pages share. Shared modules model the JavaScript semantics the pages
rely on:

- `Text`: `trim`, ASCII case mapping, single-character `replace` and
  `split`, `includes`, and `||` on strings;
- `Numbers`: `Number`, `parseFloat` and `parseInt` over decimal literals;
- `Json`: parsed values, property access, truthiness and ToNumber;
- `Storage`: `localStorage` as a class over a string map;
- `Http`: what a submit handler learns from `fetch`.

Side effects appear in two ways:

- **State:** a component whose state a handler updates is a `class`. The
  handlers are methods that state the whole new state.
- **Outside world:** the reply from the server, the clock (`Date.now()`)
  and the browser's decoders (`atob`, UTF-8 decoding, `JSON.parse`) are
  parameters. JavaScript `NaN` and `undefined` become `None`.

## Model

| member | source | states |
|---|---|---|
| Text.Trim | src/pages/BankRegisterPage.jsx:46 | trimming gives the empty string exactly when the input is all whitespace, so `!s.trim()` means "blank" |
| Text.ContainsIff | src/pages/LoanPage.jsx:72-75 | `includes` holds exactly when the term occurs at some index of the field |
| Text.Split | src/components/Auth/ProtectedRoute.jsx:14 | `split('.')` yields one more piece than there are dots, and no piece contains a dot |
| Text.SplitFront | src/utils/jwtHelper.js:9 | splitting `a.b…` where `a` has no dot gives `a` first, then the pieces of the rest |
| Text.KeepDigits | src/pages/BankRegisterPage.jsx:69 | stripping `\D` leaves only digits, never lengthens the string, and keeps every digit as many times as it occurs |
| Text.LowerIdempotent | src/pages/LoanPage.jsx:70 | lower-casing twice equals lower-casing once |
| Numbers.ParseFloatAgrees | src/pages/LoanApplicationPage.jsx:54 | on a non-blank string that `isNaN` accepts, `parseFloat` reads the same value as `Number` |
| Numbers.ParseIntAgrees | src/pages/LoanApplicationPage.jsx:68 | on a non-blank numeric string, `parseInt` is the signed whole part, and `NaN` when there are no whole digits |
| Numbers.ParseFloatStopsAtComma | src/pages/RepayLoanPage.jsx:108 | a comma ends the literal `parseFloat` reads, so the text of an array reads as its first element |
| Json.Get | src/components/Auth/ProtectedRoute.jsx:28 | a property is defined exactly when the value is an object holding the key, and then it is the stored value |
| Json.AmountOrZero | src/pages/RepayLoanPage.jsx:108 | reading an amount with a fallback of 0 gives 0 for a missing object or a missing or falsy property; a number reads as itself, a non-empty string as `parseFloat` of it, a non-empty array as its first element; `NaN` comes only from a present property that is not a number |
| Storage.LocalStorage.SetItem | src/pages/BankLoginPage.jsx:100 | the key maps to the value and every other entry is kept |
| Storage.LocalStorage.RemoveItem | src/components/Auth/ProtectedRoute.jsx:30 | only the key is dropped |
| Http.SubmitError | src/pages/BankLoginPage.jsx:92-112 | the `submit` message is never empty: the server's message if truthy, else the handler's failure text; a thrown error shows its own message or the fallback |
| Http.Bearer | src/pages/RepayLoanPage.jsx:122 | the header is `Bearer ` followed by the stored token, and reads `Bearer null` when none is stored |
| JwtHelper.ToStandardBase64 | src/utils/jwtHelper.js:10 | the result has the same length; each `-` becomes `+` and each `_` becomes `/`; no base64url-only character remains |
| JwtHelper.BinaryString | src/utils/jwtHelper.js:12 | `atob`'s string has one character per decoded byte, and each character's code is that byte |
| JwtHelper.HexValueRule | src/utils/jwtHelper.js:11 | a character reads as a hex digit exactly when its lower case is one of `0-9a-f`, and its value is that digit's position in `0123456789abcdef` |
| JwtHelper.Hex2 | src/utils/jwtHelper.js:14 | `('00' + b.toString(16)).slice(-2)` is always two characters |
| JwtHelper.HexRoundTrip | src/utils/jwtHelper.js:14 | the two hex digits of a byte read back as that byte |
| JwtHelper.PercentEncode | src/utils/jwtHelper.js:13-15 | the escaped string has three characters per byte |
| JwtHelper.PercentRoundTrip | src/utils/jwtHelper.js:11-15 | reading the `%XX` triplets back gives exactly the original bytes |
| JwtHelper.UriDecodeIsUtf8 | src/utils/jwtHelper.js:11-16 | the percent-escape round trip leaves `decodeURIComponent` as plain UTF-8 decoding of the payload bytes |
| JwtHelper.DecodeToken | src/utils/jwtHelper.js:6-22 | a missing token, or one without a `.`, decodes to `null`; otherwise a second segment that `atob` rejects, bytes that are not UTF-8, or text `JSON.parse` rejects all give `null`, and a parsed payload is returned as it is |
| JwtHelper.DecodeReadsSecondSegment | src/utils/jwtHelper.js:9-17 | a decodable second segment decodes to its payload whatever follows it; the segment count is not checked |
| JwtHelper.FirstTruthyIndex | src/utils/jwtHelper.js:32 | the index found is the first whose claim is truthy, and every earlier claim is falsy |
| JwtHelper.CustomerIdFromToken | src/utils/jwtHelper.js:29-33 | the id is `null` or truthy, and `null` whenever the token does not decode |
| JwtHelper.CustomerIdFallback | src/utils/jwtHelper.js:32 | the id is `id`, else `customerId`, else `sub`, else `null`, with the first truthy claim winning |
| JwtHelper.EmptyIdSkipped | src/utils/jwtHelper.js:32 | an empty-string `id` falls through to a truthy `customerId` |
| ProtectedRoute.Assess | src/components/Auth/ProtectedRoute.jsx:6-42 | a token is absent exactly when it is null or empty; shape errors are exactly a dot count other than two; a two-dot token is unreadable exactly when `atob` or `JSON.parse` throws on its payload or the payload is `null` |
| ProtectedRoute.IsExpired | src/components/Auth/ProtectedRoute.jsx:27-28 | only a payload holding a truthy `exp` can expire; a numeric `exp` expires exactly when it is non-zero and below the current whole second |
| ProtectedRoute.StoreAfter | src/components/Auth/ProtectedRoute.jsx:28-40 | the guard either leaves storage alone or removes exactly the token key |
| ProtectedRoute.UndecodableCleared | src/components/Auth/ProtectedRoute.jsx:21-41 | a stored two-dot token whose payload does not decode is judged unreadable, and the guard then removes exactly the token key |
| ProtectedRoute.IsTokenValid | src/components/Auth/ProtectedRoute.jsx:6-42 | true only for an accepted token; the token is removed exactly when it was unreadable or expired |
| ProtectedRoute.Render | src/components/Auth/ProtectedRoute.jsx:44-53 | the children render only for an accepted token; otherwise a replacing redirect to `/login`; storage ends as `StoreAfter` says |
| ProtectedRoute.GuardSettles | src/components/Auth/ProtectedRoute.jsx:4-53 | a second pass in the same second removes nothing more and lets through exactly what the first did |
| ProtectedRoute.ExpiryBoundary | src/components/Auth/ProtectedRoute.jsx:27-28 | a whole-number `exp` is expired exactly from millisecond `1000 * (exp + 1)`, and `exp = 0` never expires |
| ProtectedRoute.NoNumericExpNeverExpires | src/components/Auth/ProtectedRoute.jsx:28 | a missing, falsy or non-numeric `exp` never expires the token |
| ProtectedRoute.AssessThreeSegments | src/components/Auth/ProtectedRoute.jsx:14-34 | a three-segment token with a decodable payload is judged by `exp` alone; header and signature are ignored |
| ProtectedRoute.TwoSegmentsWrongShape | src/components/Auth/ProtectedRoute.jsx:14-19 | every token of two dot-free segments is turned away as wrongly shaped, whatever the segments hold |
| FormRules.EmailMatchesIff | src/pages/BankRegisterPage.jsx:60 | the direct test agrees on every string with the regular expression `^[^\s@]+@[^\s@]+\.[^\s@]+$` |
| FormRules.EmailMessage | src/pages/BankRegisterPage.jsx:56-63 | no message exactly when the email is non-blank and matches the pattern |
| FormRules.PasswordMessage | src/pages/BankRegisterPage.jsx:79-86 | no message exactly when the password has at least 6 characters; "required" exactly when it is empty |
| FormRules.RequiredMessage | src/pages/BankRegisterPage.jsx:46-49 | a message exactly when the value is blank |
| FormRules.RecordLookup | src/pages/BankRegisterPage.jsx:42-97 | with one check per field, a field has an entry exactly when its check failed, and the entry is that check's message |
| FormRules.RecordEmpty | src/pages/BankRegisterPage.jsx:106 | the error dictionary is empty exactly when every check passed, and its keys are checked fields |
| FormRules.NoteRequired | src/pages/BankRegisterPage.jsx:46-49 | the `if` records the required-field check's message |
| FormRules.NoteEmail | src/pages/BankRegisterPage.jsx:56-63 | the `if`/`else if` records the email check's message |
| FormRules.NotePassword | src/pages/BankRegisterPage.jsx:79-86 | the `if`/`else if` records the password check's message |
| FormRules.SetField | src/pages/BankRegisterPage.jsx:26-31 | the named field takes the value and every other field is kept |
| FormRules.ClearError | src/pages/BankRegisterPage.jsx:33-39 | the keys are unchanged, only the named message is blanked, and the others are kept |
| BankRegisterPage.PhoneMessage | src/pages/BankRegisterPage.jsx:65-72 | no message exactly when the phone is non-blank and has at least ten digits |
| BankRegisterPage.ConfirmMessage | src/pages/BankRegisterPage.jsx:88-95 | no message exactly when the confirmation is non-empty and equals the password |
| BankRegisterPage.Checks | src/pages/BankRegisterPage.jsx:42-97 | one check per field, in the validator's order: bank name, licence number, email, phone, head office address, password, confirmation |
| BankRegisterPage.ChecksDistinct | src/pages/BankRegisterPage.jsx:42-97 | no field is checked twice, so each field's entry is its own check's message |
| BankRegisterPage.ChecksPassIffAcceptable | src/pages/BankRegisterPage.jsx:42-97 | all seven checks pass exactly when every field meets its rule |
| BankRegisterPage.NoErrorsIffAcceptable | src/pages/BankRegisterPage.jsx:42-97 | `validateForm` returns `{}` exactly when the form is acceptable |
| BankRegisterPage.ErrorsOnFields | src/pages/BankRegisterPage.jsx:42-97 | only the seven form fields ever get a message |
| BankRegisterPage.RequiredComesFirst | src/pages/BankRegisterPage.jsx:46-95 | each blank field gets its "required" message, ahead of any format check |
| BankRegisterPage.ConfirmationRule | src/pages/BankRegisterPage.jsx:88-95 | a filled confirmation is flagged exactly when it differs from the password |
| BankRegisterPage.NotePhone | src/pages/BankRegisterPage.jsx:65-72 | the phone `if`/`else if` records the phone check's message |
| BankRegisterPage.NoteConfirm | src/pages/BankRegisterPage.jsx:88-95 | the confirmation `if`/`else if` records its check's message |
| BankRegisterPage.ValidateForm | src/pages/BankRegisterPage.jsx:42-98 | the dictionary built field by field equals the recorded checks, in the source's order |
| BankRegisterPage.BodyDropsOnlyConfirmation | src/pages/BankRegisterPage.jsx:125-132 | two forms post the same body exactly when they agree on every field but the confirmation |
| BankRegisterPage.Page.constructor | src/pages/BankRegisterPage.jsx:12-23 | every field is empty, there are no errors, and nothing is loading |
| BankRegisterPage.Page.HandleChange | src/pages/BankRegisterPage.jsx:26-40 | the field is set and only its truthy error is blanked |
| BankRegisterPage.Page.Submit | src/pages/BankRegisterPage.jsx:112-164 | once validation passed: errors cleared, the renamed fields posted, a truthy token in an ok answer stored, a failure leaving only the `submit` message, loading off at the end |
| BankRegisterPage.Page.HandleRegister | src/pages/BankRegisterPage.jsx:101-166 | posts the renamed fields exactly when there are no errors; a truthy token in an ok answer is stored; a failure leaves only the `submit` message |
| BankLoginPage.NoErrorsIffAcceptable | src/pages/BankLoginPage.jsx:35-58 | `{}` exactly when the email is valid and the password has at least 6 characters; only the two fields get messages |
| BankLoginPage.FieldMessages | src/pages/BankLoginPage.jsx:39-55 | each field's message, with "required" taking precedence over the format or length message |
| BankLoginPage.ValidateForm | src/pages/BankLoginPage.jsx:35-58 | the dictionary built field by field equals the recorded checks |
| BankLoginPage.BodyKeepsBothFields | src/pages/BankLoginPage.jsx:84-87 | the posted body determines both form values |
| BankLoginPage.Page.constructor | src/pages/BankLoginPage.jsx:9-15 | both fields are empty, there are no errors, and nothing is loading |
| BankLoginPage.Page.HandleChange | src/pages/BankLoginPage.jsx:18-32 | the field is set and only its truthy error is blanked |
| BankLoginPage.Page.HandleLogin | src/pages/BankLoginPage.jsx:61-122 | posts exactly when there are no errors; storage changes only for an ok answer with a truthy token |
| LoanApplicationPage.AmountMessage | src/pages/LoanApplicationPage.jsx:50-57 | "required" exactly for a blank amount; an accepted amount is a decimal literal whose value `parseFloat` reads and which is positive |
| LoanApplicationPage.AmountRule | src/pages/LoanApplicationPage.jsx:50-57 | an amount passes exactly when it is a non-blank decimal literal with a positive value, which `parseFloat` then reads |
| LoanApplicationPage.TermAsWrittenAcceptsNaN | src/pages/LoanApplicationPage.jsx:68 | the term check as written accepts ".5" although `parseInt(".5")` is `NaN` |
| LoanApplicationPage.TermMessageAsWritten | src/pages/LoanApplicationPage.jsx:64-71 | the rule as written: "required" exactly for a blank term; an accepted term is numeric, and `parseInt` of it is `NaN` or at least 1 |
| LoanApplicationPage.TermMessage | src/pages/LoanApplicationPage.jsx:64-71 | the corrected rule: "required" exactly for a blank term; an accepted term is numeric and `parseInt` of it is at least 1 |
| LoanApplicationPage.TermRulesDiffer | src/pages/LoanApplicationPage.jsx:68 | the two rules disagree exactly on a non-blank numeric term that `parseInt` reads as `NaN`, which the written rule accepts and the corrected rule rejects |
| LoanApplicationPage.AsWrittenTermSent | src/pages/LoanApplicationPage.jsx:68 | a term the written rule accepts is sent (line 120, `parseInt`) as `NaN` or as a whole number of at least 1, and the `NaN` case is one the corrected rule rejects |
| LoanApplicationPage.TermRule | src/pages/LoanApplicationPage.jsx:64-71 | the corrected term passes exactly when its integer part is at least 1, and that is what is sent |
| LoanApplicationPage.TermRejectsHalf | src/pages/LoanApplicationPage.jsx:68 | "0.5" is rejected, its integer part being 0 |
| LoanApplicationPage.TermTakesWholePart | src/pages/LoanApplicationPage.jsx:68 | "1.9" is accepted and taken as one month |
| LoanApplicationPage.Checks | src/pages/LoanApplicationPage.jsx:47-81 | one check each for amount, type and term, in the validator's order, the term checked by the corrected rule `TermMessage` |
| LoanApplicationPage.ChecksDistinct | src/pages/LoanApplicationPage.jsx:47-81 | no field is checked twice |
| LoanApplicationPage.NoErrorsIffAcceptable | src/pages/LoanApplicationPage.jsx:47-81 | `{}` exactly when the amount, type and term all pass, the term under the corrected rule |
| LoanApplicationPage.ErrorsOnCheckedFields | src/pages/LoanApplicationPage.jsx:47-81 | `notes` never gets a message |
| LoanApplicationPage.LoanTypeRequired | src/pages/LoanApplicationPage.jsx:59-62 | an empty loan type gets "Loan type is required" |
| LoanApplicationPage.RequiredComesFirst | src/pages/LoanApplicationPage.jsx:50-71 | a blank amount or term gets its "required" message before the numeric checks |
| LoanApplicationPage.ValidateForm | src/pages/LoanApplicationPage.jsx:47-81 | the dictionary built field by field equals the recorded checks, with the corrected term rule |
| LoanApplicationPage.AcceptedBody | src/pages/LoanApplicationPage.jsx:116-121 | a form that passes sends a positive amount equal to its numeric value, a whole term of at least 1 (under the corrected term rule) and the chosen type |
| LoanApplicationPage.NotesIgnored | src/pages/LoanApplicationPage.jsx:116-121 | `notes` is neither validated nor sent |
| LoanApplicationPage.Page.constructor | src/pages/LoanApplicationPage.jsx:14-22 | the form starts empty, with no errors and nothing loading |
| LoanApplicationPage.Page.HandleChange | src/pages/LoanApplicationPage.jsx:32-45 | the field is set and only its truthy error is blanked |
| LoanApplicationPage.Page.Submit | src/pages/LoanApplicationPage.jsx:94-157 | once validation passed: without a truthy token only `submit` is set; otherwise the body is sent with `Bearer <token>`, success resets all four fields, failure sets `submit`; earlier messages stay |
| LoanApplicationPage.Page.HandleSubmit | src/pages/LoanApplicationPage.jsx:83-158 | validating the term by the corrected rule, sends exactly when there are no errors and a truthy token is stored, with `Bearer <token>`; without a token only `submit` is set; success resets all four fields |
| LoanPage.Keep | src/pages/LoanPage.jsx:65 | `filter` keeps exactly the elements that satisfy the condition, each as many times as it occurs in the input, and nothing else |
| LoanPage.KeepIsSubsequence | src/pages/LoanPage.jsx:65 | filtering keeps the remaining elements in their original order |
| LoanPage.KeepKeep | src/pages/LoanPage.jsx:64-77 | the status filter followed by the search filter equals one filter by both conditions |
| LoanPage.KeepAll | src/pages/LoanPage.jsx:61 | a filter that every element passes changes nothing |
| LoanPage.FilterLoans | src/pages/LoanPage.jsx:60-81 | the shown loans are fetched loans, never more copies of one than fetched; with a tab other than `all` each has that status; with a non-blank search each matches the lower-cased term |
| LoanPage.ShowsAllByDefault | src/pages/LoanPage.jsx:60-81 | with the `all` tab and a blank search, every loan is shown in order |
| LoanPage.FilterKeepsOrder | src/pages/LoanPage.jsx:60-81 | the shown loans are a subsequence of the fetched loans |
| LoanPage.ShownIff | src/pages/LoanPage.jsx:60-81 | a loan is shown exactly when it is fetched, has the tab's status (case-sensitive) unless the tab is `all`, and, for a non-blank search, one of its four fields contains the lower-cased term |
| LoanPage.MissingFieldsNeverMatch | src/pages/LoanPage.jsx:71-77 | a loan lacking all four searched fields is hidden by any non-blank search |
| LoanPage.ActiveTab | src/pages/LoanPage.jsx:188-189 | the `active` tab shows exactly the loans whose status is `active` |
| RepayLoanPage.PaymentError | src/pages/RepayLoanPage.jsx:97-111 | the method message comes exactly when no method is chosen; a passing form has a non-empty amount that is not at most 0; the balance message only for a readable amount above a readable balance; no other message |
| RepayLoanPage.PaymentRule | src/pages/RepayLoanPage.jsx:97-111 | for readable numbers, a payment goes ahead exactly when a method is chosen and 0 < amount <= balance, checked in that order |
| RepayLoanPage.EmptyAmountRejected | src/pages/RepayLoanPage.jsx:102-105 | once a method is chosen, an empty amount is rejected whatever the balance |
| RepayLoanPage.UnreadableAmountPasses | src/pages/RepayLoanPage.jsx:102-111 | an amount that `parseFloat` reads as `NaN` passes every check |
| RepayLoanPage.BodyIgnoresMethod | src/pages/RepayLoanPage.jsx:124-127 | the body carries the route's loan id and the amount, and nothing of the payment method |
| RepayLoanPage.PaymentFailure | src/pages/RepayLoanPage.jsx:132-146 | a failed answer shows the server's message when it is truthy and "Failed to process payment" otherwise; a thrown error shows its own message |
| RepayLoanPage.Page.constructor | src/pages/RepayLoanPage.jsx:15-22 | both fields start empty, with no error, no success flag and no loan loaded |
| RepayLoanPage.Page.ShowLoan | src/pages/RepayLoanPage.jsx:67-69 | the loan shown is `data.loan` when truthy, else `data` itself; a `null` body throws on `data.loan`, so the `TypeError` message is shown and the loan is left as it was |
| RepayLoanPage.Page.HandleInputChange | src/pages/RepayLoanPage.jsx:84-91 | the field is set and the error is cleared |
| RepayLoanPage.Page.HandleSubmitPayment | src/pages/RepayLoanPage.jsx:93-153 | sends exactly when the guard chain passes against the loaded balance; success sets `success` and empties the form; failure shows the failure message |
| WalletPage.Role | src/pages/WalletPage.jsx:32-37 | `null` without a truthy token; otherwise the payload's `role` property, defined only when the payload is an object holding `role` |
| WalletPage.SidebarFor | src/pages/WalletPage.jsx:267 | the bank sidebar exactly for the string "bank", the customer sidebar for any other role |
| WalletPage.SidebarRule | src/pages/WalletPage.jsx:32-37 | with line 267, the bank sidebar is chosen exactly when a stored token's payload has `role` equal to "bank"; without a token the customer sidebar is shown |
| WalletPage.TypeColor | src/pages/WalletPage.jsx:232-243 | green exactly for "credit" and "fund", red exactly for "debit" and "withdrawal", in any letter case; slate otherwise |
| WalletPage.TypeBadge | src/pages/WalletPage.jsx:245-256 | the green badge exactly for "credit" and "fund", the red badge exactly for "debit" and "withdrawal", in any letter case; slate otherwise |
| WalletPage.Sign | src/pages/WalletPage.jsx:441 | `-` exactly for "debit" in any letter case, `+` otherwise |
| WalletPage.ColorAndBadgeAgree | src/pages/WalletPage.jsx:232-256 | the colour and the badge split transaction types into the same three classes |
| WalletPage.CaseInsensitive | src/pages/WalletPage.jsx:232-256 | the colour, the badge and the sign ignore letter case |
| WalletPage.MissingType | src/pages/WalletPage.jsx:232-256 | a missing type gets the neutral colour and badge and a `+` |
| WalletPage.SignAndColor | src/pages/WalletPage.jsx:441 | a `-` always comes with the debit colour, but a withdrawal is red and still shows `+` |
| WalletPage.AmountError | src/pages/WalletPage.jsx:116-119 | the only refusal is the invalid-amount toast, and the amount passes exactly when it is non-empty and `parseFloat` reads it as `NaN` or as a positive number |
| WalletPage.WithdrawError | src/pages/WalletPage.jsx:160-170 | an amount refusal comes first; after it, the withdrawal is refused exactly when the amount exceeds the balance, and that refusal reports the balance |
| WalletPage.FundRule | src/pages/WalletPage.jsx:116-119 | for a readable amount, funding goes ahead exactly when it is positive |
| WalletPage.WithdrawRule | src/pages/WalletPage.jsx:160-170 | for readable numbers, a withdrawal goes ahead exactly when 0 < amount <= balance; too large an amount reports the available balance |
| WalletPage.EmptyAmountRejected | src/pages/WalletPage.jsx:116-119 | an empty amount is rejected by both forms |
| WalletPage.WithdrawStricter | src/pages/WalletPage.jsx:157-170 | a withdrawal passes its guards only if funding with the same amount would |
| WalletPage.WalletOf | src/pages/WalletPage.jsx:81 | an array response yields its first element, or nothing when empty; any other response is the wallet |
| WalletPage.Page.constructor | src/pages/WalletPage.jsx:16-25 | the form starts empty, with no wallet, closed modals and nothing loading |
| WalletPage.Page.ShowWallet | src/pages/WalletPage.jsx:81-82 | the wallet becomes the unwrapped response and nothing else changes |
| WalletPage.Page.EditField | src/pages/WalletPage.jsx:476 | the edited field is set and nothing else changes |
| WalletPage.Page.CancelModal | src/pages/WalletPage.jsx:492-499 | only the cancelled modal closes, and the form is emptied |
| WalletPage.Page.HandleAddFunds | src/pages/WalletPage.jsx:113-155 | sends exactly when the amount guard passes, with "Wallet funding" as the default description; success closes the modal and empties the form; failure toasts the message |
| WalletPage.Page.HandleWithdraw | src/pages/WalletPage.jsx:157-206 | sends exactly when the amount and balance guards pass, the balance being the wallet's `balance` read with a fallback of 0; a refusal toasts that guard's message |
| LoanActivityTable.FormatLoanStatus | src/components/LoanActivityTable.jsx:25-28 | a falsy status is "Unknown"; otherwise the label has the status's length and is capitalized |
| LoanActivityTable.LabelSpellsStatus | src/components/LoanActivityTable.jsx:27 | the label differs from the status only in letter case |
| LoanActivityTable.LabelIsTheCapitalizedSpelling | src/components/LoanActivityTable.jsx:25-28 | the label is the only capitalized string that lower-cases like the status |
| LoanActivityTable.FormatIdempotent | src/components/LoanActivityTable.jsx:25-28 | formatting a label again changes nothing |
| LoanActivityTable.StatusButtonColor | src/components/LoanActivityTable.jsx:9-23 | green exactly for "completed", yellow exactly for "pending" and red exactly for "overdue", in any letter case; `active` and a missing status get the neutral colour |
| LoanActivityTable.ButtonColorRule | src/components/LoanActivityTable.jsx:9-23 | the colour ignores case; the neutral colour is exactly every status except completed, pending and overdue, including `active` and a missing status |
| LoanActivityTable.Rows | src/components/LoanActivityTable.jsx:78-88 | one row per loan among the first five, each built from the loan at the same position |
| LoanActivityTable.RowsRule | src/components/LoanActivityTable.jsx:78-88 | the table shows the first at most five loans in order, keeping id and raw status, with the formatted status and the type or "Unknown Loan" |
| LoanActivityTable.RowsIgnoreTail | src/components/LoanActivityTable.jsx:80 | loans after the fifth never reach the table |
| LoanActivityTable.Table.constructor | src/components/LoanActivityTable.jsx:5-7 | the state starts from the `loans` and `loading` props, with no error |
| LoanActivityTable.Table.FetchLoans | src/components/LoanActivityTable.jsx:51-102 | no request is made without a token; a throw or a non-ok status other than 404 empties the table with an error; a usable `loans` array replaces the rows; loading always ends false |
| LoanDetailsPage.Round | src/pages/LoanDetailsPage.jsx:198 | `Math.round` gives the integer within half a unit, with halves rounded up |
| LoanDetailsPage.RepaymentProgress | src/pages/LoanDetailsPage.jsx:192-199 | no loan, or a zero principal, gives 0 |
| LoanDetailsPage.PercentEnds | src/pages/LoanDetailsPage.jsx:198 | nothing outstanding is 100; everything outstanding is 0 |
| LoanDetailsPage.PercentBounds | src/pages/LoanDetailsPage.jsx:198 | with a balance between 0 and the total, progress lies in 0..100 |
| LoanDetailsPage.PercentUnclamped | src/pages/LoanDetailsPage.jsx:198 | a balance above the total gives at most 0, and below 0 once it exceeds the total by more than half a percent |
| LoanDetailsPage.PercentMonotone | src/pages/LoanDetailsPage.jsx:198 | a larger outstanding balance never gives more progress |
| LoanDetailsPage.AmountPaid | src/pages/LoanDetailsPage.jsx:382 | a loan without `amount` or `outstandingBalance` shows `NaN`, and a figure is shown only when the interest reads as a number |
| LoanDetailsPage.ProgressIsAmountPaidShare | src/pages/LoanDetailsPage.jsx:192-199 | for numeric fields, the progress is the Amount Paid figure of line 382 as a rounded share of principal plus interest |
| LoanDetailsPage.StatusColor | src/pages/LoanDetailsPage.jsx:201-212 | green, yellow and red exactly for "completed", "pending" and "failed" in any letter case; grey for a missing status |
| LoanDetailsPage.StatusColorRule | src/pages/LoanDetailsPage.jsx:201-212 | the colour ignores case; grey is exactly every status except completed, pending and failed |
| LoanDetailsPage.Recent | src/pages/LoanDetailsPage.jsx:402 | the first `min(n, 10)` transactions, unchanged and in order |
| ApiConfig.BaseUrl | src/config/api.js:1 | the environment's value when it is truthy, otherwise `http://localhost:2010`; never empty |
| ApiConfig.ProfileById | src/config/api.js:14 | the URL starts with `base + "/api/customers/profile/"` and ends with the id |
| ApiConfig.LoanById | src/config/api.js:23-25 | the URL starts with the loan's own path, and is exactly that path when the customer id is missing or empty |
| ApiConfig.RepaymentHistory | src/config/api.js:27 | the URL starts with the loan's path and ends with `/repayment_history` |
| ApiConfig.BankLoanDetails | src/config/api.js:45 | the URL starts with `base + "/api/banks/loans/"` and ends with the loan id |
| ApiConfig.ApproveLoan | src/config/api.js:43 | the URL starts with the bank's loan path and ends with `/approve` |
| ApiConfig.RejectLoan | src/config/api.js:44 | the URL starts with the bank's loan path and ends with `/reject` |
| ApiConfig.EverythingUnderBase | src/config/api.js:3-47 | every entry and every built URL starts with `base + "/api/"` |
| ApiConfig.BuildersExtendRoutes | src/config/api.js:13-27 | the id builders extend their fixed entries; a falsy customer id drops the customer segment |
| ApiConfig.ApproveRejectShareDetails | src/config/api.js:43-45 | approve and reject are the loan-details URL plus a distinct final segment |
| ApiConfig.IdsRecoverable | src/config/api.js:14-27 | distinct ids give distinct profile and repayment-history URLs |
| ApiClient.DefaultHeaders | src/utils/apiClient.js:12-18 | always JSON content; `Authorization` exactly when the token is truthy, as `Bearer <token>`; no other headers |
| ApiClient.Spread | src/utils/apiClient.js:21-24 | the later object's keys win; keys only the earlier object has are kept |
| ApiClient.BuildRequest | src/utils/apiClient.js:20-26 | the URL, verb and body are the caller's; caller headers are sent as given; without them the JSON content type is sent, and `Authorization` exactly when the token is truthy |
| ApiClient.CallerHeadersReplaceDefaults | src/utils/apiClient.js:20-26 | because `...options` comes last, caller headers replace the merged ones entirely; without them the defaults are sent |
| ApiClient.AuthorizationRule | src/utils/apiClient.js:10-18 | without caller headers, the token is sent exactly when it is truthy, with the JSON content type |
| ApiClient.WithVerb | src/utils/apiClient.js:40-67 | the helper's verb and body apply unless the caller's options name others |
| ApiClient.GetRequest | src/utils/apiClient.js:40-45 | the endpoint as given, the verb GET unless the caller names one, and the caller's body if any |
| ApiClient.PostRequest | src/utils/apiClient.js:50-56 | the endpoint as given, the verb POST unless the caller names one, and the encoded body unless the caller gives one |
| ApiClient.PutRequest | src/utils/apiClient.js:61-67 | the endpoint as given, the verb PUT unless the caller names one, and the encoded body unless the caller gives one |
| ApiClient.VerbsAndBodies | src/utils/apiClient.js:40-67 | `get`, `post` and `put` send their own verb, the encoded body for `post` and `put`, and the endpoint unchanged, unless overridden |
| ApiClient.OutcomeOf | src/utils/apiClient.js:28-34 | an ok answer returns the data; a non-ok answer raises `data.message` when truthy, else "API request failed"; a `null` body throws on `data.message` and raises that `TypeError`'s message; a throw propagates |
| ApiClient.ApiCall | src/utils/apiClient.js:9-35 | the request is built from the stored token and the options; the call returns exactly when the answer is ok |

## Left out

- Rendering (JSX), navigation, toasts as UI and `console` logging are not modelled. Toasts appear as returned values.
- `fetch`, `response.json()` and `async` timing are replaced by the reply each handler receives. The refetch after a wallet success, and `setTimeout` before navigating, are not modelled.
- The data-loading effects are left out. These are the wallet page's `fetchWalletData`, `fetchWallet` error path and `fetchTransactions`, the repay page's `fetchLoanDetails` request, the loan page's `fetchAllLoans` (including its `data.loans || data.data || []` unwrapping), and the loan details page's fetches. Only the state updates they end with are modelled (`ShowWallet`, `ShowLoan`).
- Currency and date formatting (`Intl.NumberFormat`, `toFixed`, `toLocaleDateString`) are not modelled. Rows keep the raw amount and date.
- Numbers are exact reals. Exponent, hexadecimal and `Infinity` literals, IEEE rounding and negative zero are not modelled.
- Case mapping covers ASCII letters only. String length counts code points, not UTF-16 units.
- Message and token fields of a reply are strings, with `""` standing for a missing or falsy value. Non-string messages are not modelled.
- `LoanActivityTable` loans are records with string statuses. Non-object entries, non-string statuses and a `null` body are not modelled.
- `JSON.stringify` is not modelled. `NaN` amounts are carried as `None`, which it writes as `null`.
- `ApiClient.Options` carries only `headers`, `method` and `body`. Other `fetch` options are not modelled. A `headers` property that is present but `undefined` is treated as missing.
- `ApiConfig` ids are the strings the template literal prints. How non-string ids print is not modelled.
- `JwtHelper.DecodeUriComponent` reads only strings made of `%XX` triplets. Only those reach it, because the encoding step produces them.
- The `atob`, UTF-8 and `JSON.parse` decoders are parameters of type `Codec`. Only their success or failure is modelled.
- `ProtectedRoute` and `WalletPage` parse `atob`'s binary string without UTF-8 decoding, as the source does. `WalletPage.RolePayload` also skips the base64url substitution, as the source does.
- `WalletPage.Role` requires that the payload parses. When the source's `role()` throws, the page crashes; that case is not modelled.
- The customer header's logout, `onLoansLoad`, and the `String()` conversion of a thrown error's message are not modelled.
- RepayLoanPage.PaymentRule: stated only for an amount and a balance that read as numbers. The amount input is `type="number"`, so unreadable text does not reach it through the page. `UnreadableAmountPasses` states the `NaN` case separately.
- WalletPage.WithdrawRule: stated only for readable numbers, for the same reason.
- WalletPage.FundRule: stated only for a readable amount, for the same reason.
- LoanApplicationPage.Checks: the term check is the corrected rule `TermMessage`, not the rule written at line 68. `TermRulesDiffer` states on which terms the two disagree; `TermMessageAsWritten` and `AsWrittenTermSent` state what the written rule accepts and sends.
- LoanApplicationPage.Acceptable: uses the corrected term rule, for the same reason.
- LoanApplicationPage.NoErrorsIffAcceptable: uses the corrected term rule, so a non-blank numeric term that `parseInt` reads as `NaN` counts as an error here, though the written rule lets it through.
- LoanApplicationPage.ValidateForm: builds the dictionary with the corrected term rule.
- LoanApplicationPage.AcceptedBody: promises a whole term of at least 1 under the corrected rule. Under the written rule, `tenureMonth` can also be `NaN`, as `AsWrittenTermSent` states.
- LoanApplicationPage.Page.HandleSubmit: validates with the corrected term rule. A term such as ".5" is refused here, but the written page posts it with `tenureMonth: null`.
- LoanApplicationPage.Page.Submit: sends only forms that passed the corrected rule.
- The `TypeError` messages for reading a property of `null` use the V8 wording. Other engines word them differently.
- LoanDetailsPage.RepaymentProgress: its contract states only the zero cases. The general case is stated by `ProgressIsAmountPaidShare` for numeric fields, and `NaN` results are `None`.

## Findings

| source | as written | input that shows it | evidently intended | confidence | as-written member | corrected member |
|---|---|---|---|---|---|---|
| src/pages/LoanApplicationPage.jsx:68 | the term is rejected when `isNaN(term)` or `parseInt(term) <= 0`, but `NaN <= 0` is false, so a numeric term without whole digits passes | loanTerm ".5": `Number(".5")` is 0.5, so it passes; `parseInt(".5")` is `NaN`, so `tenureMonth` is posted as `null` | a term passes only when it parses to a whole number of months of at least 1 | not executed | LoanApplicationPage.TermAsWrittenAcceptsNaN | LoanApplicationPage.TermRule |
