# bankapp ledger model

A Dafny model of the core of a small in-memory bank service written in Go. The
bank keeps users, accounts, cards, an append-only transaction log and loans in
one storage object. HTTP handlers open accounts, issue cards, and make
transfers, card payments, deposits and loans. They also report a user's
financial summary and an account's transaction history, newest first. Loans
are priced from a key rate held in a one-hour cache.

Layout:

- `models.dfy` (`Models`): the records (users, accounts, cards, transactions,
  loans, payments), the well-formedness of a ledger entry, and the net flow of
  the log into an account.
- `aggregates.dfy` (`Aggregates`): sums and counts over the values of a map, in
  any key order, as Go's map and slice ranges produce them.
- `calendar.dfy` (`Calendar`): the part of Go's `time.Date` that the card-expiry
  check uses, including month and day normalisation.
- `services.dfy` (`KeyRate`): the key-rate cache, as a class with a pure
  specification (`Lookup`, `Replay`).
- `invariant.dfy` (`LedgerInvariant`): the ledger invariant, the lemmas that each
  kind of posting keeps it, and conservation of money.
- `handlers.dfy` (`Ledger`): the validation order of each handler, the in-place
  newest-first sort, and the `Storage` class with the handlers as methods.

Money is an exact `real`, as the Go code uses an exact decimal type. Instants
are integers counting nanoseconds since the Unix epoch. Every handler takes the
identifiers it would generate (`txId`, `loanId`, ...) and the current instant
`now` as parameters.

The ledger invariant (`LedgerValid`, held by `Storage.Valid()`) has six parts:

- no account has the empty id, which marks the outside world;
- each account is stored under its own id;
- no balance is negative;
- every balance equals the net flow of the logged entries into its account;
- every entry is well formed and names only existing accounts;
- every loan belongs to an existing user and account and still owes its whole
  amount.

Every state-changing handler keeps it. From it, `Conservation` proves that all
balances together equal deposits plus loan disbursements minus card payments.

## Model

| member | source | states |
|---|---|---|
| Models.NetFlowAppend | models.go:35-43 | Logging one more entry changes every account's net flow by exactly that entry's flow into it. |
| Models.NetFlowUnnamed | models.go:35-43 | An account that no logged entry names has a net flow of zero. |
| Aggregates.SumOnRemove | handlers.go:527-530 | A sum over a user's accounts can take any account first, so the total does not depend on iteration order. |
| Aggregates.CountPositiveOnRemove | handlers.go:532-541 | A count of loans owing a positive amount can take any loan first, so the count does not depend on iteration order. |
| Calendar.Date | handlers.go:239 | Go's `time.Date` in UTC: months outside 1..12 carry whole years, and day 0 is the last day of the previous month. Every date falls on a whole second. |
| Calendar.CardExpiry | handlers.go:238-243 | A card is valid until 23:59:59 on the day before the first of the month after its expiry month; the deadline is always the last second of a day. |
| Calendar.ExpiryPrecedesNextMonth | handlers.go:238-243 | A card's deadline is one second before midnight opening the following month, whatever the month number. |
| Calendar.ExpiryWithinMonth | handlers.go:238-243 | For an expiry month 1..12 the deadline lies inside that month: on or after its first midnight and before the next month's. |
| Calendar.MonthHasDays | handlers.go:239 | In the Gregorian calendar of `time.Date` every month 1..12 starts at least a day before the next one, December included. |
| Calendar.MonthCarry | handlers.go:239 | Month `m + 12` of a year is month `m` of the next year, for every month number, day and time. |
| Calendar.DecemberExpiry | handlers.go:239 | A card expiring 12/2025 is valid until 2025-12-31T23:59:59Z: month 13 carries into January of the next year. |
| Calendar.LeapFebruaryExpiry | handlers.go:239 | A February card's deadline is the 29th in leap years (2024 and 2000). |
| Calendar.CommonFebruaryExpiry | handlers.go:239 | A February card's deadline is the 28th in a common year (2023). |
| KeyRate.Lookup | services.go:50-63 | One lookup returns the rate the cell then holds, and that rate is nonzero. The cell is either left as it was or refilled with the fixed rate stamped `now`. |
| KeyRate.EmptyCellRefreshes | services.go:51 | A zero cached rate counts as empty whatever its age: the lookup fetches and caches the fixed rate. |
| KeyRate.SecondLookupWithinHour | services.go:50-54 | A second lookup less than an hour after the cell was last filled (for an empty or stale cell, the first lookup) returns the same rate and leaves the cache as it was. |
| KeyRate.ReplayWithinHour | services.go:50-54 | Any sequence of lookups within the hour after a nonzero rate was cached returns that rate every time and never changes the cache. |
| KeyRate.ReplayRates | services.go:46-63 | Every rate any sequence of lookups returns is the initially cached rate or the fixed 16; after one lookup the cache is never empty. |
| KeyRate.KeyRateCache.constructor | services.go:36-39 | The cache starts with a zero rate stamped with Go's zero time. |
| KeyRate.KeyRateCache.GetKeyRate | services.go:46-63 | A cached nonzero rate under an hour old is returned with the cache untouched; otherwise the fixed rate 16 is returned and cached with the current time; the call never fails. |
| LedgerInvariant.TransferPreservesTotal | handlers.go:324-329 | Debiting the source and crediting the destination by the same amount leaves the total of all balances unchanged. |
| LedgerInvariant.PostingKeepsValid | handlers.go:324-341 | Logging a well-formed entry between existing accounts, with every balance moved by the entry's flow and none negative, keeps the ledger invariant. |
| LedgerInvariant.TransferKeepsValid | handlers.go:324-341 | A transfer that passed the funds check, applied and logged, keeps the ledger invariant. |
| LedgerInvariant.CreditKeepsValid | handlers.go:362-385 | Money from outside credited to an existing account and logged (deposit or loan disbursement) keeps the ledger invariant. |
| LedgerInvariant.DebitKeepsValid | handlers.go:253-275 | A card payment debited from an account holding at least the amount, and logged, keeps the ledger invariant; no balance goes negative. |
| LedgerInvariant.LoanKeepsValid | handlers.go:437-453 | Storing a loan for an existing user and account that owes its whole positive amount keeps the ledger invariant. |
| LedgerInvariant.OpeningKeepsValid | handlers.go:131-142 | Opening an account with a fresh id and zero balance keeps the ledger invariant, because no logged entry names the new account. |
| LedgerInvariant.NetInflowAppend | models.go:35-43 | Logging one more entry changes the bank's net inflow by what the entry brings in from outside. |
| LedgerInvariant.Conservation | models.go:35-43 | In a valid ledger the balances of all accounts add up to deposits plus loan disbursements minus card payments; transfers contribute nothing. |
| Ledger.AnnualRate | handlers.go:421-429 | A loan is priced at the key rate plus 5, and at 15 when the key rate lookup fails. |
| Ledger.UserAccountIds | handlers.go:524 | The user's accounts as the summary collects them. The contract states that only stored ids are listed; the definition selects the accounts the user owns. |
| Ledger.UserLoanIds | handlers.go:525 | The user's loans as the summary collects them. The contract states that only stored ids are listed; the definition selects the loans the user took. |
| Ledger.AccountTransactions | handlers.go:507 | The account's history before sorting: no longer than the log, and every listed entry is logged and involves the account. |
| Ledger.AccountTransactionsMembership | handlers.go:507 | An entry is listed for an account exactly when it is logged and has that account as source or destination. |
| Ledger.SortNewestFirst | handlers.go:509-512 | Sorting in place leaves no entry older than one after it, and the result is a permutation of the input. |
| Ledger.TransferCheck | handlers.go:291-321 | A transfer is accepted exactly when the accounts differ, the amount is positive, both accounts exist and the source holds at least the amount. |
| Ledger.TransferCheckCases | handlers.go:291-321 | Each transfer refusal (same account, non-positive amount, unknown source, unknown destination, insufficient funds) happens exactly when the earlier checks pass and its own fails. |
| Ledger.PaymentCheck | handlers.go:226-256 | A card payment is accepted exactly when the amount is positive, the card is known, `now` is not past the card's deadline, its account exists and holds at least the amount. |
| Ledger.PaymentCheckCases | handlers.go:226-256 | Each card-payment refusal happens exactly when the earlier checks pass and its own fails, in the handler's order. |
| Ledger.DepositCheck | handlers.go:357-371 | A deposit is refused as non-positive exactly when the amount is not positive, as an unknown account exactly when the amount is positive and the account is missing, and accepted otherwise. |
| Ledger.LoanCheck | handlers.go:401-417 | A loan application is refused for bad terms, then an unknown user, then an unknown account, each exactly when the earlier checks pass; accepted otherwise. The account need not belong to the user. |
| Ledger.Storage.constructor | main.go:20 | The storage starts empty and valid. |
| Ledger.Storage.AddUser | handlers.go:66-69 | A user with a fresh id is stored and nothing else changes; the invariant is kept. |
| Ledger.Storage.CreateAccount | handlers.go:117-146 | An empty user id is refused with nothing changed; otherwise a zero-balance account with the given id, owner and number is stored and returned, and nothing else changes. |
| Ledger.Storage.GenerateCard | handlers.go:160-194 | A card for an unknown account is refused with nothing changed; otherwise the card is stored under its number with its CVV and returned with the CVV masked as `***`. |
| Ledger.Storage.UpdateAccountBalance | handlers.go:363-372 | The balance helper adds the signed amount to an existing account and changes nothing else; a missing account is reported and nothing changes. |
| Ledger.Storage.AddTransaction | handlers.go:385 | The log helper appends the entry and changes nothing else. |
| Ledger.Storage.AddLoan | handlers.go:449-452 | The loan helper stores the loan under its id and changes nothing else. |
| Ledger.Storage.Transfer | handlers.go:282-345 | The outcome is the transfer check on the accounts before the call. A refusal changes nothing. Success debits the source, credits the destination and appends one transfer entry describing both account numbers. The ledger stays valid. |
| Ledger.Storage.PostTransfer | handlers.go:324-341 | The accepted transfer's effect: exactly the two balances move and one entry is appended; the invariant is kept. |
| Ledger.Storage.PayWithCard | handlers.go:217-279 | The outcome is the card-payment check. A refusal changes nothing. Success debits the card's account by the amount and appends one payment entry to the merchant with an external destination. The ledger stays valid. |
| Ledger.Storage.Deposit | handlers.go:348-389 | The outcome is the deposit check. A refusal changes nothing. Success credits the account and appends one deposit entry with an external source naming the account number. The ledger stays valid. |
| Ledger.Storage.ApplyLoan | handlers.go:392-478 | The application succeeds exactly when the loan check passes, and every refusal is that check's error (bad terms, an unknown user or an unknown account, in that order) with neither storage nor rate cache changed. So the disbursement failure is never returned. On success the rate cache takes one lookup step and the rate is the key rate plus 5. The stored loan owes its whole amount and carries the schedule of the amortization functions. The account is credited and one disbursement entry naming the loan is appended. The ledger stays valid. |
| Ledger.Storage.FinancialSummary | handlers.go:519-554 | The totals are the sums over exactly the user's accounts and loans, in any order, and the account count is their number. In a valid ledger both totals are non-negative and every loan counts as active. |
| Ledger.Storage.TransactionHistory | handlers.go:497-516 | An unknown account is refused. Otherwise the result is newest first and is a permutation of the account's logged entries: an entry appears exactly when it is logged and involves the account. |

## Left out

- HTTP decoding, JSON responses, status codes and log lines are not modelled. Each modelled error response is one `LedgerError` constructor, with its status and message noted beside it.
- Registration and login are not modelled: the password hashing, the username and email conflict check inside `AddUser`, the welcome e-mail and the SMTP sender. `Storage.AddUser` only stores a user under a fresh id.
- The identifier, account-number, card-number, expiry and CVV generators are parameters of the handlers. The model requires fresh ids and card numbers instead of modelling the generators.
- The storage helpers (`AddUser`, `AddAccount`, `AddCard`, `UpdateAccountBalance`, `AddTransaction`, `AddLoan`, `GetAccount`, `GetCardByNumber`, `GetAccountTransactions`, `GetUserAccounts`, `GetUserLoans`) live in a storage file that is not part of this model. They are modelled as plain map and sequence updates and filters. Their possible internal failures are not modelled: "Failed to create account", "Failed to generate card", "Failed to save loan", and the deposit's 500 "Failed to process deposit" for a balance-helper error other than a missing account.
- Ledger.Storage.UpdateAccountBalance: it applies the delta with no overdraft check of its own. The only caller that debits, `PayWithCard`, checks the balance under the same state first. The other callers, `Deposit` and `ApplyLoan`, credit a positive amount, and `Transfer` writes both balances itself. So sequentially no balance can go negative, which the invariant proves.
- The storage mutex, the cache mutex and concurrency are not modelled, including the gap between a handler's balance check and its update. Handlers run one at a time.
- Each handler reads the clock once (`now`). The Go code calls `time.Now()` several times per request, so its timestamps can differ by nanoseconds.
- `CalculateMonthlyPayment` and `GeneratePaymentSchedule` are passed to `ApplyLoan` as function parameters. Their amortization arithmetic and any property of the schedule (instalment sums, the last instalment's rounding) are not modelled.
- Ledger.Storage.ApplyLoan: the credit after the loan is stored cannot fail in a sequential run, because the account was just checked and accounts are never deleted. The `DisbursementFailed` branch is kept in the body, and the contract proves it is never taken. The loan it would leave behind without its credit is therefore not modelled.
- Ledger.Storage.PayWithCard: for the same reason the `PaymentFailed` branch is kept but unreachable.
- The commented-out XML fetch of the exchange-rate feed is not modelled; the rate source is the fixed 16. `RateErr` is kept so the 10 % fallback in `ApplyLoan` can be stated, though the lookup never returns it.
- The read-only handlers `GetUserAccountsHandler`, `GetAccountCardsHandler` (which also masks CVVs) and `GetLoanScheduleHandler` are not modelled. They only read storage.
- Go's 64-bit limits are not modelled: `time.Time` range, `Duration` saturation in `time.Since`, and `int` overflow of expiry years and loan terms. No reachable instant is near them.
- The transaction type is a four-valued datatype instead of a free string. Cards are keyed by card number, since payments look them up that way.
- `sort.Slice` is not stable, so Go may order entries with equal timestamps either way. The model's insertion sort is one admissible order, and its contract allows any.
