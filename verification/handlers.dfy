/**
 * The in-memory ledger behind the request handlers: users, accounts, cards,
 * the append-only transaction log and the loans, with the state logic of the
 * transfer, card-payment, deposit, loan-application, summary and
 * transaction-history handlers. Request decoding and response writing are
 * not modelled; each handler's error response is a `LedgerError`.
 */
module Ledger {
  import opened Models
  import opened Aggregates
  import Calendar
  import opened KeyRate
  import opened LedgerInvariant

  /** The bank's margin added to the key rate when a loan is priced. */
  const BankMargin: Money := 5.0

  /** The key rate used when the rate lookup reports an error. */
  const FallbackKeyRate: Money := 10.0

  /** What the card-issuing response shows in place of the CVV; the stored card keeps the real one. */
  const MaskedCvv: string := "***"

  /**
   * The error responses of the handlers, one per kind of refusal. Some stand
   * for several messages: InsufficientFunds for both the card-payment and the
   * transfer wording, AccountNotFound also for the balance helper's own error
   * text that Deposit passes through.
   */
  datatype LedgerError =
    | UserIdRequired                 // 400 "UserID is required"
    | SameAccount                    // 400 "Cannot transfer to the same account"
    | NonPositiveAmount              // 400 "... amount must be positive"
    | InvalidLoanTerms               // 400 "Loan amount and term must be positive"
    | SourceNotFound(id: Id)         // 404 "Source account ... not found"
    | DestinationNotFound(id: Id)    // 404 "Destination account ... not found"
    | AccountNotFound(id: Id)        // 404 (400 when generating a card) "Account ... not found"
    | UserNotFound(id: Id)           // 404 "User ... not found"
    | CardNotFound                   // 404 "Card not found"
    | CardExpired                    // 400 "Card expired"
    | AssociatedAccountNotFound      // 500 "Associated account not found"
    | InsufficientFunds              // 402 "Insufficient funds" (payment), "... in source account" (transfer)
    | PaymentFailed                  // 500 "Failed to process payment"
    | DisbursementFailed             // 500 "Failed to disburse loan funds"

  /** The outcome of a handler that answers only with a message. */
  datatype Outcome = Done | Failed(error: LedgerError)

  /** The outcome of a handler that answers with a record. */
  datatype Result<T> = Ok(value: T) | Err(error: LedgerError)

  /** The outcome of the storage helper that adjusts a balance. */
  datatype UpdateStatus = Updated | AccountMissing(id: Id)

  /** The financial summary of one user. */
  datatype Summary = Summary(
    UserID: Id,
    TotalAccountBalance: Money,
    NumberOfAccounts: nat,
    TotalLoanDebt: Money,
    ActiveLoans: nat)

  /** The annual rate of a new loan: the key rate, or the fallback when the lookup failed, plus the margin. */
  function AnnualRate(base: RateResult): (rate: Money)
    ensures base.RateOk? ==> rate == base.rate + 5.0
    ensures base.RateErr? ==> rate == 15.0
  {
    (match base
     case RateOk(rate) => rate
     case RateErr(_) => FallbackKeyRate) + BankMargin
  }

  /** The accounts a user owns. */
  function UserAccountIds(accounts: map<Id, Account>, userId: Id): (ids: set<Id>)
    ensures ids <= accounts.Keys
  {
    set id | id in accounts && accounts[id].UserID == userId
  }

  /** The loans a user has taken. */
  function UserLoanIds(loans: map<Id, Loan>, userId: Id): (ids: set<Id>)
    ensures ids <= loans.Keys
  {
    set id | id in loans && loans[id].UserID == userId
  }

  /** Whether a ledger entry moves money into or out of account `id`. */
  predicate Involves(t: Transaction, id: Id)
  {
    t.FromAccountID == id || t.ToAccountID == id
  }

  /** The entries of `log` that involve account `id`, in log order. */
  function AccountTransactions(log: seq<Transaction>, id: Id): (listed: seq<Transaction>)
    ensures |listed| <= |log|
    ensures forall i :: 0 <= i < |listed| ==> listed[i] in log && Involves(listed[i], id)
  {
    if log == [] then []
    else (if Involves(log[0], id) then [log[0]] else []) + AccountTransactions(log[1..], id)
  }

  /** An entry is listed for an account exactly when it is logged and involves that account. */
  lemma {:induction false} AccountTransactionsMembership(log: seq<Transaction>, id: Id, t: Transaction)
    ensures t in AccountTransactions(log, id) <==> t in log && Involves(t, id)
  {
    if log != [] {
      AccountTransactionsMembership(log[1..], id, t);
      assert log == [log[0]] + log[1..];
    }
  }

  /** Newest first: no entry is older than one after it. */
  predicate NewestFirst(s: seq<Transaction>)
  {
    forall i, j :: 0 <= i < j < |s| ==> s[i].Timestamp >= s[j].Timestamp
  }

  /** Exchanges two elements of `a`. */
  method Swap(a: array<Transaction>, i: int, j: int)
    requires 0 <= i < a.Length && 0 <= j < a.Length
    modifies a
    ensures a[..] == old(a[..])[i := old(a[j])][j := old(a[i])]
    ensures multiset(a[..]) == multiset(old(a[..]))
  {
    a[i], a[j] := a[j], a[i];
  }

  /** Sorts `a` newest first, in place, as a permutation of its contents. */
  method SortNewestFirst(a: array<Transaction>)
    modifies a
    ensures NewestFirst(a[..])
    ensures multiset(a[..]) == multiset(old(a[..]))
  {
    var i := 0;
    while i < a.Length
      invariant 0 <= i <= a.Length
      invariant forall p, q :: 0 <= p < q < i ==> a[p].Timestamp >= a[q].Timestamp
      invariant multiset(a[..]) == multiset(old(a[..]))
    {
      var j := i;
      while j > 0 && a[j - 1].Timestamp < a[j].Timestamp
        invariant 0 <= j <= i < a.Length
        invariant forall p, q :: 0 <= p < q <= i && q != j ==> a[p].Timestamp >= a[q].Timestamp
        invariant multiset(a[..]) == multiset(old(a[..]))
      {
        Swap(a, j - 1, j);
        j := j - 1;
      }
      i := i + 1;
    }
  }

  /**
   * The validation a transfer request goes through, in the handler's order:
   * distinct accounts, a positive amount, the source, the destination, and
   * enough money in the source.
   */
  function TransferCheck(accounts: map<Id, Account>, from: Id, to: Id, amount: Money): (r: Outcome)
    ensures r == Done <==>
              from != to && amount > 0.0 && from in accounts && to in accounts && accounts[from].Balance >= amount
  {
    if from == to then Failed(SameAccount)
    else if amount <= 0.0 then Failed(NonPositiveAmount)
    else if from !in accounts then Failed(SourceNotFound(from))
    else if to !in accounts then Failed(DestinationNotFound(to))
    else if accounts[from].Balance < amount then Failed(InsufficientFunds)
    else Done
  }

  /** Which refusal a transfer request meets: the first check it fails. */
  lemma TransferCheckCases(accounts: map<Id, Account>, from: Id, to: Id, amount: Money)
    ensures TransferCheck(accounts, from, to, amount) == Failed(SameAccount) <==> from == to
    ensures TransferCheck(accounts, from, to, amount) == Failed(NonPositiveAmount) <==> from != to && amount <= 0.0
    ensures TransferCheck(accounts, from, to, amount) == Failed(SourceNotFound(from)) <==>
              from != to && amount > 0.0 && from !in accounts
    ensures TransferCheck(accounts, from, to, amount) == Failed(DestinationNotFound(to)) <==>
              from != to && amount > 0.0 && from in accounts && to !in accounts
    ensures TransferCheck(accounts, from, to, amount) == Failed(InsufficientFunds) <==>
              from != to && amount > 0.0 && from in accounts && to in accounts && accounts[from].Balance < amount
  {
  }

  /**
   * The validation a card payment goes through, in the handler's order: a
   * positive amount, a known card, not past the card's expiry, the card's
   * account, and enough money in it.
   */
  function PaymentCheck(cards: map<string, Card>, accounts: map<Id, Account>, cardNumber: string, amount: Money, now: Instant)
    : (r: Outcome)
    ensures r == Done <==>
              && amount > 0.0 && cardNumber in cards
              && now <= Calendar.CardExpiry(cards[cardNumber].ExpiryMonth, cards[cardNumber].ExpiryYear)
              && cards[cardNumber].AccountID in accounts
              && accounts[cards[cardNumber].AccountID].Balance >= amount
  {
    if amount <= 0.0 then Failed(NonPositiveAmount)
    else if cardNumber !in cards then Failed(CardNotFound)
    else
      var card := cards[cardNumber];
      if now > Calendar.CardExpiry(card.ExpiryMonth, card.ExpiryYear) then Failed(CardExpired)
      else if card.AccountID !in accounts then Failed(AssociatedAccountNotFound)
      else if accounts[card.AccountID].Balance < amount then Failed(InsufficientFunds)
      else Done
  }

  /** Which refusal a card payment meets: the first check it fails. */
  lemma PaymentCheckCases(cards: map<string, Card>, accounts: map<Id, Account>, cardNumber: string, amount: Money, now: Instant)
    ensures PaymentCheck(cards, accounts, cardNumber, amount, now) == Failed(NonPositiveAmount) <==> amount <= 0.0
    ensures PaymentCheck(cards, accounts, cardNumber, amount, now) == Failed(CardNotFound) <==>
              amount > 0.0 && cardNumber !in cards
    ensures PaymentCheck(cards, accounts, cardNumber, amount, now) == Failed(CardExpired) <==>
              && amount > 0.0 && cardNumber in cards
              && now > Calendar.CardExpiry(cards[cardNumber].ExpiryMonth, cards[cardNumber].ExpiryYear)
    ensures PaymentCheck(cards, accounts, cardNumber, amount, now) == Failed(AssociatedAccountNotFound) <==>
              && amount > 0.0 && cardNumber in cards
              && now <= Calendar.CardExpiry(cards[cardNumber].ExpiryMonth, cards[cardNumber].ExpiryYear)
              && cards[cardNumber].AccountID !in accounts
    ensures PaymentCheck(cards, accounts, cardNumber, amount, now) == Failed(InsufficientFunds) <==>
              && amount > 0.0 && cardNumber in cards
              && now <= Calendar.CardExpiry(cards[cardNumber].ExpiryMonth, cards[cardNumber].ExpiryYear)
              && cards[cardNumber].AccountID in accounts
              && accounts[cards[cardNumber].AccountID].Balance < amount
  {
  }

  /** The validation a deposit goes through: a positive amount, then a known account. */
  function DepositCheck(accounts: map<Id, Account>, to: Id, amount: Money): (r: Outcome)
    ensures r == Done <==> amount > 0.0 && to in accounts
    ensures r == Failed(NonPositiveAmount) <==> amount <= 0.0
    ensures r == Failed(AccountNotFound(to)) <==> amount > 0.0 && to !in accounts
  {
    if amount <= 0.0 then Failed(NonPositiveAmount)
    else if to !in accounts then Failed(AccountNotFound(to))
    else Done
  }

  /**
   * The validation a loan application goes through, in the handler's order:
   * positive amount and term, a known user, a known account. The account is
   * not required to belong to the user.
   */
  function LoanCheck(users: map<Id, User>, accounts: map<Id, Account>, userId: Id, accountId: Id, amount: Money, termMonths: int)
    : (r: Outcome)
    ensures r == Done <==> amount > 0.0 && termMonths > 0 && userId in users && accountId in accounts
    ensures r == Failed(InvalidLoanTerms) <==> amount <= 0.0 || termMonths <= 0
    ensures r == Failed(UserNotFound(userId)) <==> amount > 0.0 && termMonths > 0 && userId !in users
    ensures r == Failed(AccountNotFound(accountId)) <==>
              amount > 0.0 && termMonths > 0 && userId in users && accountId !in accounts
  {
    if amount <= 0.0 || termMonths <= 0 then Failed(InvalidLoanTerms)
    else if userId !in users then Failed(UserNotFound(userId))
    else if accountId !in accounts then Failed(AccountNotFound(accountId))
    else Done
  }

  /** The bank's storage: every collection the handlers read and write. */
  class Storage {
    var users: map<Id, User>
    var accounts: map<Id, Account>
    var cards: map<string, Card>
    var transactions: seq<Transaction>
    var loans: map<Id, Loan>

    /** The ledger invariant over the current contents. */
    ghost predicate Valid()
      reads this
    {
      LedgerValid(users, accounts, transactions, loans)
    }

    /** The storage as the process starts: everything empty. */
    constructor ()
      ensures Valid()
      ensures users == map[] && accounts == map[] && cards == map[] && transactions == [] && loans == map[]
    {
      users, accounts, cards, transactions, loans := map[], map[], map[], [], map[];
    }

    /** Stores a registered user under its fresh identifier. */
    method AddUser(user: User)
      requires Valid()
      requires user.ID !in users
      modifies this
      ensures Valid()
      ensures users == old(users)[user.ID := user]
      ensures unchanged(this`accounts, this`cards)
      ensures unchanged(this`transactions, this`loans)
    {
      users := users[user.ID := user];
    }

    /**
     * Opens an account with a zero balance for `userId` under the fresh
     * identifier `id` and the generated `number`; an empty user id is refused.
     * The owner is not required to exist.
     */
    method CreateAccount(id: Id, userId: Id, number: string, now: Instant) returns (r: Result<Account>)
      requires Valid()
      requires id != External && id !in accounts
      modifies this
      ensures Valid()
      ensures r.Err? <==> userId == ""
      ensures r.Err? ==> r.error == UserIdRequired && unchanged(this)
      ensures r.Ok? ==> r.value == Account(id, userId, number, 0.0, now)
      ensures r.Ok? ==> accounts == old(accounts)[id := r.value]
      ensures r.Ok? ==> unchanged(this`users, this`cards, this`transactions, this`loans)
    {
      if userId == "" {
        return Err(UserIdRequired);
      }
      var account := Account(id, userId, number, 0.0, now);
      OpeningKeepsValid(users, accounts, transactions, loans, account);
      accounts := accounts[id := account];
      r := Ok(account);
    }

    /**
     * Issues a card with the generated number, expiry and CVV for an
     * existing account; an unknown account is refused. The card is stored
     * with its CVV and returned with the CVV masked.
     */
    method GenerateCard(accountId: Id, cardId: Id, number: string, month: int, year: int, cvv: string, now: Instant)
      returns (r: Result<Card>)
      requires Valid()
      requires number !in cards
      modifies this
      ensures Valid()
      ensures r.Err? <==> accountId !in accounts
      ensures r.Err? ==> r.error == AccountNotFound(accountId) && unchanged(this)
      ensures r.Ok? ==> cards == old(cards)[number := Card(cardId, accountId, number, month, year, cvv, now)]
      ensures r.Ok? ==> r.value == cards[number].(CVV := MaskedCvv)
      ensures r.Ok? ==> unchanged(this`users, this`accounts, this`transactions, this`loans)
    {
      if accountId !in accounts {
        return Err(AccountNotFound(accountId));
      }
      var card := Card(cardId, accountId, number, month, year, cvv, now);
      cards := cards[number := card];
      r := Ok(card.(CVV := MaskedCvv));
    }

    /**
     * The storage helper that adds `delta` to an account's balance; it fails
     * only when the account does not exist, and has no overdraft check.
     */
    method UpdateAccountBalance(id: Id, delta: Money) returns (r: UpdateStatus)
      modifies this
      ensures r.Updated? <==> id in old(accounts)
      ensures r.AccountMissing? ==> r.id == id && unchanged(this)
      ensures r.Updated? ==> accounts == Adjust(old(accounts), id, delta)
      ensures unchanged(this`users, this`cards, this`transactions, this`loans)
    {
      if id !in accounts {
        return AccountMissing(id);
      }
      var account := accounts[id];
      accounts := accounts[id := account.(Balance := account.Balance + delta)];
      r := Updated;
    }

    /** The storage helper that appends an entry to the log. */
    method AddTransaction(t: Transaction)
      modifies this
      ensures transactions == old(transactions) + [t]
      ensures unchanged(this`users, this`accounts, this`cards, this`loans)
    {
      transactions := transactions + [t];
    }

    /** The storage helper that stores a loan under its identifier. */
    method AddLoan(loan: Loan)
      modifies this
      ensures loans == old(loans)[loan.ID := loan]
      ensures unchanged(this`users, this`accounts, this`cards, this`transactions)
    {
      loans := loans[loan.ID := loan];
    }

    /**
     * Moves `amount` from account `from` to account `to` and logs one
     * transfer entry. Refused, with nothing changed, when the two ids are
     * equal, when the amount is not positive, when the source and then the
     * destination is unknown, or when the source holds less than the amount.
     */
    method Transfer(from: Id, to: Id, amount: Money, txId: Id, now: Instant) returns (r: Outcome)
      requires Valid()
      modifies this
      ensures Valid()
      ensures r == TransferCheck(old(accounts), from, to, amount)
      ensures r.Failed? ==> unchanged(this)
      ensures r == Done ==>
                accounts == Adjust(Adjust(old(accounts), from, -amount), to, amount)
      ensures r == Done ==>
                transactions == old(transactions) +
                  [Transaction(txId, from, to, amount, now, TransferTx,
                               "Transfer from " + old(accounts)[from].Number + " to " + old(accounts)[to].Number)]
      ensures unchanged(this`users, this`cards, this`loans)
    {
      if from == to {
        return Failed(SameAccount);
      }
      if amount <= 0.0 {
        return Failed(NonPositiveAmount);
      }
      if from !in accounts {
        return Failed(SourceNotFound(from));
      }
      if to !in accounts {
        return Failed(DestinationNotFound(to));
      }
      var fromAccount := accounts[from];
      var toAccount := accounts[to];
      if fromAccount.Balance < amount {
        return Failed(InsufficientFunds);
      }
      var tx := Transaction(txId, from, to, amount, now, TransferTx,
                            "Transfer from " + fromAccount.Number + " to " + toAccount.Number);
      PostTransfer(tx);
      r := Done;
    }

    /**
     * The effect of an accepted transfer, made while the storage is locked:
     * the source debited, the destination credited, the entry appended.
     */
    method PostTransfer(tx: Transaction)
      requires Valid()
      requires WellFormed(tx) && tx.TransactionType == TransferTx
      requires tx.FromAccountID in accounts && tx.ToAccountID in accounts
      requires accounts[tx.FromAccountID].Balance >= tx.Amount
      modifies this
      ensures Valid()
      ensures accounts == Adjust(Adjust(old(accounts), tx.FromAccountID, -tx.Amount), tx.ToAccountID, tx.Amount)
      ensures transactions == old(transactions) + [tx]
      ensures unchanged(this`users, this`cards, this`loans)
    {
      TransferKeepsValid(users, accounts, transactions, loans, tx);
      accounts := Adjust(accounts, tx.FromAccountID, -tx.Amount);
      accounts := Adjust(accounts, tx.ToAccountID, tx.Amount);
      transactions := transactions + [tx];
    }

    /**
     * Pays `amount` to `merchant` with the card numbered `cardNumber`,
     * debiting the card's account and logging one payment entry with an
     * external destination. Refused, with nothing changed, when the amount
     * is not positive, the card is unknown, `now` is past 23:59:59 UTC on the
     * last day of the card's expiry month, the card's account is missing, or
     * that account holds less than the amount.
     */
    method PayWithCard(cardNumber: string, amount: Money, merchant: string, txId: Id, now: Instant) returns (r: Outcome)
      requires Valid()
      modifies this
      ensures Valid()
      ensures r == PaymentCheck(old(cards), old(accounts), cardNumber, amount, now)
      ensures r.Failed? ==> unchanged(this)
      ensures r == Done ==>
                var id := old(cards)[cardNumber].AccountID;
                && accounts == Adjust(old(accounts), id, -amount)
                && transactions == old(transactions) +
                     [Transaction(txId, id, External, amount, now, PaymentTx, "Payment to " + merchant)]
      ensures unchanged(this`users, this`cards, this`loans)
    {
      if amount <= 0.0 {
        return Failed(NonPositiveAmount);
      }
      if cardNumber !in cards {
        return Failed(CardNotFound);
      }
      var card := cards[cardNumber];
      if now > Calendar.CardExpiry(card.ExpiryMonth, card.ExpiryYear) {
        return Failed(CardExpired);
      }
      if card.AccountID !in accounts {
        return Failed(AssociatedAccountNotFound);
      }
      var account := accounts[card.AccountID];
      if account.Balance < amount {
        return Failed(InsufficientFunds);
      }
      var tx := Transaction(txId, account.ID, External, amount, now, PaymentTx, "Payment to " + merchant);
      DebitKeepsValid(users, accounts, transactions, loans, tx);
      var status := UpdateAccountBalance(account.ID, -amount);
      if status.AccountMissing? {
        return Failed(PaymentFailed);
      }
      AddTransaction(tx);
      r := Done;
    }

    /**
     * Credits `amount` from outside the bank to account `to` and logs one
     * deposit entry with an external source. Refused, with nothing changed,
     * when the amount is not positive or the account is unknown.
     */
    method Deposit(to: Id, amount: Money, txId: Id, now: Instant) returns (r: Outcome)
      requires Valid()
      modifies this
      ensures Valid()
      ensures r == DepositCheck(old(accounts), to, amount)
      ensures r.Failed? ==> unchanged(this)
      ensures r == Done ==>
                var account := old(accounts)[to];
                && accounts == Adjust(old(accounts), to, amount)
                && transactions == old(transactions) +
                     [Transaction(txId, External, to, amount, now, DepositTx, "Deposit to account " + account.Number)]
      ensures unchanged(this`users, this`cards, this`loans)
    {
      if amount <= 0.0 {
        return Failed(NonPositiveAmount);
      }
      ghost var before := accounts;
      var status := UpdateAccountBalance(to, amount);
      if status.AccountMissing? {
        return Failed(AccountNotFound(status.id));
      }
      var account := accounts[to];
      var tx := Transaction(txId, External, to, amount, now, DepositTx, "Deposit to account " + account.Number);
      CreditKeepsValid(users, before, transactions, loans, tx);
      AddTransaction(tx);
      r := Done;
    }

    /**
     * Grants a loan of `amount` over `termMonths` months to user `userId`,
     * paid out to account `accountId`: the rate is the key rate plus the
     * margin, the schedule comes from the amortization functions, the loan is
     * stored owing its whole amount, and then the account is credited and one
     * disbursement entry is logged. Refused, with nothing changed (the rate
     * cache included), when the amount or the term is not positive, or the
     * user and then the account is unknown. A failing credit would leave the
     * stored loan in place.
     */
    method ApplyLoan(
      cache: KeyRateCache, userId: Id, accountId: Id, amount: Money, termMonths: int,
      loanId: Id, txId: Id, now: Instant,
      monthlyPayment: (Money, Money, int) -> Money,
      paymentSchedule: (Money, Money, int, Instant, Money) -> seq<Payment>)
      returns (r: Result<Loan>)
      requires Valid()
      requires loanId !in loans
      modifies this, cache
      ensures Valid()
      ensures r.Ok? <==> LoanCheck(old(users), old(accounts), userId, accountId, amount, termMonths) == Done
      ensures r.Err? ==> LoanCheck(old(users), old(accounts), userId, accountId, amount, termMonths) == Failed(r.error)
      ensures r.Err? ==> unchanged(this) && unchanged(cache)
      ensures r.Ok? ==>
                var rate := cache.rate + BankMargin;
                && cache.Cell() == Lookup(old(cache.Cell()), now).0
                && r.value == Loan(loanId, userId, accountId, amount, rate, termMonths, now,
                                   paymentSchedule(amount, rate, termMonths, now, monthlyPayment(amount, rate, termMonths)),
                                   amount)
                && loans == old(loans)[loanId := r.value]
                && accounts == Adjust(old(accounts), accountId, amount)
                && transactions == old(transactions) +
                     [Transaction(txId, External, accountId, amount, now, LoanDisbursementTx,
                                  "Loan disbursement (ID: " + loanId + ")")]
      ensures unchanged(this`users, this`cards)
    {
      if amount <= 0.0 || termMonths <= 0 {
        return Err(InvalidLoanTerms);
      }
      if userId !in users {
        return Err(UserNotFound(userId));
      }
      if accountId !in accounts {
        return Err(AccountNotFound(accountId));
      }
      var baseRate := cache.GetKeyRate(now);
      var rate := AnnualRate(baseRate);
      var payment := monthlyPayment(amount, rate, termMonths);
      var schedule := paymentSchedule(amount, rate, termMonths, now, payment);
      var loan := Loan(loanId, userId, accountId, amount, rate, termMonths, now, schedule, amount);
      var tx := Transaction(txId, External, accountId, amount, now, LoanDisbursementTx,
                            "Loan disbursement (ID: " + loanId + ")");
      LoanKeepsValid(users, accounts, transactions, loans, loan);
      CreditKeepsValid(users, accounts, transactions, loans[loanId := loan], tx);
      AddLoan(loan);
      var status := UpdateAccountBalance(accountId, amount);
      if status.AccountMissing? {
        return Err(DisbursementFailed);
      }
      AddTransaction(tx);
      r := Ok(loan);
    }

    /**
     * The financial summary of user `userId`: the sum of the balances of the
     * user's accounts, their number, the sum of the remaining amounts of the
     * user's loans and the number of those still owing a positive amount.
     * In a valid ledger the balance total and the debt are never negative and
     * every loan counts as active, since nothing ever reduces what a loan owes.
     */
    method FinancialSummary(userId: Id) returns (s: Summary)
      ensures s.UserID == userId
      ensures s.TotalAccountBalance == SumOn(accounts, UserAccountIds(accounts, userId), BalanceOf)
      ensures s.NumberOfAccounts == |UserAccountIds(accounts, userId)|
      ensures s.TotalLoanDebt == SumOn(loans, UserLoanIds(loans, userId), RemainingOf)
      ensures s.ActiveLoans == CountPositiveOn(loans, UserLoanIds(loans, userId), RemainingOf)
      ensures Valid() ==> s.TotalAccountBalance >= 0.0 && s.TotalLoanDebt >= 0.0
      ensures Valid() ==> s.ActiveLoans == |UserLoanIds(loans, userId)|
    {
      var accountIds := UserAccountIds(accounts, userId);
      var loanIds := UserLoanIds(loans, userId);

      var totalBalance := 0.0;
      var rest := accountIds;
      while rest != {}
        invariant rest <= accountIds
        invariant totalBalance + SumOn(accounts, rest, BalanceOf) == SumOn(accounts, accountIds, BalanceOf)
        decreases rest
      {
        var id :| id in rest;
        SumOnRemove(accounts, rest, BalanceOf, id);
        totalBalance := totalBalance + accounts[id].Balance;
        rest := rest - {id};
      }

      var totalLoanDebt := 0.0;
      var activeLoans := 0;
      var pending := loanIds;
      while pending != {}
        invariant pending <= loanIds
        invariant totalLoanDebt + SumOn(loans, pending, RemainingOf) == SumOn(loans, loanIds, RemainingOf)
        invariant activeLoans + CountPositiveOn(loans, pending, RemainingOf) == CountPositiveOn(loans, loanIds, RemainingOf)
        decreases pending
      {
        var id :| id in pending;
        SumOnRemove(loans, pending, RemainingOf, id);
        CountPositiveOnRemove(loans, pending, RemainingOf, id);
        totalLoanDebt := totalLoanDebt + loans[id].RemainingAmount;
        if loans[id].RemainingAmount > 0.0 {
          activeLoans := activeLoans + 1;
        }
        pending := pending - {id};
      }

      if Valid() {
        SumOnNonNegative(accounts, accountIds, BalanceOf);
        SumOnNonNegative(loans, loanIds, RemainingOf);
        CountPositiveOnAll(loans, loanIds, RemainingOf);
      }
      s := Summary(userId, totalBalance, |accountIds|, totalLoanDebt, activeLoans);
    }

    /**
     * The entries involving account `id`, newest first; an unknown account is
     * refused. The result is exactly the account's logged entries, reordered.
     */
    method TransactionHistory(id: Id) returns (r: Result<seq<Transaction>>)
      ensures r.Err? <==> id !in accounts
      ensures r.Err? ==> r.error == AccountNotFound(id)
      ensures r.Ok? ==> NewestFirst(r.value)
      ensures r.Ok? ==> multiset(r.value) == multiset(AccountTransactions(transactions, id))
      ensures r.Ok? ==> forall t :: t in r.value <==> t in transactions && Involves(t, id)
    {
      if id !in accounts {
        return Err(AccountNotFound(id));
      }
      var listed := AccountTransactions(transactions, id);
      var a := new Transaction[|listed|](i requires 0 <= i < |listed| => listed[i]);
      assert a[..] == listed;
      SortNewestFirst(a);
      forall t
        ensures t in a[..] <==> t in transactions && Involves(t, id)
      {
        AccountTransactionsMembership(transactions, id, t);
        assert t in a[..] <==> t in multiset(a[..]);
        assert t in listed <==> t in multiset(listed);
      }
      r := Ok(a[..]);
    }
  }
}
