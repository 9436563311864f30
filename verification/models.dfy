/**
 * The records of the bank's in-memory ledger.
 *
 * Every money quantity is an exact decimal in the bank (shopspring/decimal);
 * here it is a Dafny `real`, which is exact as well. Instants are Unix times in
 * nanoseconds, the resolution of Go's time.Time.
 */
module Models {

  /** An instant, in nanoseconds since 1970-01-01T00:00:00Z. */
  type Instant = int

  /** An exact decimal amount of money or an exact decimal rate. */
  type Money = real

  /** Opaque identifiers handed out by the identifier generator. */
  type Id = string

  /** The "no account" marker used by transactions with an external side. */
  const External: Id := ""

  datatype User = User(
    ID: Id,
    Username: string,
    Email: string,
    PasswordHash: string,
    CreatedAt: Instant)

  datatype Account = Account(
    ID: Id,
    UserID: Id,
    Number: string,
    Balance: Money,
    CreatedAt: Instant)

  datatype Card = Card(
    ID: Id,
    AccountID: Id,
    Number: string,
    ExpiryMonth: int,
    ExpiryYear: int,
    CVV: string,
    CreatedAt: Instant)

  /**
   * The transaction type tag. The bank stores it as a free string; the four
   * values it ever writes are "transfer", "deposit", "payment" and
   * "loan_disbursement", one constructor each.
   */
  datatype TransactionType = TransferTx | DepositTx | PaymentTx | LoanDisbursementTx

  /**
   * A ledger entry. FromAccountID is External for money that comes from
   * outside (a deposit, a loan disbursement); ToAccountID is External for
   * money that leaves the bank (a card payment to a merchant).
   */
  datatype Transaction = Transaction(
    ID: Id,
    FromAccountID: Id,
    ToAccountID: Id,
    Amount: Money,
    Timestamp: Instant,
    TransactionType: TransactionType,
    Description: string)

  /** One installment of a loan's schedule. */
  datatype Payment = Payment(
    DueDate: Instant,
    Amount: Money,
    PrincipalPart: Money,
    InterestPart: Money,
    Paid: bool)

  /**
   * A loan: the annual interest rate fixed at issuance, the term in months,
   * the ordered schedule and the amount still owed.
   */
  datatype Loan = Loan(
    ID: Id,
    UserID: Id,
    AccountID: Id,
    Amount: Money,
    InterestRate: Money,
    TermMonths: int,
    StartDate: Instant,
    PaymentSchedule: seq<Payment>,
    RemainingAmount: Money)

  /**
   * The shape every entry the bank writes has: a positive amount, and the
   * endpoints its type calls for (a transfer names two different accounts, a
   * deposit and a disbursement only a destination, a payment only a source).
   * In particular no entry leaves both endpoints empty.
   */
  predicate WellFormed(t: Transaction)
  {
    && t.Amount > 0.0
    && match t.TransactionType
       case TransferTx =>
         t.FromAccountID != External && t.ToAccountID != External && t.FromAccountID != t.ToAccountID
       case DepositTx => t.FromAccountID == External && t.ToAccountID != External
       case LoanDisbursementTx => t.FromAccountID == External && t.ToAccountID != External
       case PaymentTx => t.FromAccountID != External && t.ToAccountID == External
  }

  /** The change a ledger entry makes to the balance of account `id`. */
  function Flow(t: Transaction, id: Id): Money
  {
    (if t.ToAccountID == id then t.Amount else 0.0) - (if t.FromAccountID == id then t.Amount else 0.0)
  }

  /**
   * The net amount the entries of `log` move into account `id`: what its
   * balance must be if it started at zero and every change was logged.
   */
  function NetFlow(log: seq<Transaction>, id: Id): Money
  {
    if log == [] then 0.0 else NetFlow(log[..|log| - 1], id) + Flow(log[|log| - 1], id)
  }

  /** Appending one entry changes every account's net flow by that entry's flow. */
  lemma NetFlowAppend(log: seq<Transaction>, t: Transaction)
    ensures forall id :: NetFlow(log + [t], id) == NetFlow(log, id) + Flow(t, id)
  {
    assert (log + [t])[..|log|] == log;
  }

  /** An account that no entry names has a net flow of zero. */
  lemma {:induction false} NetFlowUnnamed(log: seq<Transaction>, id: Id)
    requires forall i :: 0 <= i < |log| ==> log[i].FromAccountID != id && log[i].ToAccountID != id
    ensures NetFlow(log, id) == 0.0
  {
    if log != [] {
      NetFlowUnnamed(log[..|log| - 1], id);
    }
  }
}
