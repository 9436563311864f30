/**
 * The ledger invariant the handlers keep, and the lemmas showing that each
 * kind of posting keeps it: every balance is what the logged entries moved
 * into its account, none is negative, every entry is well formed and names
 * existing accounts, and every loan belongs to an existing user and account.
 */
module LedgerInvariant {
  import opened Models
  import opened Aggregates

  /** An account's balance. */
  function BalanceOf(a: Account): Money
  {
    a.Balance
  }

  /** What a loan still owes. */
  function RemainingOf(loan: Loan): Money
  {
    loan.RemainingAmount
  }

  /** The total of all balances in the bank. */
  ghost function TotalBalance(accounts: map<Id, Account>): Money
  {
    SumOn(accounts, accounts.Keys, BalanceOf)
  }

  /** `accounts` with `delta` added to the balance of account `id`, and nothing else changed. */
  function Adjust(accounts: map<Id, Account>, id: Id, delta: Money): (r: map<Id, Account>)
    requires id in accounts
    ensures r.Keys == accounts.Keys
  {
    accounts[id := accounts[id].(Balance := accounts[id].Balance + delta)]
  }

  /** A two-account move preserves the total of all balances. */
  lemma TransferPreservesTotal(accounts: map<Id, Account>, from: Id, to: Id, amount: Money)
    requires from in accounts && to in accounts
    ensures TotalBalance(Adjust(Adjust(accounts, from, -amount), to, amount)) == TotalBalance(accounts)
  {
    var debited := Adjust(accounts, from, -amount);
    SumOnUpdate(accounts, accounts.Keys, BalanceOf, from, debited[from]);
    SumOnUpdate(debited, accounts.Keys, BalanceOf, to, Adjust(debited, to, amount)[to]);
  }

  /** Every non-external endpoint of `t` is one of the accounts `ids`. */
  predicate NamesExisting(t: Transaction, ids: set<Id>)
  {
    && (t.FromAccountID != External ==> t.FromAccountID in ids)
    && (t.ToAccountID != External ==> t.ToAccountID in ids)
  }

  /** What every stored loan satisfies: it belongs to an existing user and account and still owes its whole amount. */
  predicate LoanHeld(loan: Loan, id: Id, userIds: set<Id>, accountIds: set<Id>)
  {
    && loan.ID == id
    && loan.UserID in userIds
    && loan.AccountID in accountIds
    && loan.Amount > 0.0
    && loan.TermMonths > 0
    && loan.RemainingAmount == loan.Amount
  }

  /**
   * The ledger invariant: no account has the external id, each account is
   * stored under its own id, no balance is negative and every balance is
   * the net flow of the logged entries; every entry is well formed and
   * names only existing accounts; every loan is held as `LoanHeld` says.
   */
  ghost predicate LedgerValid(users: map<Id, User>, accounts: map<Id, Account>, log: seq<Transaction>, loans: map<Id, Loan>)
  {
    && External !in accounts
    && (forall id :: id in accounts ==> accounts[id].ID == id)
    && (forall id :: id in accounts ==> accounts[id].Balance >= 0.0)
    && (forall id :: id in accounts ==> accounts[id].Balance == NetFlow(log, id))
    && (forall i :: 0 <= i < |log| ==> WellFormed(log[i]) && NamesExisting(log[i], accounts.Keys))
    && (forall id :: id in loans ==> LoanHeld(loans[id], id, users.Keys, accounts.Keys))
  }

  /** `after` is `before` with every balance moved by what entry `t` moves into it. */
  ghost predicate Posted(before: map<Id, Account>, after: map<Id, Account>, t: Transaction)
  {
    && after.Keys == before.Keys
    && forall id :: id in before ==> after[id] == before[id].(Balance := before[id].Balance + Flow(t, id))
  }

  /**
   * Posting a well-formed entry between existing accounts, with the balances
   * moved accordingly and none left negative, keeps the ledger valid.
   */
  lemma PostingKeepsValid(users: map<Id, User>, accounts: map<Id, Account>, log: seq<Transaction>, loans: map<Id, Loan>,
                          accounts': map<Id, Account>, t: Transaction)
    requires LedgerValid(users, accounts, log, loans)
    requires WellFormed(t) && NamesExisting(t, accounts.Keys)
    requires Posted(accounts, accounts', t)
    requires forall id :: id in accounts' ==> accounts'[id].Balance >= 0.0
    ensures LedgerValid(users, accounts', log + [t], loans)
  {
    NetFlowAppend(log, t);
  }

  /** A transfer entry posts exactly the debit of the source and the credit of the destination. */
  lemma TransferPosts(accounts: map<Id, Account>, t: Transaction)
    requires t.FromAccountID in accounts && t.ToAccountID in accounts && t.FromAccountID != t.ToAccountID
    ensures Posted(accounts, Adjust(Adjust(accounts, t.FromAccountID, -t.Amount), t.ToAccountID, t.Amount), t)
  {
  }

  /** An entry with one external side posts a single balance change to the account on the other side. */
  lemma SingleSidedPosts(accounts: map<Id, Account>, id: Id, t: Transaction)
    requires id in accounts && id != External && External !in accounts
    requires (t.FromAccountID == External && t.ToAccountID == id) || (t.FromAccountID == id && t.ToAccountID == External)
    ensures Posted(accounts, Adjust(accounts, id, Flow(t, id)), t)
  {
    forall other | other in accounts && other != id
      ensures Adjust(accounts, id, Flow(t, id))[other] == accounts[other].(Balance := accounts[other].Balance + Flow(t, other))
    {
      assert Flow(t, other) == 0.0;
    }
  }

  /** Logging a transfer between two accounts, with the balances moved, keeps the ledger valid. */
  lemma TransferKeepsValid(users: map<Id, User>, accounts: map<Id, Account>, log: seq<Transaction>, loans: map<Id, Loan>,
                           t: Transaction)
    requires LedgerValid(users, accounts, log, loans)
    requires WellFormed(t) && t.TransactionType == TransferTx
    requires t.FromAccountID in accounts && t.ToAccountID in accounts && accounts[t.FromAccountID].Balance >= t.Amount
    ensures LedgerValid(users, Adjust(Adjust(accounts, t.FromAccountID, -t.Amount), t.ToAccountID, t.Amount), log + [t], loans)
  {
    TransferPosts(accounts, t);
    PostingKeepsValid(users, accounts, log, loans, Adjust(Adjust(accounts, t.FromAccountID, -t.Amount), t.ToAccountID, t.Amount), t);
  }

  /** Logging money paid in from outside, with the receiving balance raised, keeps the ledger valid. */
  lemma CreditKeepsValid(users: map<Id, User>, accounts: map<Id, Account>, log: seq<Transaction>, loans: map<Id, Loan>,
                         t: Transaction)
    requires LedgerValid(users, accounts, log, loans)
    requires WellFormed(t) && t.FromAccountID == External && t.ToAccountID in accounts
    ensures LedgerValid(users, Adjust(accounts, t.ToAccountID, t.Amount), log + [t], loans)
  {
    SingleSidedPosts(accounts, t.ToAccountID, t);
    PostingKeepsValid(users, accounts, log, loans, Adjust(accounts, t.ToAccountID, t.Amount), t);
  }

  /** Logging money paid out of the bank, with the paying balance lowered but not below zero, keeps the ledger valid. */
  lemma DebitKeepsValid(users: map<Id, User>, accounts: map<Id, Account>, log: seq<Transaction>, loans: map<Id, Loan>,
                        t: Transaction)
    requires LedgerValid(users, accounts, log, loans)
    requires WellFormed(t) && t.ToAccountID == External && t.FromAccountID in accounts
    requires accounts[t.FromAccountID].Balance >= t.Amount
    ensures LedgerValid(users, Adjust(accounts, t.FromAccountID, -t.Amount), log + [t], loans)
  {
    SingleSidedPosts(accounts, t.FromAccountID, t);
    PostingKeepsValid(users, accounts, log, loans, Adjust(accounts, t.FromAccountID, -t.Amount), t);
  }

  /** Storing a loan for an existing user and account that still owes its whole positive amount keeps the ledger valid. */
  lemma LoanKeepsValid(users: map<Id, User>, accounts: map<Id, Account>, log: seq<Transaction>, loans: map<Id, Loan>,
                       loan: Loan)
    requires LedgerValid(users, accounts, log, loans)
    requires LoanHeld(loan, loan.ID, users.Keys, accounts.Keys)
    ensures LedgerValid(users, accounts, log, loans[loan.ID := loan])
  {
  }

  /** Opening a new account with a zero balance keeps the ledger valid: no logged entry names it yet. */
  lemma OpeningKeepsValid(users: map<Id, User>, accounts: map<Id, Account>, log: seq<Transaction>, loans: map<Id, Loan>,
                          account: Account)
    requires LedgerValid(users, accounts, log, loans)
    requires account.ID != External && account.ID !in accounts && account.Balance == 0.0
    ensures LedgerValid(users, accounts[account.ID := account], log, loans)
  {
    forall i | 0 <= i < |log|
      ensures log[i].FromAccountID != account.ID && log[i].ToAccountID != account.ID
    {
      assert NamesExisting(log[i], accounts.Keys);
    }
    NetFlowUnnamed(log, account.ID);
  }

  /**
   * What entry `t` brings into the bank from outside: a deposit or a loan
   * disbursement its amount, a card payment minus its amount, a transfer
   * nothing.
   */
  function ExternalFlow(t: Transaction): Money
  {
    (if t.FromAccountID == External then t.Amount else 0.0) - (if t.ToAccountID == External then t.Amount else 0.0)
  }

  /** The net amount the entries of `log` brought into the bank. */
  function NetInflow(log: seq<Transaction>): Money
  {
    if log == [] then 0.0 else NetInflow(log[..|log| - 1]) + ExternalFlow(log[|log| - 1])
  }

  /** Logging one more entry changes the net inflow by that entry's external flow. */
  lemma NetInflowAppend(log: seq<Transaction>, t: Transaction)
    ensures NetInflow(log + [t]) == NetInflow(log) + ExternalFlow(t)
  {
    assert (log + [t])[..|log|] == log;
  }

  /** The net flow into an account, read off the account record. */
  function NetFlowOf(log: seq<Transaction>): Account -> Money
  {
    (a: Account) => NetFlow(log, a.ID)
  }

  /** The change an entry makes to an account, read off the account record. */
  function FlowOf(t: Transaction): Account -> Money
  {
    (a: Account) => Flow(t, a.ID)
  }

  /** The part of an entry's amount that goes to the account `a` when `id` names it. */
  function AmountAt(id: Id, amount: Money): Account -> Money
  {
    (a: Account) => if id == a.ID then amount else 0.0
  }

  /** Over accounts stored under their own ids, an amount placed at one id sums to that amount if the id is present. */
  lemma {:induction false} AmountAtSum(accounts: map<Id, Account>, ks: set<Id>, id: Id, amount: Money)
    requires ks <= accounts.Keys
    requires forall k :: k in ks ==> accounts[k].ID == k
    ensures SumOn(accounts, ks, AmountAt(id, amount)) == if id in ks then amount else 0.0
  {
    if id in ks {
      SumOnRemove(accounts, ks, AmountAt(id, amount), id);
      SumOnZero(accounts, ks - {id}, AmountAt(id, amount));
    } else {
      SumOnZero(accounts, ks, AmountAt(id, amount));
    }
  }

  /** Summed over all accounts, an entry that names only existing accounts moves exactly its external flow. */
  lemma EntryFlowSum(accounts: map<Id, Account>, t: Transaction)
    requires External !in accounts
    requires forall id :: id in accounts ==> accounts[id].ID == id
    requires NamesExisting(t, accounts.Keys)
    ensures SumOn(accounts, accounts.Keys, FlowOf(t)) == ExternalFlow(t)
  {
    var into := AmountAt(t.ToAccountID, t.Amount);
    var outOf := AmountAt(t.FromAccountID, t.Amount);
    SumOnAdd(accounts, accounts.Keys, FlowOf(t), outOf, into);
    AmountAtSum(accounts, accounts.Keys, t.ToAccountID, t.Amount);
    AmountAtSum(accounts, accounts.Keys, t.FromAccountID, t.Amount);
  }

  /** The net flows into all accounts add up to the net inflow of the log. */
  lemma {:induction false} NetFlowsSum(accounts: map<Id, Account>, log: seq<Transaction>)
    requires External !in accounts
    requires forall id :: id in accounts ==> accounts[id].ID == id
    requires forall i :: 0 <= i < |log| ==> NamesExisting(log[i], accounts.Keys)
    ensures SumOn(accounts, accounts.Keys, NetFlowOf(log)) == NetInflow(log)
    decreases |log|
  {
    if log == [] {
      SumOnZero(accounts, accounts.Keys, NetFlowOf(log));
    } else {
      var prefix := log[..|log| - 1];
      var t := log[|log| - 1];
      assert forall i :: 0 <= i < |prefix| ==> prefix[i] == log[i];
      assert log == prefix + [t];
      NetInflowAppend(prefix, t);
      NetFlowsSum(accounts, prefix);
      EntryFlowSum(accounts, t);
      SumOnAdd(accounts, accounts.Keys, NetFlowOf(prefix), FlowOf(t), NetFlowOf(log));
    }
  }

  /**
   * Conservation of money: in a valid ledger the balances of all accounts
   * add up to what deposits and loan disbursements brought in minus what
   * card payments took out. Transfers never change the total.
   */
  lemma Conservation(users: map<Id, User>, accounts: map<Id, Account>, log: seq<Transaction>, loans: map<Id, Loan>)
    requires LedgerValid(users, accounts, log, loans)
    ensures TotalBalance(accounts) == NetInflow(log)
  {
    SumOnCongruent(accounts, BalanceOf, accounts, NetFlowOf(log), accounts.Keys);
    NetFlowsSum(accounts, log);
  }
}
