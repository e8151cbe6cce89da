/**
 * The posting engine (TransactionService): deposit and withdraw check the
 * amount, then the caller's ownership of the account, then (for a
 * withdrawal) the funds, and finally write one ledger entry and the new
 * balance together as one database transaction.
 */
module TransactionService {
  import opened Common
  import opened Domain
  import opened Ledger
  import opened Database

  const InvalidAmountMessage := "Amount must be greater than 0"
  const InsufficientFundsMessage := "Insufficient funds"

  /** What a successful posting returns: the new entry and the updated account row. */
  datatype Posting = Posting(transaction: Transaction, account: Account)

  /** The entry a posting writes: `description || fallback`, the balance after the posting. */
  function EntryFor(id: Id, accountId: Id, txType: TransactionType, amount: Money,
                    description: Option<string>, fallback: string, balanceAfter: Money,
                    now: Timestamp): Transaction
  {
    Transaction(id, accountId, txType, None, amount, OrDefault(description, fallback), None,
                balanceAfter, now)
  }

  /**
   * The `prisma.$transaction([...])` of both operations: append the entry and
   * set account i's balance to the entry's balanceAfter, both or neither.
   */
  method PostEntry(db: Db, i: nat, txType: TransactionType, amount: Money,
                   description: Option<string>, fallback: string, now: Timestamp)
    returns (p: Posting)
    requires db.Wf() && i < |db.accounts| && amount > 0
    modifies db`accounts, db`transactions, db`nextId
    ensures db.Wf()
    ensures var a := old(db.accounts[i]);
      var e := EntryFor(old(db.nextId), a.id, txType, amount, description, fallback,
                        a.balance + (if txType == TransactionType.CREDIT then amount else -amount), now);
      && p == Posting(e, a.(balance := e.balanceAfter))
      && db.transactions == old(db.transactions) + [e]
      && db.accounts == old(db.accounts)[i := p.account]
      && db.nextId == old(db.nextId) + 1
    ensures PostingKeeps(old(db.accounts), old(db.transactions), db.accounts, db.transactions, now)
  {
    var account := db.accounts[i];
    var newBalance := if txType == TransactionType.CREDIT then account.balance + amount
                      else account.balance - amount;
    var entry := EntryFor(db.nextId, account.id, txType, amount, description, fallback, newBalance, now);
    var updated := account.(balance := newBalance);
    PostingKeepsTablesWf(db.users, db.accounts, db.transactions, db.cards, db.nextId, i, entry, newBalance);
    PostingKeepsAll(db.accounts, db.transactions, i, updated, entry, now);
    db.accounts, db.transactions, db.nextId := db.accounts[i := updated], db.transactions + [entry], db.nextId + 1;
    p := Posting(entry, updated);
  }

  /**
   * Deposit `amount` into `accountId` on behalf of `userId`. A non-positive
   * amount is rejected before the account is looked up; a missing account and
   * another user's account give the same NotFound. On success the balance
   * grows by `amount` and exactly one CREDIT entry is appended.
   */
  method Deposit(db: Db, userId: Id, accountId: Id, amount: Money, description: Option<string>,
                 now: Timestamp)
    returns (r: Result<Posting>)
    requires db.Wf()
    modifies db`accounts, db`transactions, db`nextId
    ensures db.Wf()
    ensures old(db.Valid()) ==> db.Valid()
    ensures amount <= 0 ==> r == Err(BadRequest(InvalidAmountMessage)) && unchanged(db)
    ensures amount > 0 && OwnedAccountIndex(old(db.accounts), accountId, userId).None? ==>
      r == Err(NotFound(AccountNotFoundMessage)) && unchanged(db)
    ensures r.Ok? <==> amount > 0 && OwnedAccountIndex(old(db.accounts), accountId, userId).Some?
    ensures r.Ok? ==>
      var i := OwnedAccountIndex(old(db.accounts), accountId, userId).value;
      var a := old(db.accounts[i]);
      var e := EntryFor(old(db.nextId), accountId, TransactionType.CREDIT, amount, description,
                        "Deposit", a.balance + amount, now);
      && r.value == Posting(e, a.(balance := a.balance + amount))
      && db.transactions == old(db.transactions) + [e]
      && db.accounts == old(db.accounts)[i := r.value.account]
    ensures r.Ok? ==> r.value.account.balance == r.value.transaction.balanceAfter
    ensures PostingKeeps(old(db.accounts), old(db.transactions), db.accounts, db.transactions, now)
  {
    if amount <= 0 {
      return Err(BadRequest(InvalidAmountMessage));
    }
    var found := OwnedAccountIndex(db.accounts, accountId, userId);
    if found.None? {
      return Err(NotFound(AccountNotFoundMessage));
    }
    var p := PostEntry(db, found.value, TransactionType.CREDIT, amount, description, "Deposit", now);
    r := Ok(p);
  }

  /**
   * Withdraw `amount` from `accountId` on behalf of `userId`. The checks run in
   * the order amount, ownership, funds; a balance below `amount` is rejected
   * and a balance equal to it is drained to zero. On success the balance
   * shrinks by `amount`, stays non-negative, and exactly one DEBIT entry is
   * appended.
   */
  method Withdraw(db: Db, userId: Id, accountId: Id, amount: Money, description: Option<string>,
                  now: Timestamp)
    returns (r: Result<Posting>)
    requires db.Wf()
    modifies db`accounts, db`transactions, db`nextId
    ensures db.Wf()
    ensures old(db.Valid()) ==> db.Valid()
    ensures amount <= 0 ==> r == Err(BadRequest(InvalidAmountMessage)) && unchanged(db)
    ensures amount > 0 && OwnedAccountIndex(old(db.accounts), accountId, userId).None? ==>
      r == Err(NotFound(AccountNotFoundMessage)) && unchanged(db)
    ensures amount > 0 && OwnedAccountIndex(old(db.accounts), accountId, userId).Some? ==>
      var a := old(db.accounts[OwnedAccountIndex(db.accounts, accountId, userId).value]);
      a.balance < amount ==> r == Err(BadRequest(InsufficientFundsMessage)) && unchanged(db)
    ensures r.Ok? <==>
      && amount > 0
      && OwnedAccountIndex(old(db.accounts), accountId, userId).Some?
      && amount <= old(db.accounts[OwnedAccountIndex(db.accounts, accountId, userId).value]).balance
    ensures r.Ok? ==>
      var i := OwnedAccountIndex(old(db.accounts), accountId, userId).value;
      var a := old(db.accounts[i]);
      var e := EntryFor(old(db.nextId), accountId, TransactionType.DEBIT, amount, description,
                        "Withdrawal", a.balance - amount, now);
      && r.value == Posting(e, a.(balance := a.balance - amount))
      && db.transactions == old(db.transactions) + [e]
      && db.accounts == old(db.accounts)[i := r.value.account]
    ensures r.Ok? ==> r.value.account.balance == r.value.transaction.balanceAfter >= 0
    ensures PostingKeeps(old(db.accounts), old(db.transactions), db.accounts, db.transactions, now)
  {
    if amount <= 0 {
      return Err(BadRequest(InvalidAmountMessage));
    }
    var found := OwnedAccountIndex(db.accounts, accountId, userId);
    if found.None? {
      return Err(NotFound(AccountNotFoundMessage));
    }
    if db.accounts[found.value].balance < amount {
      return Err(BadRequest(InsufficientFundsMessage));
    }
    var p := PostEntry(db, found.value, TransactionType.DEBIT, amount, description, "Withdrawal", now);
    r := Ok(p);
  }
}
