/**
 * AccountService: the caller's accounts page by page, one account with an
 * ownership check, an account's transaction history filtered and paged, and
 * a per-type balance summary of the caller's active accounts. Every query
 * reads the tables it is given and changes nothing.
 */
module AccountService {
  import opened Common
  import opened Domain
  import opened Seqs
  import opened Ledger
  import opened Database
  import opened AccountTypes

  const ForbiddenMessage := "You do not have access to this account"

  /** The selected account columns: everything but the owner's id. */
  datatype AccountView = AccountView(
    id: Id, accountNumber: string, accountType: AccountType, balance: Money, currency: string,
    isActive: bool)

  function ViewOf(a: Account): AccountView
  {
    AccountView(a.id, a.accountNumber, a.accountType, a.balance, a.currency, a.isActive)
  }

  datatype Pagination = Pagination(total: nat, limit: nat, offset: nat, hasMore: bool)

  /**
   * The pagination block of a page of `rows` rows cut from `total` matching
   * rows: `hasMore` says whether rows remain after the page.
   */
  function PaginationOf(total: nat, limit: nat, offset: nat, rows: nat): (p: Pagination)
    requires rows == if offset >= total then 0 else Min(limit, total - offset)
    ensures p.total == total && p.limit == limit && p.offset == offset
    ensures p.hasMore <==> offset + rows < total
  {
    Pagination(total, limit, offset, offset + limit < total)
  }

  datatype AccountsPage = AccountsPage(accounts: seq<AccountView>, pagination: Pagination)

  predicate MatchesAccountsQuery(userId: Id, accountType: Option<AccountType>, a: Account)
  {
    a.userId == userId && (accountType.None? || a.accountType == accountType.value)
  }

  /** The `where` of getUserAccounts, newest first. */
  function MatchingAccounts(accounts: seq<Account>, userId: Id, accountType: Option<AccountType>)
    : seq<Account>
  {
    Reverse(Filter(accounts, (a: Account) => MatchesAccountsQuery(userId, accountType, a)))
  }

  function Views(s: seq<Account>): (r: seq<AccountView>)
    ensures |r| == |s| && forall i :: 0 <= i < |s| ==> r[i] == ViewOf(s[i])
  {
    seq(|s|, i requires 0 <= i < |s| => ViewOf(s[i]))
  }

  /**
   * getUserAccounts: the caller's accounts (of the requested type, if any),
   * newest first, skipping `offset` and returning at most `limit`; `total`
   * counts every matching account before paging.
   */
  function GetUserAccounts(accounts: seq<Account>, userId: Id, query: GetAccountsQuery)
    : (r: AccountsPage)
    ensures var m := MatchingAccounts(accounts, userId, query.accountType);
      && r.pagination.total == |m|
      && r.pagination.limit == query.limit && r.pagination.offset == query.offset
      && |r.accounts| == (if query.offset >= |m| then 0 else Min(query.limit, |m| - query.offset))
      && (forall i :: 0 <= i < |r.accounts| ==> r.accounts[i] == ViewOf(m[query.offset + i]))
      && (r.pagination.hasMore <==> query.offset + |r.accounts| < |m|)
  {
    var m := MatchingAccounts(accounts, userId, query.accountType);
    var page := Page(m, query.offset, query.limit);
    AccountsPage(Views(page), PaginationOf(|m|, query.limit, query.offset, |page|))
  }

  /** Every account getUserAccounts returns is one of the caller's, of the requested type. */
  lemma UserAccountsAreOwn(
    accounts: seq<Account>, userId: Id, query: GetAccountsQuery, k: nat)
    requires k < |GetUserAccounts(accounts, userId, query).accounts|
    ensures exists a :: a in accounts && MatchesAccountsQuery(userId, query.accountType, a)
                     && GetUserAccounts(accounts, userId, query).accounts[k] == ViewOf(a)
  {
    var f := Filter(accounts, (a: Account) => MatchesAccountsQuery(userId, query.accountType, a));
    var m := MatchingAccounts(accounts, userId, query.accountType);
    ReverseSameElements(f);
    assert m[query.offset + k] in f;
  }

  /**
   * getAccountById: NotFound when no account has the id, Forbidden when it
   * belongs to someone else, otherwise the account without its owner id.
   */
  function GetAccountById(accounts: seq<Account>, accountId: Id, userId: Id)
    : (r: Result<AccountView>)
    ensures (forall a :: a in accounts ==> a.id != accountId) <==> r == Err(NotFound(AccountNotFoundMessage))
    ensures r.Ok? || r == Err(NotFound(AccountNotFoundMessage)) || r == Err(Forbidden(ForbiddenMessage))
    ensures r.Ok? ==> exists a :: a in accounts && a.id == accountId && a.userId == userId && r.value == ViewOf(a)
    ensures AccountIdsUnique(accounts) ==> (r.Ok? <==> OwnsAccount(accounts, accountId, userId))
  {
    match AccountIndex(accounts, accountId)
    case None => Err(NotFound(AccountNotFoundMessage))
    case Some(i) =>
      if accounts[i].userId != userId then Err(Forbidden(ForbiddenMessage))
      else Ok(ViewOf(accounts[i]))
  }

  /**
   * For another user's account, getAccountById answers Forbidden, while the
   * posting and card services, which look the account up by id and owner
   * together, find nothing and answer NotFound as for a missing account.
   */
  lemma ForeignAccountPolicies(accounts: seq<Account>, accountId: Id, userId: Id, a: Account)
    requires AccountIdsUnique(accounts)
    requires a in accounts && a.id == accountId && a.userId != userId
    ensures GetAccountById(accounts, accountId, userId) == Err(Forbidden(ForbiddenMessage))
    ensures OwnedAccountIndex(accounts, accountId, userId).None?
  {
    var j :| 0 <= j < |accounts| && accounts[j] == a;
    var i := AccountIndex(accounts, accountId).value;
    assert i == j;
  }

  /** The selected transaction columns: everything but the account id. */
  datatype TransactionView = TransactionView(
    id: Id, txType: TransactionType, category: Option<string>, amount: Money,
    description: string, merchant: Option<string>, balanceAfter: Money, createdAt: Timestamp)

  function TransactionViewOf(e: Transaction): TransactionView
  {
    TransactionView(e.id, e.txType, e.category, e.amount, e.description, e.merchant,
                    e.balanceAfter, e.createdAt)
  }

  datatype TransactionsPage = TransactionsPage(transactions: seq<TransactionView>, pagination: Pagination)

  /** The `where` of getAccountTransactions; both date bounds are inclusive. */
  predicate MatchesTransactionsQuery(accountId: Id, q: GetTransactionsQuery, e: Transaction)
  {
    && e.accountId == accountId
    && (q.txType.None? || e.txType == q.txType.value)
    && (q.startDate.None? || q.startDate.value <= e.createdAt)
    && (q.endDate.None? || e.createdAt <= q.endDate.value)
  }

  function MatchingTransactions(txs: seq<Transaction>, accountId: Id, q: GetTransactionsQuery)
    : seq<Transaction>
  {
    Reverse(Filter(txs, (e: Transaction) => MatchesTransactionsQuery(accountId, q, e)))
  }

  function TransactionViews(s: seq<Transaction>): (r: seq<TransactionView>)
    ensures |r| == |s| && forall i :: 0 <= i < |s| ==> r[i] == TransactionViewOf(s[i])
  {
    seq(|s|, i requires 0 <= i < |s| => TransactionViewOf(s[i]))
  }

  /**
   * getAccountTransactions: the ownership check runs first and its error is
   * passed on unchanged; then the account's matching entries, newest first,
   * paged like the accounts.
   */
  function GetAccountTransactions(
    accounts: seq<Account>, txs: seq<Transaction>, accountId: Id, userId: Id,
    query: GetTransactionsQuery)
    : (r: Result<TransactionsPage>)
    ensures GetAccountById(accounts, accountId, userId).Err? ==>
      r == Err(GetAccountById(accounts, accountId, userId).error)
    ensures r.Ok? <==> GetAccountById(accounts, accountId, userId).Ok?
    ensures r.Ok? ==>
      var m := MatchingTransactions(txs, accountId, query);
      && r.value.pagination.total == |m|
      && r.value.pagination.limit == query.limit && r.value.pagination.offset == query.offset
      && |r.value.transactions|
         == (if query.offset >= |m| then 0 else Min(query.limit, |m| - query.offset))
      && (forall i :: 0 <= i < |r.value.transactions| ==>
            r.value.transactions[i] == TransactionViewOf(m[query.offset + i]))
      && (r.value.pagination.hasMore <==> query.offset + |r.value.transactions| < |m|)
  {
    match GetAccountById(accounts, accountId, userId)
    case Err(e) => Err(e)
    case Ok(_) =>
      var m := MatchingTransactions(txs, accountId, query);
      var page := Page(m, query.offset, query.limit);
      Ok(TransactionsPage(TransactionViews(page), PaginationOf(|m|, query.limit, query.offset, |page|)))
  }

  /** Every entry in a history page belongs to the account and passes the type and date filters. */
  lemma HistoryMatchesQuery(
    accounts: seq<Account>, txs: seq<Transaction>, accountId: Id, userId: Id,
    query: GetTransactionsQuery, k: nat)
    requires GetAccountTransactions(accounts, txs, accountId, userId, query).Ok?
    requires k < |GetAccountTransactions(accounts, txs, accountId, userId, query).value.transactions|
    ensures exists e ::
      && e in txs && MatchesTransactionsQuery(accountId, query, e)
      && GetAccountTransactions(accounts, txs, accountId, userId, query).value.transactions[k]
         == TransactionViewOf(e)
  {
    var f := Filter(txs, (e: Transaction) => MatchesTransactionsQuery(accountId, query, e));
    var m := MatchingTransactions(txs, accountId, query);
    ReverseSameElements(f);
    assert m[query.offset + k] in f;
  }

  /**
   * When an account's entries are in creation order, so is any filter of the
   * table that keeps only that account's entries.
   */
  lemma {:induction false} AccountFilterChronological(txs: seq<Transaction>, accountId: Id, p: Transaction -> bool)
    requires Chronological(EntriesOf(txs, accountId))
    requires forall e :: p(e) ==> e.accountId == accountId
    ensures Chronological(Filter(txs, p))
  {
    if txs != [] {
      var init, last := txs[..|txs| - 1], txs[|txs| - 1];
      var es, es0 := EntriesOf(txs, accountId), EntriesOf(init, accountId);
      assert es == es0 + (if last.accountId == accountId then [last] else []);
      assert forall k :: 0 <= k < |es0| ==> es0[k] == es[k];
      AccountFilterChronological(init, accountId, p);
      var f0 := Filter(init, p);
      if p(last) {
        forall k | 0 <= k < |f0| ensures f0[k].createdAt <= last.createdAt {
          assert f0[k] in init && f0[k].accountId == accountId;
          var j :| 0 <= j < |es0| && es0[j] == f0[k];
          assert es[|es0|] == last;
        }
      }
    }
  }

  /**
   * Reverse insertion order is `orderBy: { createdAt: 'desc' }`: when the
   * account's entries were written in creation order (as postings with a
   * clock that does not run backwards keep them), a history page lists them
   * with creation times not increasing.
   */
  lemma HistoryNewestFirst(
    accounts: seq<Account>, txs: seq<Transaction>, accountId: Id, userId: Id,
    query: GetTransactionsQuery)
    requires GetAccountTransactions(accounts, txs, accountId, userId, query).Ok?
    requires Chronological(EntriesOf(txs, accountId))
    ensures var ts := GetAccountTransactions(accounts, txs, accountId, userId, query).value.transactions;
      forall i, j :: 0 <= i < j < |ts| ==> ts[i].createdAt >= ts[j].createdAt
  {
    var f := Filter(txs, (e: Transaction) => MatchesTransactionsQuery(accountId, query, e));
    AccountFilterChronological(txs, accountId, (e: Transaction) => MatchesTransactionsQuery(accountId, query, e));
    assert MatchingTransactions(txs, accountId, query) == Reverse(f);
  }

  datatype Summary = Summary(
    totalBalance: Money, checking: Money, savings: Money, credit: Money, accountCount: nat)

  /** The `where: { userId, isActive: true }` of getAccountsSummary. */
  function ActiveAccountsOf(accounts: seq<Account>, userId: Id): seq<Account>
  {
    Filter(accounts, (a: Account) => a.userId == userId && a.isActive)
  }

  /** The sum of the balances of the accounts of type `t`. */
  function SumOfType(accounts: seq<Account>, t: AccountType): Money
  {
    if accounts == [] then 0
    else
      var a := accounts[|accounts| - 1];
      SumOfType(accounts[..|accounts| - 1], t) + (if a.accountType == t then a.balance else 0)
  }

  /** The sum of all balances. */
  function SumAll(accounts: seq<Account>): Money
  {
    if accounts == [] then 0 else SumAll(accounts[..|accounts| - 1]) + accounts[|accounts| - 1].balance
  }

  /** Every account has one of the three types, so the total splits into the three per-type sums. */
  lemma {:induction false} TotalIsSumOfTypes(accounts: seq<Account>)
    ensures SumAll(accounts)
         == SumOfType(accounts, CHECKING) + SumOfType(accounts, SAVINGS) + SumOfType(accounts, AccountType.CREDIT)
  {
    if accounts != [] {
      TotalIsSumOfTypes(accounts[..|accounts| - 1]);
    }
  }

  /**
   * getAccountsSummary: over the caller's active accounts, the count, the
   * balance total, and the balances summed per account type.
   */
  method GetAccountsSummary(accounts: seq<Account>, userId: Id) returns (s: Summary)
    ensures var active := ActiveAccountsOf(accounts, userId);
      && s.accountCount == |active|
      && s.totalBalance == SumAll(active)
      && s.checking == SumOfType(active, CHECKING)
      && s.savings == SumOfType(active, SAVINGS)
      && s.credit == SumOfType(active, AccountType.CREDIT)
    ensures s.totalBalance == s.checking + s.savings + s.credit
  {
    var active := ActiveAccountsOf(accounts, userId);
    s := Summary(0, 0, 0, 0, |active|);
    for k := 0 to |active|
      invariant s.accountCount == |active|
      invariant s.totalBalance == SumAll(active[..k])
      invariant s.checking == SumOfType(active[..k], CHECKING)
      invariant s.savings == SumOfType(active[..k], SAVINGS)
      invariant s.credit == SumOfType(active[..k], AccountType.CREDIT)
    {
      var a := active[k];
      assert active[..k + 1][..k] == active[..k];
      s := s.(totalBalance := s.totalBalance + a.balance);
      if a.accountType == CHECKING {
        s := s.(checking := s.checking + a.balance);
      } else if a.accountType == SAVINGS {
        s := s.(savings := s.savings + a.balance);
      } else if a.accountType == AccountType.CREDIT {
        s := s.(credit := s.credit + a.balance);
      }
    }
    assert active[..|active|] == active;
    TotalIsSumOfTypes(active);
  }
}
