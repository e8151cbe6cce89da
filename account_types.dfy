/**
 * The query-string schemas of the account endpoints: an optional type
 * filter, a page size `limit` in [1, 100] with a default, and a non-negative
 * `offset` defaulting to 0; the transaction history also takes an optional
 * date range.
 */
module AccountTypes {
  import opened Common
  import opened Domain

  /** Query parameters after coercion to numbers and dates, before defaults. */
  datatype AccountsQueryInput = AccountsQueryInput(
    accountType: Option<string>, limit: Option<int>, offset: Option<int>)

  datatype TransactionsQueryInput = TransactionsQueryInput(
    txType: Option<string>, startDate: Option<Timestamp>, endDate: Option<Timestamp>,
    limit: Option<int>, offset: Option<int>)

  /** GetAccountsQuery: the parsed accounts query, defaults applied. */
  datatype GetAccountsQuery = GetAccountsQuery(
    accountType: Option<AccountType>, limit: nat, offset: nat)

  /** GetTransactionsQuery: the parsed transactions query, defaults applied. */
  datatype GetTransactionsQuery = GetTransactionsQuery(
    txType: Option<TransactionType>, startDate: Option<Timestamp>, endDate: Option<Timestamp>,
    limit: nat, offset: nat)

  const DefaultAccountsLimit := 10
  const DefaultTransactionsLimit := 20
  const MaxLimit := 100

  function AccountTypeName(t: AccountType): string
  {
    match t
    case CHECKING => "CHECKING"
    case SAVINGS => "SAVINGS"
    case CREDIT => "CREDIT"
  }

  /** `z.enum(['CHECKING', 'SAVINGS', 'CREDIT'])` */
  function ParseAccountType(s: string): (r: Option<AccountType>)
    ensures r.Some? ==> AccountTypeName(r.value) == s
    ensures r.None? <==> s != "CHECKING" && s != "SAVINGS" && s != "CREDIT"
  {
    if s == "CHECKING" then Some(CHECKING)
    else if s == "SAVINGS" then Some(SAVINGS)
    else if s == "CREDIT" then Some(AccountType.CREDIT)
    else None
  }

  function TransactionTypeName(t: TransactionType): string
  {
    match t
    case DEBIT => "DEBIT"
    case CREDIT => "CREDIT"
  }

  /** `z.enum(['DEBIT', 'CREDIT'])` */
  function ParseTransactionType(s: string): (r: Option<TransactionType>)
    ensures r.Some? ==> TransactionTypeName(r.value) == s
    ensures r.None? <==> s != "DEBIT" && s != "CREDIT"
  {
    if s == "DEBIT" then Some(TransactionType.DEBIT)
    else if s == "CREDIT" then Some(TransactionType.CREDIT)
    else None
  }

  /** Every enum value is accepted back by the schema under its own name. */
  lemma EnumNamesRoundTrip(a: AccountType, t: TransactionType)
    ensures ParseAccountType(AccountTypeName(a)) == Some(a)
    ensures ParseTransactionType(TransactionTypeName(t)) == Some(t)
  {
  }

  function EnumIssues<T>(field: string, raw: Option<string>, parsed: Option<T>): seq<Issue>
  {
    if raw.Some? && parsed.None? then [Issue(field, "Invalid enum value")] else []
  }

  /** `z.coerce.number().min(1).max(100).default(d)` once `d` has replaced a missing value. */
  function LimitIssues(limit: int): seq<Issue>
  {
    if limit < 1 then [Issue("limit", "Limit must be at least 1")]
    else if limit > MaxLimit then [Issue("limit", "Limit must be at most 100")]
    else []
  }

  /** `z.coerce.number().min(0).default(0)` */
  function OffsetIssues(offset: int): seq<Issue>
  {
    if offset < 0 then [Issue("offset", "Offset must be non-negative")] else []
  }

  function WithDefault(v: Option<int>, d: int): int
  {
    if v.Some? then v.value else d
  }

  /** getAccountsQuerySchema.safeParse */
  function ParseAccountsQuery(q: AccountsQueryInput): (r: Parsed<GetAccountsQuery>)
    ensures r.Valid? <==>
      && (q.accountType.None? || ParseAccountType(q.accountType.value).Some?)
      && 1 <= WithDefault(q.limit, DefaultAccountsLimit) <= MaxLimit
      && 0 <= WithDefault(q.offset, 0)
    ensures r.Valid? ==>
      && r.value.limit == (if q.limit.Some? then q.limit.value else DefaultAccountsLimit)
      && r.value.offset == (if q.offset.Some? then q.offset.value else 0)
      && (q.accountType.None? ==> r.value.accountType.None?)
      && (q.accountType.Some? ==>
            r.value.accountType.Some? && AccountTypeName(r.value.accountType.value) == q.accountType.value)
    ensures r.Invalid? ==> |r.issues| > 0
  {
    var accountType := if q.accountType.Some? then ParseAccountType(q.accountType.value) else None;
    var limit := WithDefault(q.limit, DefaultAccountsLimit);
    var offset := WithDefault(q.offset, 0);
    var issues := EnumIssues("type", q.accountType, accountType) + LimitIssues(limit) + OffsetIssues(offset);
    if issues == [] then Valid(GetAccountsQuery(accountType, limit, offset)) else Invalid(issues)
  }

  /** getTransactionsQuerySchema.safeParse; the two dates are independently optional. */
  function ParseTransactionsQuery(q: TransactionsQueryInput): (r: Parsed<GetTransactionsQuery>)
    ensures r.Valid? <==>
      && (q.txType.None? || ParseTransactionType(q.txType.value).Some?)
      && 1 <= WithDefault(q.limit, DefaultTransactionsLimit) <= MaxLimit
      && 0 <= WithDefault(q.offset, 0)
    ensures r.Valid? ==>
      && r.value.limit == (if q.limit.Some? then q.limit.value else DefaultTransactionsLimit)
      && r.value.offset == (if q.offset.Some? then q.offset.value else 0)
      && r.value.startDate == q.startDate && r.value.endDate == q.endDate
      && (q.txType.None? ==> r.value.txType.None?)
      && (q.txType.Some? ==>
            r.value.txType.Some? && TransactionTypeName(r.value.txType.value) == q.txType.value)
    ensures r.Invalid? ==> |r.issues| > 0
  {
    var txType := if q.txType.Some? then ParseTransactionType(q.txType.value) else None;
    var limit := WithDefault(q.limit, DefaultTransactionsLimit);
    var offset := WithDefault(q.offset, 0);
    var issues := EnumIssues("type", q.txType, txType) + LimitIssues(limit) + OffsetIssues(offset);
    if issues == [] then Valid(GetTransactionsQuery(txType, q.startDate, q.endDate, limit, offset))
    else Invalid(issues)
  }
}
