/**
 * The relational database the services share, as one object holding its four
 * tables in insertion order, and the lookups the services issue against them
 * (`findUnique` by a unique key, `findFirst` by a key and an owner).
 */
module Database {
  import opened Common
  import opened Domain
  import opened Seqs
  import opened Ledger

  /**
   * Ids unique per table, emails unique, and every id the database handed
   * out below the counter.
   */
  predicate TablesWf(users: seq<User>, accounts: seq<Account>, transactions: seq<Transaction>,
                     cards: seq<Card>, nextId: nat)
  {
    && UserIdsUnique(users) && EmailsUnique(users)
    && AccountIdsUnique(accounts) && TransactionIdsUnique(transactions) && CardIdsUnique(cards)
    && (forall u :: u in users ==> u.id < nextId)
    && (forall e :: e in transactions ==> e.id < nextId)
    && (forall c :: c in cards ==> c.id < nextId)
  }

  /** Posting an entry under a fresh id and changing an account's balance keeps the tables well formed. */
  lemma PostingKeepsTablesWf(users: seq<User>, accounts: seq<Account>, transactions: seq<Transaction>,
                             cards: seq<Card>, nextId: nat, i: nat, e: Transaction, balance: Money)
    requires TablesWf(users, accounts, transactions, cards, nextId)
    requires i < |accounts| && e.id == nextId
    ensures TablesWf(users, accounts[i := accounts[i].(balance := balance)], transactions + [e], cards, nextId + 1)
  {
    assert forall x :: x in transactions + [e] ==> x.id < nextId + 1;
  }

  class Db {
    var users: seq<User>
    var accounts: seq<Account>
    var transactions: seq<Transaction>
    var cards: seq<Card>
    /** The next identifier the database hands out; every stored id is below it. */
    var nextId: nat

    /** What the schema enforces (see TablesWf); every service needs this and keeps it. */
    ghost predicate Wf()
      reads this
    {
      TablesWf(users, accounts, transactions, cards, nextId)
    }

    /**
     * A database built only through the services: well formed, and its ledger
     * consistent. No service requires the ledger part (a database seeded
     * directly may break it); the posting services keep it when it holds.
     */
    ghost predicate Valid()
      reads this
    {
      Wf() && LedgerInvariant(accounts, transactions)
    }

    constructor ()
      ensures Valid()
      ensures users == [] && accounts == [] && transactions == [] && cards == []
    {
      users, accounts, transactions, cards := [], [], [], [];
      nextId := 0;
    }
  }

  const AccountNotFoundMessage := "Account not found"

  /** `findUnique({ where: { id } })` on the accounts table. */
  function AccountIndex(accounts: seq<Account>, id: Id): (r: Option<nat>)
    ensures r.Some? ==> r.value < |accounts| && accounts[r.value].id == id
    ensures r.None? <==> forall a :: a in accounts ==> a.id != id
  {
    IndexWhere(accounts, (a: Account) => a.id == id)
  }

  /**
   * `findFirst({ where: { id, userId } })` on the accounts table: a missing
   * account and another user's account both give None.
   */
  function OwnedAccountIndex(accounts: seq<Account>, id: Id, userId: Id): (r: Option<nat>)
    ensures r.Some? <==> exists a :: a in accounts && a.id == id && a.userId == userId
    ensures r.Some? ==> r.value < |accounts| && accounts[r.value].id == id && accounts[r.value].userId == userId
  {
    IndexWhere(accounts, (a: Account) => a.id == id && a.userId == userId)
  }

  /** Whether the account with id `accountId` exists and belongs to `userId`. */
  predicate OwnsAccount(accounts: seq<Account>, accountId: Id, userId: Id)
  {
    OwnedAccountIndex(accounts, accountId, userId).Some?
  }

  /** `findUnique({ where: { id } })` on the users table. */
  function UserIndex(users: seq<User>, id: Id): (r: Option<nat>)
    ensures r.Some? ==> r.value < |users| && users[r.value].id == id
    ensures r.None? <==> forall u :: u in users ==> u.id != id
  {
    IndexWhere(users, (u: User) => u.id == id)
  }

  /** `findUnique({ where: { email } })` on the users table. */
  function UserIndexByEmail(users: seq<User>, email: string): (r: Option<nat>)
    ensures r.Some? ==> r.value < |users| && users[r.value].email == email
    ensures r.None? <==> forall u :: u in users ==> u.email != email
  {
    IndexWhere(users, (u: User) => u.email == email)
  }

  /** Whether a card's account belongs to `userId` (the `account: { userId }` relation filter). */
  predicate CardOwnedBy(accounts: seq<Account>, c: Card, userId: Id)
  {
    OwnsAccount(accounts, c.accountId, userId)
  }

  /** `findFirst({ where: { id, account: { userId } } })` on the cards table. */
  function OwnedCardIndex(cards: seq<Card>, accounts: seq<Account>, cardId: Id, userId: Id): (r: Option<nat>)
    ensures r.Some? <==> exists c :: c in cards && c.id == cardId && CardOwnedBy(accounts, c, userId)
    ensures r.Some? ==> r.value < |cards| && cards[r.value].id == cardId
                        && CardOwnedBy(accounts, cards[r.value], userId)
  {
    IndexWhere(cards, (c: Card) => c.id == cardId && CardOwnedBy(accounts, c, userId))
  }
}
