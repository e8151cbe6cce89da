/**
 * The rows of the four database tables the services read and write (users,
 * accounts, transactions, cards) and the enumerations of the schema.
 * Identifiers are natural numbers handed out by the database; money is an
 * exact number of minor units (cents); timestamps are milliseconds.
 */
module Domain {
  import opened Common

  type Id = nat
  type Money = int
  type Timestamp = int

  datatype Role = USER | ADMIN
  datatype AccountType = CHECKING | SAVINGS | CREDIT
  /** CREDIT is money coming into the account, DEBIT money going out. */
  datatype TransactionType = DEBIT | CREDIT
  datatype CardType = DEBIT | CREDIT
  datatype CardStatus = ACTIVE | INACTIVE | BLOCKED

  /** A user row; `password` holds the password hash, never the password. */
  datatype User = User(
    id: Id,
    email: string,
    password: string,
    firstName: string,
    lastName: string,
    phoneNumber: Option<string>,
    dateOfBirth: Option<string>,
    address: Option<string>,
    role: Role,
    isActive: bool,
    lastLogin: Option<Timestamp>)

  datatype Account = Account(
    id: Id,
    userId: Id,
    accountNumber: string,
    accountType: AccountType,
    balance: Money,
    currency: string,
    isActive: bool)

  /** A ledger entry (the schema's Transaction): one movement of money on one account. */
  datatype Transaction = Transaction(
    id: Id,
    accountId: Id,
    txType: TransactionType,
    category: Option<string>,
    amount: Money,
    description: string,
    merchant: Option<string>,
    balanceAfter: Money,
    createdAt: Timestamp)

  datatype Card = Card(
    id: Id,
    accountId: Id,
    cardNumber: string,
    cardType: CardType,
    cardholderName: string,
    expiryDate: Timestamp,
    cvv: string,
    creditLimit: Option<Money>,
    status: CardStatus)

  /** What a signed token carries (config/jwt). */
  datatype TokenPayload = TokenPayload(userId: Id, email: string, role: Role)

  /** The user fields returned by lookups that select id, email, names, role and isActive. */
  datatype UserSummary = UserSummary(
    id: Id, email: string, firstName: string, lastName: string, role: Role, isActive: bool)

  function SummaryOf(u: User): UserSummary
  {
    UserSummary(u.id, u.email, u.firstName, u.lastName, u.role, u.isActive)
  }

  /** Every user column except the password hash (getProfile's selection; login's reply). */
  datatype Profile = Profile(
    id: Id, email: string, firstName: string, lastName: string, phoneNumber: Option<string>,
    dateOfBirth: Option<string>, address: Option<string>, role: Role, isActive: bool,
    lastLogin: Option<Timestamp>)

  function ProfileOf(u: User): Profile
  {
    Profile(u.id, u.email, u.firstName, u.lastName, u.phoneNumber, u.dateOfBirth, u.address,
            u.role, u.isActive, u.lastLogin)
  }

  /**
   * bcrypt, abstracted: `hash` stands for bcrypt.hash and a password matches a
   * stored hash (bcrypt.compare) exactly when it hashes to it.
   */
  predicate PasswordMatches(hash: string -> string, password: string, hashed: string)
  {
    hash(password) == hashed
  }

  predicate UserIdsUnique(users: seq<User>)
  {
    forall i, j :: 0 <= i < j < |users| ==> users[i].id != users[j].id
  }

  predicate EmailsUnique(users: seq<User>)
  {
    forall i, j :: 0 <= i < j < |users| ==> users[i].email != users[j].email
  }

  predicate AccountIdsUnique(accounts: seq<Account>)
  {
    forall i, j :: 0 <= i < j < |accounts| ==> accounts[i].id != accounts[j].id
  }

  predicate TransactionIdsUnique(txs: seq<Transaction>)
  {
    forall i, j :: 0 <= i < j < |txs| ==> txs[i].id != txs[j].id
  }

  predicate CardIdsUnique(cards: seq<Card>)
  {
    forall i, j :: 0 <= i < j < |cards| ==> cards[i].id != cards[j].id
  }
}
