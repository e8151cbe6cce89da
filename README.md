# Banking-App core in Dafny

A verified model of the business rules of a personal-banking web application:
the backend services that post deposits and withdrawals, answer account, card
and profile queries scoped to the logged-in user, register and log users in,
the request schemas that validate their input, the bearer-token check in front
of them, and the two Redux slices of the frontend.

The database is one object, `Database.Db`, holding the four tables (users,
accounts, transactions, cards) as sequences in insertion order and a counter
that hands out fresh identifiers. Services that change the database are
methods over it with `modifies` frames naming the tables they write; queries
are functions over the table values they read. Errors the services throw are
values of `Common.Error` carrying the source's messages. The two Redux slices
are classes whose reducers assign their fields in place.

Modelling choices:

- Money is an exact integer number of cents; the source converts balances to
  JavaScript floats, which is not reproduced.
- Identifiers are natural numbers; `orderBy: { createdAt: 'desc' }` is the
  reverse of insertion order.
- bcrypt is a function parameter `hash`, and a password matches a stored hash
  exactly when it hashes to it (`Domain.PasswordMatches`). JWT signing and
  verification are function parameters as well. The clock is a `now` parameter.
- Every service requires and keeps only what the schema enforces
  (`Db.Wf`: unique ids per table, unique emails, fresh ids below a counter).
  A database written directly, like the seed script's (DEBIT rows with
  negative amounts, a balance reset after its entries), is therefore within
  every contract.
- The ledger invariant (`Ledger.LedgerInvariant`) says that for every account
  the entries written for it chain by their signed amounts and the balance
  equals the balanceAfter of its latest entry; `Db.Valid` is `Wf` plus it.
  No service needs it. A posting keeps it when it held, keeps every account
  that was consistent consistent whatever the others look like, and, when the
  clock has not run backwards, keeps each account's entries in creation order
  (`Ledger.PostingKeeps`); the other services do not write those tables.

Notes on the code:

- `getAccountById` reports `Forbidden` for another user's account, while the
  posting and card services look accounts up by id and owner together and
  report `NotFound` for both cases (`AccountService.ForeignAccountPolicies`).
- The balance is read before the database transaction that writes it, so two
  concurrent withdrawals are not serialized by the code; the model runs calls
  one at a time and claims nothing about concurrency.
- The comment above the phone-number schema lists "(123) 456-7890" and
  "123-456-7890" as examples; the regular expression rejects both
  (`UserTypes.PhoneNumberExamples`).

## Model

| member | source | states |
|---|---|---|
| TransactionService.Deposit | backend/src/services/transaction.service.ts:7-45 | for any well-formed database: amount <= 0 is BadRequest before any lookup; missing and foreign accounts give the same NotFound; both leave the database unchanged; otherwise balance grows by amount, exactly one CREDIT entry with balanceAfter = new balance and description defaulting to "Deposit" is appended, nothing else changes, and PostingKeeps holds (ledger invariant kept if it held, consistent accounts stay consistent, creation order kept) |
| TransactionService.Withdraw | backend/src/services/transaction.service.ts:47-90 | checks in order amount, ownership, funds; balance < amount is "Insufficient funds" with no change; amount == balance succeeds; on success balance shrinks by amount and stays >= 0, one DEBIT entry with description defaulting to "Withdrawal" is appended, and the returned account's balance equals the entry's balanceAfter; PostingKeeps holds as for Deposit |
| TransactionService.PostEntry | backend/src/services/transaction.service.ts:26-42 | the entry insert and the balance update happen together: the entry is appended under a fresh id, only that account's balance changes (to the entry's balanceAfter), the tables stay well formed, and PostingKeeps holds between the old and new tables |
| Ledger.PostingKeepsAll | backend/src/services/transaction.service.ts:68-87 | a posting whose balanceAfter is the old balance plus the signed amount keeps the ledger invariant if it held, keeps every consistent account consistent, and keeps every account's entries in creation order when stamped no earlier than the stored entries |
| Ledger.PostingKeepsConsistentAccounts | backend/src/services/transaction.service.ts:26-42 | posting to one account leaves every account that was consistent with its entries consistent, whatever the state of the others |
| Ledger.PostingKeepsChronology | backend/src/services/transaction.service.ts:28-36 | an entry stamped no earlier than every stored entry keeps each account's entries in creation order |
| Ledger.PostingPreservesInvariant | backend/src/services/transaction.service.ts:68-87 | appending an entry whose balanceAfter is the old balance plus its signed amount, and setting the account's balance to it, keeps every account consistent with its entries and every amount positive |
| Ledger.ReplayReproducesBalances | backend/src/services/transaction.service.ts:23-42 | replaying an account's entries from its opening balance reproduces each recorded balanceAfter and the current balance |
| Database.OwnedAccountIndex | backend/src/services/transaction.service.ts:14-20 | a lookup by id and owner finds an account exactly when one with that id belongs to that user |
| Database.AccountIndex | backend/src/services/account.service.ts:70-83 | the lookup by id finds the account with that id, or reports that none has it |
| Database.UserIndexByEmail | backend/src/services/auth.service.ts:22-24 | the lookup by email finds the user with that email, or reports that none has it |
| Database.OwnedCardIndex | backend/src/services/card.service.ts:144-155 | a card lookup finds a card exactly when one with that id exists and its account belongs to the user |
| AccountService.GetUserAccounts | backend/src/services/account.service.ts:16-62 | the page holds the matching accounts newest first, from offset on, at most limit of them, without userId; total counts all matches; the pagination echoes the query's limit and offset; hasMore holds exactly when matches remain after the page |
| AccountService.UserAccountsAreOwn | backend/src/services/account.service.ts:17-25 | every returned account belongs to the caller and has the requested type |
| AccountService.PaginationOf | backend/src/services/account.service.ts:55-61 | `offset + limit < total` is exactly "rows remain after this page" |
| AccountService.GetAccountById | backend/src/services/account.service.ts:68-102 | NotFound exactly when no account has the id, Forbidden when it is someone else's, otherwise the account without its owner id |
| AccountService.ForeignAccountPolicies | backend/src/services/account.service.ts:93-96 | for a foreign account getAccountById gives Forbidden while the id-and-owner lookup finds nothing |
| AccountService.GetAccountTransactions | backend/src/services/account.service.ts:108-172 | the ownership check's error is propagated unchanged before entries are read; otherwise the matching entries newest first, paged, with total, the query's limit and offset echoed, and hasMore |
| AccountService.HistoryNewestFirst | backend/src/services/account.service.ts:142-149 | when the account's entries were written in creation order, the page's creation times never increase: reverse insertion order agrees with orderBy createdAt desc |
| AccountService.HistoryMatchesQuery | backend/src/services/account.service.ts:118-137 | every returned entry is of that account, of the requested type, and within the inclusive date bounds |
| AccountService.GetAccountsSummary | backend/src/services/account.service.ts:178-214 | over the caller's active accounts: the count, the per-type balance sums, and the total, which equals checking + savings + credit |
| AccountService.TotalIsSumOfTypes | backend/src/services/account.service.ts:199-211 | the sum of all balances equals the sum of the three per-type sums |
| CardService.GetUserCards | backend/src/services/card.service.ts:9-30 | the caller's cards in reverse insertion order (newest first), each with the number and type of its account, which is the caller's |
| CardService.UserCardsExactly | backend/src/services/card.service.ts:10-15 | a card is listed exactly when it is stored and its account belongs to the caller |
| CardService.GetAccountCards | backend/src/services/card.service.ts:33-56 | NotFound exactly when the account is missing or not the caller's; otherwise exactly the account's cards, newest first (reverse issue order) |
| CardService.GetCard | backend/src/services/card.service.ts:59-83 | NotFound for a missing or foreign card; otherwise the card with its account's number, type and balance |
| CardService.CreateCard | backend/src/services/card.service.ts:86-135 | NotFound with nothing created unless the account is the caller's; otherwise one ACTIVE card with the given type, holder, expiry, credit limit and account, a well-formed number and a 3-digit CVV denoting a number in [100, 999] is appended |
| CardService.UpdateCardStatus | backend/src/services/card.service.ts:138-164 | NotFound with nothing changed for a missing or foreign card; otherwise only that card's status changes |
| CardService.DeleteCard | backend/src/services/card.service.ts:167-188 | NotFound with the table unchanged for a missing or foreign card; otherwise exactly that card is removed and all others stay in order |
| CardService.RemoveCard | backend/src/services/card.service.ts:183-185 | removing one card keeps ids unique and drops exactly the cards with its id |
| CardService.GenerateCardNumber | backend/src/services/card.service.ts:193-203 | 16 characters, all decimal digits, the first '4' or '5' |
| CardService.GenerateCVV | backend/src/services/card.service.ts:206-208 | three decimal digits denoting a number in [100, 999] |
| CardService.DecimalRoundTrip | backend/src/services/card.service.ts:207 | reading back the decimal string of a number gives the number |
| CardService.ThreeDigits | backend/src/services/card.service.ts:207 | numbers in [100, 999] print as exactly three digits |
| UserService.GetProfile | backend/src/services/user.service.ts:18-49 | NotFound exactly for an unknown id; otherwise the user's columns, which exclude the password |
| UserService.GetUserById | backend/src/services/user.service.ts:155-173 | NotFound exactly for an unknown id; otherwise id, email, names, role and isActive |
| UserService.LookupsIgnorePassword | backend/src/services/user.service.ts:20-38 | replacing a stored password hash changes neither lookup's reply |
| UserService.ApplyProfileUpdate | backend/src/services/user.service.ts:72-81 | email, password, role, isActive and lastLogin never change; a non-empty first or last name overwrites the stored one, an absent or empty one keeps it; a non-empty birth date overwrites, an absent, null or empty one keeps it; a given phone or address is set, null clears it, absent keeps it; an empty input changes nothing |
| UserService.ProfileUpdateIdempotent | backend/src/services/user.service.ts:74-81 | applying the same update twice equals applying it once |
| UserService.UpdateProfile | backend/src/services/user.service.ts:55-98 | NotFound for an unknown user, BadRequest "Account is deactivated" for an inactive one, neither changing anything; otherwise only that user's row changes, to ApplyProfileUpdate of it |
| UserService.ChangePassword | backend/src/services/user.service.ts:104-149 | NotFound, then Unauthorized when the current password does not match (before the sameness check), then BadRequest when the new one matches the stored hash, all without change; otherwise only the hash changes, to hash(new), after which the new password matches and the old one does not |
| UserTypes.ParseUpdateProfile | backend/src/types/user.types.ts:11-40 | valid exactly when given names are non-empty, a non-null phone matches the E.164-style pattern and a non-null address has at most 500 characters; every field may be left out |
| UserTypes.PlusIsOptional | backend/src/types/user.types.ts:21 | a number without a leading '+' is valid exactly when it is valid with one |
| UserTypes.PhoneNumberExamples | backend/src/types/user.types.ts:19-21 | "+1234567890" is accepted; "(123) 456-7890", "123-456-7890" and "abc123" are rejected |
| UserTypes.PasswordIssues | backend/src/types/user.types.ts:57-63 | no issue exactly for a password of length >= 8 with an uppercase letter, a lowercase letter, a digit and a character outside [A-Za-z0-9]; every issue is on newPassword |
| UserTypes.StrongPasswordExtends | backend/src/types/user.types.ts:57-63 | appending a character to a strong password keeps it strong |
| UserTypes.WeakPasswordIssues | backend/src/types/user.types.ts:98-105 | "weak" fails the length, uppercase, digit and special-character checks, in that order |
| UserTypes.ParseChangePassword | backend/src/types/user.types.ts:51-71 | valid exactly when the current and confirm passwords are non-empty, the new one is strong and the confirmation equals it; a mismatch is always reported on confirmPassword |
| AccountTypes.ParseAccountType | backend/src/types/account.types.ts:14 | accepts exactly CHECKING, SAVINGS and CREDIT, each under its own name |
| AccountTypes.ParseTransactionType | backend/src/types/account.types.ts:39 | accepts exactly DEBIT and CREDIT, each under its own name |
| AccountTypes.ParseAccountsQuery | backend/src/types/account.types.ts:12-27 | valid exactly when the type is a known account type or absent, the limit (default 10) is in [1, 100] and the offset (default 0) is >= 0; the parsed query carries those values |
| AccountTypes.ParseTransactionsQuery | backend/src/types/account.types.ts:37-56 | as for accounts with limit default 20 and type DEBIT or CREDIT; start and end dates are independently optional and passed through |
| AuthService.NewUser | backend/src/services/auth.service.ts:38-47 | the stored email, names, phone and address are the given ones; the stored password is the hash of the given one; a given birth date is kept, a falsy one stored as null; role USER, active, never logged in |
| AuthService.Register | backend/src/services/auth.service.ts:18-69 | Conflict with no user created when the email is taken; otherwise exactly one new row, a reply without the password, and a token signed for the new user |
| AuthService.Login | backend/src/services/auth.service.ts:74-123 | unknown email and wrong password give the same "Invalid email or password"; an inactive user gets "Account has been deactivated" before the password is compared; on success only that user's lastLogin changes and the reply is the row as read before, without the password |
| AuthService.VerifyUser | backend/src/services/auth.service.ts:127-146 | Unauthorized when the user is missing or inactive; otherwise the summary (id, email, names, role, isActive) of an active user with that id |
| AuthMiddleware.BearerToken | backend/src/middleware/auth.middleware.ts:20-28 | a token is extracted exactly when the header starts with "Bearer ", and the header is "Bearer " followed by it |
| AuthMiddleware.BearerRoundTrip | backend/src/middleware/auth.middleware.ts:28 | the header "Bearer " + t yields t |
| AuthMiddleware.Authenticate | backend/src/middleware/auth.middleware.ts:12-55 | the request proceeds with the verified payload exactly when the header has the prefix and its token verifies; every failure, a missing header included, is Unauthorized "Invalid or expired token" |
| AuthSlice.AuthStore.constructor | frontend/src/store/slices/authSlice.ts:16-21 | the stored token is loaded, logged in exactly when it is a non-empty string, not loading, no error |
| AuthSlice.AuthStore.Logout | frontend/src/store/slices/authSlice.ts:74-79 | token null, logged out, no error, loading unchanged |
| AuthSlice.AuthStore.ClearError | frontend/src/store/slices/authSlice.ts:81-83 | only the error changes, to null |
| AuthSlice.AuthStore.Pending | frontend/src/store/slices/authSlice.ts:87-90 | the login and register pending cases (also 105-108): loading, no error, token and login status unchanged |
| AuthSlice.AuthStore.Fulfilled | frontend/src/store/slices/authSlice.ts:91-96 | the login and register fulfilled cases (also 109-114): not loading, logged in with the payload's token, no error |
| AuthSlice.AuthStore.Rejected | frontend/src/store/slices/authSlice.ts:97-102 | the login and register rejected cases (also 115-120): not loading, logged out, no token, the payload as error |
| UserSlice.UserStore.constructor | frontend/src/store/slices/userSlice.ts:43-48 | no profile, no accounts, not loading, no error |
| UserSlice.UserStore.SetProfile | frontend/src/store/slices/userSlice.ts:56-58 | only the profile changes |
| UserSlice.UserStore.SetAccounts | frontend/src/store/slices/userSlice.ts:61-63 | only the accounts change |
| UserSlice.UserStore.SetLoading | frontend/src/store/slices/userSlice.ts:66-68 | only the loading flag changes |
| UserSlice.UserStore.SetError | frontend/src/store/slices/userSlice.ts:71-73 | only the error changes |
| UserSlice.UserStore.ClearUser | frontend/src/store/slices/userSlice.ts:76-80 | no profile, no accounts, no error; loading unchanged |

## Left out

- Concurrency: each call runs alone. The source reads the balance outside the database transaction that writes it, so concurrent postings can lose an update; the model does not claim otherwise.
- Failure of a database write (an internal error) is not modelled; every write succeeds.
- Floating-point money: balances and amounts are exact cents.
- Coercion of query strings to numbers and dates, and non-integer numbers (a limit of 2.5 passes the schema); the query models take integers and timestamps.
- Zod type errors (a missing or non-string field, null for a first or last name) and Zod's own enum error wording; an unknown enum value is one issue "Invalid enum value" on `type`.
- The birth-date "must be in the past" refinement: it depends on the wall clock. Birth dates are kept as the text given; parsing them into dates is not modelled.
- String lengths count characters, not UTF-16 code units.
- The createdAt and updatedAt columns of users, accounts and cards, and ties in the createdAt order of entries: newest first is reverse insertion order. For entries this agrees with createdAt order when each account's entries were written in creation order (`AccountService.HistoryNewestFirst`); for accounts and cards it is assumed.
- bcrypt's salt and cost, and JWT signing and expiry: both are function parameters.
- localStorage writes of the frontend thunks and logout, and the thunks' API calls; the slices receive their payloads.
- A second `next` call when downstream code throws synchronously inside the middleware's `try`.
- The optional `cardId` column of transactions: no service writes it (only the seed script fills it), so entries carry no card reference.
- CardService.DeleteCard: does not model what deleting a card does to entries whose `cardId` references it (set to null, or the delete refused by a foreign-key constraint, depending on the relation's `onDelete` rule in schema.prisma, which is not part of this model); the model removes the card and leaves the transactions table as it is.
- A unique-constraint failure on a randomly generated card number.
- The seed script, the controllers, routes and error-to-status mapping.
- AccountService.GetAccountById: "succeeds exactly when the caller owns the account" is stated for tables with unique account ids, which the database guarantees.
- AuthService.VerifyUser: "succeeds exactly when an active user has the id" is stated for tables with unique user ids, which the database guarantees.
- AuthService.NewUser: role USER, isActive true and a null lastLogin are assumed schema defaults; schema.prisma is not part of this model.
