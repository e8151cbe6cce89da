/**
 * The ledger invariant of the posting engine. For every account, the entries
 * written for it chain (each entry's balanceAfter is the previous one's plus
 * its signed amount) and the account's balance is the balanceAfter of its
 * latest entry. Replaying the entries from the opening balance therefore
 * reproduces every recorded balanceAfter and the current balance.
 */
module Ledger {
  import opened Domain

  /** A CREDIT adds its (positive) amount to the balance, a DEBIT subtracts it. */
  function Signed(e: Transaction): int
  {
    if e.txType == TransactionType.CREDIT then e.amount else -e.amount
  }

  /** The entries of one account, in the order they were written. */
  function EntriesOf(txs: seq<Transaction>, accountId: Id): (r: seq<Transaction>)
    ensures forall e :: e in r <==> e in txs && e.accountId == accountId
  {
    if txs == [] then []
    else
      var last := txs[|txs| - 1];
      EntriesOf(txs[..|txs| - 1], accountId) + (if last.accountId == accountId then [last] else [])
  }

  predicate Chained(es: seq<Transaction>)
  {
    forall i :: 0 < i < |es| ==> es[i].balanceAfter == es[i - 1].balanceAfter + Signed(es[i])
  }

  predicate Consistent(a: Account, txs: seq<Transaction>)
  {
    var es := EntriesOf(txs, a.id);
    Chained(es) && (|es| > 0 ==> a.balance == es[|es| - 1].balanceAfter)
  }

  predicate LedgerInvariant(accounts: seq<Account>, txs: seq<Transaction>)
  {
    && (forall a :: a in accounts ==> Consistent(a, txs))
    && (forall e :: e in txs ==> e.amount > 0)
  }

  /** The balance before the first entry was posted. */
  function Opening(es: seq<Transaction>): int
    requires |es| > 0
  {
    es[0].balanceAfter - Signed(es[0])
  }

  /** Apply the signed amounts of `es`, in order, to `opening`. */
  function Replay(opening: int, es: seq<Transaction>): int
  {
    if es == [] then opening else Replay(opening, es[..|es| - 1]) + Signed(es[|es| - 1])
  }

  lemma EntriesOfAppend(txs: seq<Transaction>, e: Transaction, accountId: Id)
    ensures EntriesOf(txs + [e], accountId)
         == EntriesOf(txs, accountId) + (if e.accountId == accountId then [e] else [])
  {
    assert (txs + [e])[..|txs + [e]| - 1] == txs;
  }

  /** The posted account stays consistent when its balance moves to the entry's balanceAfter. */
  lemma PostedAccountConsistent(a: Account, txs: seq<Transaction>, e: Transaction)
    requires Consistent(a, txs) && e.accountId == a.id
    requires e.balanceAfter == a.balance + Signed(e)
    ensures Consistent(a.(balance := e.balanceAfter), txs + [e])
  {
    EntriesOfAppend(txs, e, a.id);
  }

  /** An entry for another account leaves an account's entries untouched. */
  lemma OtherAccountConsistent(a: Account, txs: seq<Transaction>, e: Transaction)
    requires Consistent(a, txs) && e.accountId != a.id
    ensures Consistent(a, txs + [e])
  {
    EntriesOfAppend(txs, e, a.id);
  }

  /**
   * Posting one entry to account i keeps every account that was consistent
   * consistent, whatever the rest of the ledger looks like.
   */
  lemma PostingKeepsConsistentAccounts(
    accounts: seq<Account>, txs: seq<Transaction>, i: nat, e: Transaction)
    requires AccountIdsUnique(accounts)
    requires i < |accounts| && e.accountId == accounts[i].id
    requires e.balanceAfter == accounts[i].balance + Signed(e)
    ensures var accounts' := accounts[i := accounts[i].(balance := e.balanceAfter)];
      forall j :: 0 <= j < |accounts| && Consistent(accounts[j], txs) ==> Consistent(accounts'[j], txs + [e])
  {
    var accounts' := accounts[i := accounts[i].(balance := e.balanceAfter)];
    forall j | 0 <= j < |accounts| && Consistent(accounts[j], txs)
      ensures Consistent(accounts'[j], txs + [e])
    {
      if j == i {
        PostedAccountConsistent(accounts[i], txs, e);
      } else {
        OtherAccountConsistent(accounts[j], txs, e);
      }
    }
  }

  /**
   * Posting one entry to account i and setting its balance to the entry's
   * balanceAfter keeps the invariant, provided balanceAfter is the old
   * balance plus the signed amount and the amount is positive.
   */
  lemma PostingPreservesInvariant(
    accounts: seq<Account>, txs: seq<Transaction>, i: nat, e: Transaction)
    requires LedgerInvariant(accounts, txs)
    requires AccountIdsUnique(accounts)
    requires i < |accounts| && e.accountId == accounts[i].id && e.amount > 0
    requires e.balanceAfter == accounts[i].balance + Signed(e)
    ensures LedgerInvariant(accounts[i := accounts[i].(balance := e.balanceAfter)], txs + [e])
  {
    var accounts' := accounts[i := accounts[i].(balance := e.balanceAfter)];
    var txs' := txs + [e];
    forall a | a in accounts' ensures Consistent(a, txs') {
      var j :| 0 <= j < |accounts'| && accounts'[j] == a;
      if j == i {
        PostedAccountConsistent(accounts[i], txs, e);
      } else {
        assert accounts[j] == a;
        OtherAccountConsistent(a, txs, e);
      }
    }
  }

  lemma {:induction false} ReplayPrefixes(es: seq<Transaction>, k: nat)
    requires Chained(es) && k < |es|
    ensures Replay(Opening(es), es[..k + 1]) == es[k].balanceAfter
  {
    if k > 0 {
      ReplayPrefixes(es, k - 1);
      assert es[..k + 1][..k] == es[..k];
    }
  }

  /**
   * Replaying an account's entries from its opening balance reproduces each
   * entry's recorded balanceAfter and the account's current balance.
   */
  lemma ReplayReproducesBalances(a: Account, txs: seq<Transaction>)
    requires Consistent(a, txs) && |EntriesOf(txs, a.id)| > 0
    ensures var es := EntriesOf(txs, a.id);
      && (forall k :: 0 <= k < |es| ==> Replay(Opening(es), es[..k + 1]) == es[k].balanceAfter)
      && a.balance == Replay(Opening(es), es)
  {
    var es := EntriesOf(txs, a.id);
    forall k | 0 <= k < |es| ensures Replay(Opening(es), es[..k + 1]) == es[k].balanceAfter {
      ReplayPrefixes(es, k);
    }
    ReplayPrefixes(es, |es| - 1);
    assert es[..|es|] == es;
  }

  /** Entries in the order of their creation times (ties allowed). */
  predicate Chronological(es: seq<Transaction>)
  {
    forall i, j :: 0 <= i < j < |es| ==> es[i].createdAt <= es[j].createdAt
  }

  /** Every account whose entries were in creation order in `txs` still has them in order in `txs'`. */
  ghost predicate KeepsChronology(txs: seq<Transaction>, txs': seq<Transaction>)
  {
    forall id :: Chronological(EntriesOf(txs, id)) ==> Chronological(EntriesOf(txs', id))
  }

  /**
   * An entry stamped no earlier than every stored entry keeps each account's
   * entries in creation order.
   */
  lemma PostingKeepsChronology(txs: seq<Transaction>, e: Transaction)
    requires forall x :: x in txs ==> x.createdAt <= e.createdAt
    ensures KeepsChronology(txs, txs + [e])
  {
    forall id | Chronological(EntriesOf(txs, id)) ensures Chronological(EntriesOf(txs + [e], id)) {
      EntriesOfAppend(txs, e, id);
      var es := EntriesOf(txs, id);
      assert forall k :: 0 <= k < |es| ==> es[k] in txs;
    }
  }

  /**
   * What one posting keeps, for a database in any state: the ledger invariant
   * when it held, the consistency of every account that was consistent, and,
   * when the new entry is stamped no earlier than every stored entry, the
   * creation order of every account's entries.
   */
  ghost predicate PostingKeeps(accounts: seq<Account>, txs: seq<Transaction>,
                               accounts': seq<Account>, txs': seq<Transaction>, now: Timestamp)
  {
    && (LedgerInvariant(accounts, txs) ==> LedgerInvariant(accounts', txs'))
    && |accounts'| == |accounts|
    && (forall j :: 0 <= j < |accounts| && Consistent(accounts[j], txs) ==> Consistent(accounts'[j], txs'))
    && ((forall x :: x in txs ==> x.createdAt <= now) ==> KeepsChronology(txs, txs'))
  }

  lemma PostingKeepsAll(accounts: seq<Account>, txs: seq<Transaction>, i: nat, posted: Account,
                        e: Transaction, now: Timestamp)
    requires AccountIdsUnique(accounts)
    requires i < |accounts| && e.accountId == accounts[i].id && e.amount > 0
    requires e.balanceAfter == accounts[i].balance + Signed(e)
    requires posted == accounts[i].(balance := e.balanceAfter) && e.createdAt == now
    ensures PostingKeeps(accounts, txs, accounts[i := posted], txs + [e], now)
  {
    if LedgerInvariant(accounts, txs) {
      PostingPreservesInvariant(accounts, txs, i, e);
    }
    PostingKeepsConsistentAccounts(accounts, txs, i, e);
    if forall x :: x in txs ==> x.createdAt <= e.createdAt {
      PostingKeepsChronology(txs, e);
    }
  }
}
