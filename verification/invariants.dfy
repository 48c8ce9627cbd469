/**
 * Every service call that succeeds keeps the store's structural invariant (`Valid`) and the
 * ledger/balance consistency (`Consistent`): each wallet's balance is the sum of its
 * confirmed ledger entries.
 */
module Invariants {
  import opened Wrappers
  import opened TransactionStatus
  import opened Entities
  import opened TransactionStore
  import opened EventStore
  import opened BankState
  import opened WalletsService
  import opened PixService

  /** Appending a row whose id is not a leg id keeps every transfer pair as it was. */
  lemma PairedAppendOther(rows: seq<Transaction>, t: Transaction)
    requires Paired(rows)
    requires forall key :: t.endToEndId != OutId(key) && t.endToEndId != InId(key)
    ensures Paired(rows + [t])
  {
    forall key ensures PairedAt(rows + [t], key) {
      assert PairedAt(rows, key);
      IndexOfAppend(rows, t, OutId(key));
      IndexOfAppend(rows, t, InId(key));
    }
  }

  /** Appending the two matching legs of a transfer not yet stored keeps every transfer paired. */
  lemma PairedAppendLegs(rows: seq<Transaction>, key: string, debit: Transaction, credit: Transaction)
    requires Paired(rows)
    requires IndexOf(rows, OutId(key)).None? && IndexOf(rows, InId(key)).None?
    requires debit.endToEndId == OutId(key) && credit.endToEndId == InId(key)
    requires LegsMatch(debit, credit)
    ensures Paired(rows + [debit, credit])
  {
    var mid := rows + [debit];
    assert rows + [debit, credit] == mid + [credit];
    LegIdsDistinct(key, key);
    forall k ensures PairedAt(mid + [credit], k) {
      assert PairedAt(rows, k);
      LegIdsInjective(k, key);
      LegIdsDistinct(k, key);
      LegIdsDistinct(key, k);
      IndexOfAppend(rows, debit, OutId(k));
      IndexOfAppend(mid, credit, OutId(k));
      IndexOfAppend(rows, debit, InId(k));
      IndexOfAppend(mid, credit, InId(k));
    }
  }

  /**
   * Giving both legs of one transfer the same new status, in place, keeps every transfer
   * paired: the settled pair still cancels out and agrees, and no other row changes.
   */
  lemma PairedSettle(rows: seq<Transaction>, e2e: string, i: nat, j: nat, status: Status, now: int)
    requires Paired(rows)
    requires IndexOf(rows, OutId(e2e)) == Some(i) && IndexOf(rows, InId(e2e)) == Some(j)
    ensures var first := rows[i := rows[i].(status := status, updatedAt := now)];
            Paired(first[j := first[j].(status := status, updatedAt := now)])
  {
    var first := rows[i := rows[i].(status := status, updatedAt := now)];
    var last := first[j := first[j].(status := status, updatedAt := now)];
    LegIdsDistinct(e2e, e2e);
    forall k ensures PairedAt(last, k) {
      assert PairedAt(rows, k);
      LegIdsInjective(k, e2e);
      LegIdsDistinct(k, e2e);
      LegIdsDistinct(e2e, k);
      IndexOfUpdate(rows, i, first[i], OutId(k));
      IndexOfUpdate(first, j, last[j], OutId(k));
      IndexOfUpdate(rows, i, first[i], InId(k));
      IndexOfUpdate(first, j, last[j], InId(k));
    }
  }

  /** Rewriting rows in place without changing any id keeps the ids unique. */
  lemma UniqueIdsUpdate(rows: seq<Transaction>, i: nat, t: Transaction)
    requires UniqueIds(rows) && i < |rows| && t.endToEndId == rows[i].endToEndId
    ensures UniqueIds(rows[i := t])
  {
  }

  lemma CreateWalletPreserves(s: State, userId: string, freshId: string, now: int)
    requires Valid(s) && Consistent(s)
    requires CreateWallet(s, userId, freshId, now).Ok?
    ensures Valid(CreateWallet(s, userId, freshId, now).value.0)
    ensures Consistent(CreateWallet(s, userId, freshId, now).value.0)
  {
    ConfirmedSumOfStranger(s.ledger, freshId);
  }

  lemma InsertPixKeyPreserves(s: State, id: string, pixKey: string, now: int)
    requires Valid(s) && Consistent(s)
    requires InsertPixKey(s, id, pixKey, now).Ok?
    ensures Valid(InsertPixKey(s, id, pixKey, now).value.0)
    ensures Consistent(InsertPixKey(s, id, pixKey, now).value.0)
  {
    var s' := InsertPixKey(s, id, pixKey, now).value.0;
    assert IndexExact(s') by {
      forall k | k in s'.pixIndex
        ensures s'.pixIndex[k] in s'.wallets && s'.wallets[s'.pixIndex[k]].pixKey == Some(k)
      {
        if k != pixKey {
          assert k in s.pixIndex && s.pixIndex[k] != id;
        }
      }
    }
  }

  lemma DepositPreserves(s: State, walletId: string, amount: int, freshE2E: string, now: int)
    requires Valid(s) && Consistent(s)
    requires |freshE2E| > 0 && IsUuidText(freshE2E)
    requires WalletsService.Deposit(s, walletId, amount, freshE2E, now).Ok?
    ensures Valid(WalletsService.Deposit(s, walletId, amount, freshE2E, now).value.0)
    ensures Consistent(WalletsService.Deposit(s, walletId, amount, freshE2E, now).value.0)
  {
    var s' := WalletsService.Deposit(s, walletId, amount, freshE2E, now).value.0;
    var t := s'.ledger[|s.ledger|];
    forall key ensures t.endToEndId != OutId(key) && t.endToEndId != InId(key) {
      UuidIsNotLegId(freshE2E, key);
    }
    PairedAppendOther(s.ledger, t);
    forall id | id in s'.wallets ensures s'.wallets[id].balance == ConfirmedSum(s'.ledger, id) {
      ConfirmedSumAppend(s.ledger, t, id);
    }
  }

  lemma WithdrawPreserves(s: State, walletId: string, amount: int, freshE2E: string, now: int)
    requires Valid(s) && Consistent(s)
    requires |freshE2E| > 0 && IsUuidText(freshE2E)
    requires WalletsService.Withdraw(s, walletId, amount, freshE2E, now).Ok?
    ensures Valid(WalletsService.Withdraw(s, walletId, amount, freshE2E, now).value.0)
    ensures Consistent(WalletsService.Withdraw(s, walletId, amount, freshE2E, now).value.0)
  {
    var s' := WalletsService.Withdraw(s, walletId, amount, freshE2E, now).value.0;
    var t := s'.ledger[|s.ledger|];
    forall key ensures t.endToEndId != OutId(key) && t.endToEndId != InId(key) {
      UuidIsNotLegId(freshE2E, key);
    }
    PairedAppendOther(s.ledger, t);
    forall id | id in s'.wallets ensures s'.wallets[id].balance == ConfirmedSum(s'.ledger, id) {
      ConfirmedSumAppend(s.ledger, t, id);
    }
  }

  /** In a valid store the credit-leg collision of `transfer` cannot happen. */
  lemma TransferNeverCollides(s: State, key: string, req: TransferRequest, now: int)
    requires Valid(s)
    ensures Transfer(s, key, req, now) != Err(DuplicateKey)
  {
    assert PairedAt(s.ledger, key);
  }

  lemma TransferPreserves(s: State, key: string, req: TransferRequest, now: int)
    requires Valid(s) && Consistent(s)
    requires Transfer(s, key, req, now).Ok?
    ensures Valid(Transfer(s, key, req, now).value.0)
    ensures Consistent(Transfer(s, key, req, now).value.0)
  {
    var s' := Transfer(s, key, req, now).value.0;
    if IndexOf(s.ledger, OutId(key)).None? {
      var n := |s.ledger|;
      var debit := s'.ledger[n];
      var credit := s'.ledger[n + 1];
      var mid := s.ledger + [debit];
      assert s'.ledger == mid + [credit];
      LegIdsDistinct(key, key);
      assert UniqueIds(mid);
      assert PairedAt(s.ledger, key);
      PairedAppendLegs(s.ledger, key, debit, credit);
      forall id | id in s'.wallets ensures s'.wallets[id].balance == ConfirmedSum(s'.ledger, id) {
        ConfirmedSumAppend(s.ledger, debit, id);
        ConfirmedSumAppend(mid, credit, id);
      }
    }
  }

  lemma WebhookPreservesValid(s: State, req: WebhookRequest, now: int)
    requires Valid(s)
    requires ProcessWebhook(s, req, now).Ok?
    ensures Valid(ProcessWebhook(s, req, now).value)
  {
    if Settleable(s, req) {
      var s' := ProcessWebhook(s, req, now).value;
      var e2e := req.endToEndId;
      var (i, j) := Legs(s.ledger, e2e).value;
      var status := ValueOf(req.eventType).value;
      var first := s.ledger[i := s.ledger[i].(status := status, updatedAt := now)];
      UniqueIdsUpdate(s.ledger, i, first[i]);
      UniqueIdsUpdate(first, j, first[j].(status := status, updatedAt := now));
      PairedSettle(s.ledger, e2e, i, j, status, now);
      assert UniqueEventIds(s'.events);
    }
  }

  lemma WebhookPreservesConsistent(s: State, req: WebhookRequest, now: int)
    requires Consistent(s)
    requires ProcessWebhook(s, req, now).Ok?
    ensures Consistent(ProcessWebhook(s, req, now).value)
  {
    if Settleable(s, req) {
      var s' := ProcessWebhook(s, req, now).value;
      var (i, j) := Legs(s.ledger, req.endToEndId).value;
      var status := ValueOf(req.eventType).value;
      var debit := s.ledger[i];
      var credit := s.ledger[j];
      var first := s.ledger[i := debit.(status := status, updatedAt := now)];
      forall id | id in s'.wallets ensures s'.wallets[id].balance == ConfirmedSum(s'.ledger, id) {
        ConfirmedSumUpdate(s.ledger, i, debit.(status := status, updatedAt := now), id);
        ConfirmedSumUpdate(first, j, credit.(status := status, updatedAt := now), id);
      }
    }
  }
}
