/**
 * Worked examples of the transfer protocol on a two-wallet store, amounts in cents:
 * wallet `wa` holds 1000.00, wallet `wb` holds nothing and owns pix key `kb`.
 * Each intermediate store is written out, and each example is one call on it.
 */
module Scenarios {
  import opened Wrappers
  import opened TransactionStatus
  import opened Entities
  import opened TransactionStore
  import opened BankState
  import WalletsService
  import opened PixService
  import Invariants

  function Start(): State {
    State(
      map["wa" := Wallet("wa", "ua", 100000, None, 0, 0), "wb" := Wallet("wb", "ub", 0, Some("kb"), 0, 0)],
      map["kb" := "wb"],
      [Transaction("0a", 100000, Confirmed, TransactionType.Deposit, "wa", None, 0, 0)],
      [])
  }

  /**
   * The starting store is one the services can leave behind: its index is exact, and
   * the 1000.00 of `wa` is backed by a confirmed deposit.
   */
  lemma StartValid()
    ensures Valid(Start()) && Consistent(Start())
  {
    var rows := Start().ledger;
    forall key ensures PairedAt(rows, key) {
      UuidIsNotLegId(rows[0].endToEndId, key);
    }
    assert ConfirmedSum(rows, "wa") == 100000 by {
      assert rows[..0] == [];
    }
    assert ConfirmedSum(rows, "wb") == 0 by {
      assert rows[..0] == [];
    }
  }

  /** `Start` with a 100.50 transfer under key `K1` from `wa` to `kb` initiated at time 1. */
  function Initiated(): State {
    Start().(ledger := Start().ledger + [
      Transaction("OUTK1", -10050, Pending, PixTransferOut, "wa", Some("kb"), 1, 1),
      Transaction("INK1", 10050, Pending, PixTransferIn, "wb", Some("kb"), 1, 1)])
  }

  /** `Initiated` after `wa` withdrew its whole 1000.00 at time 2 under entry id `0f`. */
  function Withdrawn(): State {
    Initiated().(
      wallets := Start().wallets["wa" := Wallet("wa", "ua", 0, None, 0, 0)],
      ledger := Initiated().ledger + [Transaction("0f", -100000, Confirmed, TransactionType.Withdraw, "wa", None, 2, 2)])
  }

  /** Initiating 100.50 writes exactly the two pending legs and leaves both balances alone. */
  lemma InitiateLeavesBalances()
    ensures Transfer(Start(), "K1", TransferRequest("wa", "kb", 10050), 1) ==
            Ok((Initiated(), TransferResponse("K1", Pending)))
  {
    assert OutId("K1") == "OUTK1" && InId("K1") == "INK1";
    assert IndexOf(Start().ledger, OutId("K1")).None?;
    assert WalletByPixKey(Start(), "kb") == Some(Start().wallets["wb"]);
    var s' := Transfer(Start(), "K1", TransferRequest("wa", "kb", 10050), 1).value.0;
    assert s'.ledger == Initiated().ledger;
  }

  /** In the initiated store the legs of `K1` are rows 1 and 2, after the deposit. */
  lemma InitiatedLegs()
    ensures Legs(Initiated().ledger, "K1") == Some((1, 2))
  {
    var rows := Initiated().ledger;
    assert OutId("K1") == rows[1].endToEndId && InId("K1") == rows[2].endToEndId;
    UuidIsNotLegId(rows[0].endToEndId, "K1");
    assert IndexOf(rows, OutId("K1")) == Some(1);
    assert IndexOf(rows, InId("K1")) == Some(2);
  }

  /** Confirming it moves 100.50 from `wa` (now 899.50) to `wb` and confirms both legs. */
  lemma ConfirmMovesFunds()
    ensures var r := ProcessWebhook(Initiated(), WebhookRequest("ev1", "K1", "CONFIRMED", 2), 3);
            && r.Ok? && "wa" in r.value.wallets && "wb" in r.value.wallets && |r.value.ledger| == 3
            && r.value.wallets["wa"].balance == 89950
            && r.value.wallets["wb"].balance == 10050
            && r.value.ledger[1].status == Confirmed && r.value.ledger[2].status == Confirmed
  {
    InitiatedLegs();
    assert Settleable(Initiated(), WebhookRequest("ev1", "K1", "CONFIRMED", 2));
  }

  /** Rejecting it instead leaves both balances as they were and rejects both legs. */
  lemma RejectKeepsFunds()
    ensures var r := ProcessWebhook(Initiated(), WebhookRequest("ev1", "K1", "REJECTED", 2), 3);
            && r.Ok? && |r.value.ledger| == 3
            && r.value.wallets == Start().wallets
            && r.value.ledger[1].status == Rejected && r.value.ledger[2].status == Rejected
  {
    InitiatedLegs();
    assert Settleable(Initiated(), WebhookRequest("ev1", "K1", "REJECTED", 2));
  }

  /** A 2000.00 transfer from a 1000.00 wallet fails, carrying the balance. */
  lemma TransferBeyondBalanceFails()
    ensures Transfer(Start(), "K2", TransferRequest("wa", "kb", 200000), 1) == Err(InsufficientBalance(100000))
  {
  }

  /** A transfer of exactly the whole balance is accepted: equality covers the amount. */
  lemma TransferExactBalanceAccepted()
    ensures var r := Transfer(Start(), "K3", TransferRequest("wa", "kb", 100000), 1);
            r.Ok? && r.value.1 == TransferResponse("K3", Pending)
  {
    assert WalletByPixKey(Start(), "kb").Some?;
    assert Start().ledger[0].endToEndId != OutId("K3") && Start().ledger[0].endToEndId != InId("K3");
  }

  /** A notification for a transfer that was never initiated fails. */
  lemma UnknownTransferFails()
    ensures ProcessWebhook(Start(), WebhookRequest("ev9", "K9", "CONFIRMED", 2), 3) == Err(PixTransferNotFound)
  {
  }

  /** A lower-case event type is not a status for the webhook's strict parser. */
  lemma LowerCaseEventTypeFails()
    ensures ProcessWebhook(Initiated(), WebhookRequest("ev1", "K1", "confirmed", 2), 3) == Err(UnknownStatus)
  {
  }

  /** Initiation reserves nothing: the whole balance of `wa` can still be withdrawn. */
  lemma WithdrawAfterInitiation()
    ensures WalletsService.Withdraw(Initiated(), "wa", 100000, "0f", 2) ==
            Ok((Withdrawn(), Withdrawn().wallets["wa"]))
  {
    var rows := Initiated().ledger;
    assert rows[0].endToEndId != "0f" && rows[1].endToEndId != "0f" && rows[2].endToEndId != "0f";
  }

  /** The withdrawal row lands after the legs, which stay rows 1 and 2. */
  lemma WithdrawnLegs()
    ensures Legs(Withdrawn().ledger, "K1") == Some((1, 2))
  {
    InitiatedLegs();
    var t := Withdrawn().ledger[3];
    IndexOfAppend(Initiated().ledger, t, OutId("K1"));
    IndexOfAppend(Initiated().ledger, t, InId("K1"));
  }

  /** After that withdrawal, the pending transfer's confirmation drives `wa` below zero. */
  lemma ConfirmationCanOverdraw()
    ensures Withdrawn().wallets["wa"].balance == 0
    ensures var r := ProcessWebhook(Withdrawn(), WebhookRequest("ev1", "K1", "CONFIRMED", 3), 4);
            r.Ok? && "wa" in r.value.wallets && r.value.wallets["wa"].balance == -10050
  {
    WithdrawnLegs();
    var req := WebhookRequest("ev1", "K1", "CONFIRMED", 3);
    assert Settleable(Withdrawn(), req);
  }

  /** `Start` with a transfer of -50.00 under key `K9` from `wa` to `kb` initiated at time 1. */
  function ReverseInitiated(): State {
    Start().(ledger := Start().ledger + [
      Transaction("OUTK9", 5000, Pending, PixTransferOut, "wa", Some("kb"), 1, 1),
      Transaction("INK9", -5000, Pending, PixTransferIn, "wb", Some("kb"), 1, 1)])
  }

  /** The amount has no sign check: a negative transfer passes the balance test and is initiated. */
  lemma NegativeTransferAccepted()
    ensures Transfer(Start(), "K9", TransferRequest("wa", "kb", -5000), 1) ==
            Ok((ReverseInitiated(), TransferResponse("K9", Pending)))
  {
    assert OutId("K9") == "OUTK9" && InId("K9") == "INK9";
    assert IndexOf(Start().ledger, OutId("K9")).None?;
    assert WalletByPixKey(Start(), "kb") == Some(Start().wallets["wb"]);
    var s' := Transfer(Start(), "K9", TransferRequest("wa", "kb", -5000), 1).value.0;
    assert s'.ledger == ReverseInitiated().ledger;
  }

  /** Confirming that negative transfer pulls 50.00 out of the destination `wb`, leaving it below zero. */
  lemma NegativeTransferDrainsDestination()
    ensures var r := ProcessWebhook(ReverseInitiated(), WebhookRequest("ev2", "K9", "CONFIRMED", 2), 3);
            && r.Ok? && "wa" in r.value.wallets && "wb" in r.value.wallets
            && r.value.wallets["wa"].balance == 105000
            && r.value.wallets["wb"].balance == -5000
  {
    var rows := ReverseInitiated().ledger;
    assert OutId("K9") == rows[1].endToEndId && InId("K9") == rows[2].endToEndId;
    UuidIsNotLegId(rows[0].endToEndId, "K9");
    assert IndexOf(rows, OutId("K9")) == Some(1);
    assert IndexOf(rows, InId("K9")) == Some(2);
    assert Settleable(ReverseInitiated(), WebhookRequest("ev2", "K9", "CONFIRMED", 2));
  }

  /** Every store the examples run on is reached by the services from `Start`, so all are valid and consistent. */
  lemma ScenarioStoresValid()
    ensures Valid(Initiated()) && Consistent(Initiated())
    ensures Valid(Withdrawn()) && Consistent(Withdrawn())
  {
    StartValid();
    InitiateLeavesBalances();
    Invariants.TransferPreserves(Start(), "K1", TransferRequest("wa", "kb", 10050), 1);
    WithdrawAfterInitiation();
    assert IsUuidText("0f") by {
      assert IsUuidChar("0f"[0]) && IsUuidChar("0f"[1]);
    }
    Invariants.WithdrawPreserves(Initiated(), "wa", 100000, "0f", 2);
  }
}
