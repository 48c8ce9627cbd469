/**
 * `PixService`: the two-phase PIX transfer. `Transfer` writes a pending debit/credit
 * pair and is idempotent on its key; `ProcessWebhook` settles the pair once, moving
 * balances only on confirmation, and ignores replayed events and terminal transfers.
 */
module PixService {
  import opened Wrappers
  import opened TransactionStatus
  import opened Entities
  import opened TransactionStore
  import opened EventStore
  import opened BankState

  datatype TransferRequest = TransferRequest(fromWalletId: string, toPixKey: string, amount: int)

  datatype TransferResponse = TransferResponse(endToEndId: string, status: Status)

  /** A settlement notification; `eventType` is free text, `occurredAt` an already parsed instant. */
  datatype WebhookRequest = WebhookRequest(eventId: string, endToEndId: string, eventType: string, occurredAt: int)

  /**
   * `transfer(key, request)`. A stored debit leg `"OUT"+key` makes the call a retry that
   * reports that leg's status and writes nothing. Otherwise the source wallet (by id) and
   * the destination (by pix key) must exist and the source balance must cover the amount
   * (equality suffices); then a pending debit of `-amount` and a pending credit of
   * `+amount` are appended, both tagged with the destination's pix key, and no balance moves.
   */
  function Transfer(s: State, key: string, req: TransferRequest, now: int): (r: Result<(State, TransferResponse), Error>)
    ensures IndexOf(s.ledger, OutId(key)).Some? ==>
      r == Ok((s, TransferResponse(key, s.ledger[IndexOf(s.ledger, OutId(key)).value].status)))
    ensures IndexOf(s.ledger, OutId(key)).None? && req.fromWalletId !in s.wallets ==>
      r == Err(WalletNotFound)
    ensures IndexOf(s.ledger, OutId(key)).None? && req.fromWalletId in s.wallets
            && WalletByPixKey(s, req.toPixKey).None? ==>
      r == Err(WalletNotFound)
    ensures IndexOf(s.ledger, OutId(key)).None? && req.fromWalletId in s.wallets
            && WalletByPixKey(s, req.toPixKey).Some? && s.wallets[req.fromWalletId].balance < req.amount ==>
      r == Err(InsufficientBalance(s.wallets[req.fromWalletId].balance))
    ensures r == Err(DuplicateKey) ==> IndexOf(s.ledger, InId(key)).Some?
    ensures IndexOf(s.ledger, OutId(key)).None? && req.fromWalletId in s.wallets
            && WalletByPixKey(s, req.toPixKey).Some? && s.wallets[req.fromWalletId].balance >= req.amount ==>
      && (r.Ok? <==> IndexOf(s.ledger, InId(key)).None?)
      && (r.Err? ==> r == Err(DuplicateKey))
    ensures IndexOf(s.ledger, OutId(key)).None? && r.Ok? ==>
      var (s', resp) := r.value;
      && req.fromWalletId in s.wallets && WalletByPixKey(s, req.toPixKey).Some?
      && s.wallets[req.fromWalletId].balance >= req.amount
      && resp == TransferResponse(key, Pending)
      && var from := s.wallets[req.fromWalletId];
      && var to := WalletByPixKey(s, req.toPixKey).value;
      && s'.ledger == s.ledger
           + [Transaction(OutId(key), -req.amount, Pending, PixTransferOut, from.id, to.pixKey, now, now),
              Transaction(InId(key), req.amount, Pending, PixTransferIn, to.id, to.pixKey, now, now)]
      && s'.wallets == s.wallets && s'.pixIndex == s.pixIndex && s'.events == s.events
  {
    match IndexOf(s.ledger, OutId(key))
    case Some(i) => Ok((s, TransferResponse(key, s.ledger[i].status)))
    case None =>
      match WalletById(s, req.fromWalletId)
      case None => Err(WalletNotFound)
      case Some(from) =>
        match WalletByPixKey(s, req.toPixKey)
        case None => Err(WalletNotFound)
        case Some(to) =>
          if from.balance < req.amount then Err(InsufficientBalance(from.balance))
          else if IndexOf(s.ledger, InId(key)).Some? then Err(DuplicateKey)
          else
            var debit := Transaction(OutId(key), -req.amount, Pending, PixTransferOut, from.id, to.pixKey, now, now);
            var credit := Transaction(InId(key), req.amount, Pending, PixTransferIn, to.id, to.pixKey, now, now);
            Ok((s.(ledger := s.ledger + [debit, credit]), TransferResponse(key, Pending)))
  }

  /**
   * `updateBalance(amount, walletId)`: adds the signed amount to the wallet's balance with no
   * sufficiency check; an unknown wallet is WalletNotFound.
   */
  function UpdateBalance(wallets: map<string, Wallet>, amount: int, walletId: string): (r: Result<map<string, Wallet>, Error>)
    ensures r.Err? <==> walletId !in wallets
    ensures r.Err? ==> r.error == WalletNotFound
    ensures r.Ok? ==>
      && r.value.Keys == wallets.Keys
      && r.value[walletId] == wallets[walletId].(balance := wallets[walletId].balance + amount)
      && forall id :: id in wallets && id != walletId ==> r.value[id] == wallets[id]
  {
    if walletId !in wallets then Err(WalletNotFound)
    else Ok(wallets[walletId := wallets[walletId].(balance := wallets[walletId].balance + amount)])
  }

  /** Positions of the debit and credit legs of the transfer `e2e`, when both are stored. */
  function Legs(rows: seq<Transaction>, e2e: string): (r: Option<(nat, nat)>)
    ensures r.None? <==> IndexOf(rows, OutId(e2e)).None? || IndexOf(rows, InId(e2e)).None?
    ensures r.Some? ==>
      && r.value.0 == IndexOf(rows, OutId(e2e)).value && r.value.1 == IndexOf(rows, InId(e2e)).value
      && r.value.0 < |rows| && r.value.1 < |rows| && r.value.0 != r.value.1
  {
    match IndexOf(rows, OutId(e2e))
    case None => None
    case Some(i) =>
      match IndexOf(rows, InId(e2e))
      case None => None
      case Some(j) => LegIdsDistinct(e2e, e2e); Some((i, j))
  }

  /** How far settling legs `debit` and `credit` as confirmed moves the balance of wallet `id`. */
  function Movement(debit: Transaction, credit: Transaction, id: string): int {
    (if id == debit.walletId then debit.amount else 0) + (if id == credit.walletId then credit.amount else 0)
  }

  /**
   * The two `updateBalance` calls of a confirmation, in order: the debit leg's amount to its
   * wallet, then the credit leg's amount to its wallet. Each balance moves by its share of
   * the two legs; a missing wallet fails the pair.
   */
  function ApplyLegs(wallets: map<string, Wallet>, debit: Transaction, credit: Transaction): (r: Result<map<string, Wallet>, Error>)
    ensures r.Err? <==> debit.walletId !in wallets || credit.walletId !in wallets
    ensures r.Err? ==> r.error == WalletNotFound
    ensures r.Ok? ==>
      && r.value.Keys == wallets.Keys
      && forall id :: id in wallets ==>
           r.value[id] == wallets[id].(balance := wallets[id].balance + Movement(debit, credit, id))
  {
    match UpdateBalance(wallets, debit.amount, debit.walletId)
    case Err(e) => Err(e)
    case Ok(afterDebit) => UpdateBalance(afterDebit, credit.amount, credit.walletId)
  }

  /** The event is new, its type parses, both legs exist and both are still pending. */
  predicate Settleable(s: State, req: WebhookRequest) {
    && FindByEventId(s.events, req.eventId).None?
    && ValueOf(req.eventType).Some?
    && Legs(s.ledger, req.endToEndId).Some?
    && s.ledger[Legs(s.ledger, req.endToEndId).value.0].status == Pending
    && s.ledger[Legs(s.ledger, req.endToEndId).value.1].status == Pending
  }

  /**
   * What settling does: both legs take the new status and update time, the event is
   * recorded, and each balance moves by its legs' amounts exactly when the status is CONFIRMED.
   */
  predicate Settled(s: State, req: WebhookRequest, now: int, s': State)
    requires Settleable(s, req)
  {
    var (i, j) := Legs(s.ledger, req.endToEndId).value;
    var status := ValueOf(req.eventType).value;
    var debit := s.ledger[i];
    var credit := s.ledger[j];
    && s'.ledger == s.ledger[i := debit.(status := status, updatedAt := now)][j := credit.(status := status, updatedAt := now)]
    && s'.events == s.events + [EventPix(req.eventId, req.endToEndId, status, req.occurredAt, now)]
    && s'.pixIndex == s.pixIndex
    && s'.wallets.Keys == s.wallets.Keys
    && forall id :: id in s.wallets ==>
         s'.wallets[id] == s.wallets[id].(balance := s.wallets[id].balance
                                           + (if status == Confirmed then Movement(debit, credit, id) else 0))
  }

  /**
   * `processWebhook(request)`. A recorded event id is a no-op. The type is parsed with the
   * case-sensitive `valueOf`; then both legs `"OUT"+e2e` and `"IN"+e2e` must exist. If either
   * leg is already CONFIRMED or REJECTED the call returns without recording anything.
   * Otherwise both legs settle (`Settled`); a CONFIRMED settlement whose wallet is missing fails.
   */
  function ProcessWebhook(s: State, req: WebhookRequest, now: int): (r: Result<State, Error>)
    ensures FindByEventId(s.events, req.eventId).Some? ==> r == Ok(s)
    ensures FindByEventId(s.events, req.eventId).None? && ValueOf(req.eventType).None? ==>
      r == Err(UnknownStatus)
    ensures FindByEventId(s.events, req.eventId).None? && ValueOf(req.eventType).Some?
            && Legs(s.ledger, req.endToEndId).None? ==>
      r == Err(PixTransferNotFound)
    ensures ValueOf(req.eventType).Some? && Legs(s.ledger, req.endToEndId).Some?
            && (IsTerminal(s.ledger[Legs(s.ledger, req.endToEndId).value.0].status)
                || IsTerminal(s.ledger[Legs(s.ledger, req.endToEndId).value.1].status)) ==>
      r == Ok(s)
    ensures !Settleable(s, req) && r.Ok? ==> r.value == s
    ensures Settleable(s, req) && r.Ok? ==> Settled(s, req, now, r.value)
    ensures Settleable(s, req) && r.Err? ==>
      && r.error == WalletNotFound && ValueOf(req.eventType) == Some(Confirmed)
      && var (i, j) := Legs(s.ledger, req.endToEndId).value;
      && (s.ledger[i].walletId !in s.wallets || s.ledger[j].walletId !in s.wallets)
    ensures Settleable(s, req) && ValueOf(req.eventType) == Some(Confirmed)
            && (s.ledger[Legs(s.ledger, req.endToEndId).value.0].walletId !in s.wallets
                || s.ledger[Legs(s.ledger, req.endToEndId).value.1].walletId !in s.wallets) ==>
      r == Err(WalletNotFound)
  {
    if FindByEventId(s.events, req.eventId).Some? then Ok(s)
    else
      match ValueOf(req.eventType)
      case None => Err(UnknownStatus)
      case Some(status) =>
        match Legs(s.ledger, req.endToEndId)
        case None => Err(PixTransferNotFound)
        case Some((i, j)) =>
          var debit := s.ledger[i];
          var credit := s.ledger[j];
          if IsTerminal(debit.status) || IsTerminal(credit.status) then Ok(s)
          else
            var event := EventPix(req.eventId, req.endToEndId, status, req.occurredAt, now);
            var ledger := s.ledger[i := debit.(status := status, updatedAt := now)][j := credit.(status := status, updatedAt := now)];
            if status == Confirmed then
              match ApplyLegs(s.wallets, debit, credit)
              case Err(e) => Err(e)
              case Ok(wallets) => Ok(State(wallets, s.pixIndex, ledger, s.events + [event]))
            else Ok(s.(ledger := ledger, events := s.events + [event]))
  }

  /** Retrying a transfer under the same key, with any request, returns the first answer and writes nothing. */
  lemma TransferIdempotent(s: State, key: string, req: TransferRequest, now: int, retry: TransferRequest, later: int)
    requires Transfer(s, key, req, now).Ok?
    ensures Transfer(Transfer(s, key, req, now).value.0, key, retry, later) == Transfer(s, key, req, now)
  {
    var (s1, resp) := Transfer(s, key, req, now).value;
    if IndexOf(s.ledger, OutId(key)).None? {
      var debit := s1.ledger[|s.ledger|];
      var credit := s1.ledger[|s.ledger| + 1];
      assert s1.ledger == (s.ledger + [debit]) + [credit];
      IndexOfAppend(s.ledger, debit, OutId(key));
      IndexOfAppend(s.ledger + [debit], credit, OutId(key));
    }
  }

  /** Once an event has settled a transfer, every later request with that event id is a no-op. */
  lemma RecordedEventIgnored(s: State, req: WebhookRequest, now: int, replay: WebhookRequest, later: int)
    requires Settleable(s, req) && ProcessWebhook(s, req, now).Ok?
    requires replay.eventId == req.eventId
    ensures ProcessWebhook(ProcessWebhook(s, req, now).value, replay, later) == ProcessWebhook(s, req, now)
  {
    var s1 := ProcessWebhook(s, req, now).value;
    assert s1.events[|s.events|].eventId == req.eventId;
  }

  /** Delivering the same notification twice: the second delivery changes nothing. */
  lemma WebhookReplayIsNoOp(s: State, req: WebhookRequest, now: int, later: int)
    requires ProcessWebhook(s, req, now).Ok?
    ensures ProcessWebhook(ProcessWebhook(s, req, now).value, req, later) == ProcessWebhook(s, req, now)
  {
    if Settleable(s, req) {
      RecordedEventIgnored(s, req, now, req, later);
    }
  }

  /** Settling rewrites the two legs in place, so they are found where they were. */
  lemma SettledLegsStay(s: State, req: WebhookRequest, now: int, e2e: string)
    requires Settleable(s, req) && ProcessWebhook(s, req, now).Ok?
    ensures IndexOf(ProcessWebhook(s, req, now).value.ledger, e2e) == IndexOf(s.ledger, e2e)
  {
    var (i, j) := Legs(s.ledger, req.endToEndId).value;
    var status := ValueOf(req.eventType).value;
    var first := s.ledger[i := s.ledger[i].(status := status, updatedAt := now)];
    IndexOfUpdate(s.ledger, i, s.ledger[i].(status := status, updatedAt := now), e2e);
    IndexOfUpdate(first, j, first[j].(status := status, updatedAt := now), e2e);
  }

  /**
   * Terminal states absorb: after a transfer settles as CONFIRMED or REJECTED, no later
   * notification for it, of any type or event id, changes the state again.
   */
  lemma SettlementIsFinal(s: State, req: WebhookRequest, now: int, next: WebhookRequest, later: int)
    requires Settleable(s, req) && ProcessWebhook(s, req, now).Ok?
    requires IsTerminal(ValueOf(req.eventType).value)
    requires next.endToEndId == req.endToEndId
    ensures var s1 := ProcessWebhook(s, req, now).value;
            && (ProcessWebhook(s1, next, later).Ok? ==> ProcessWebhook(s1, next, later).value == s1)
            && (ValueOf(next.eventType).Some? ==> ProcessWebhook(s1, next, later) == Ok(s1))
  {
    var s1 := ProcessWebhook(s, req, now).value;
    SettledLegsStay(s, req, now, OutId(req.endToEndId));
    SettledLegsStay(s, req, now, InId(req.endToEndId));
    assert Legs(s1.ledger, next.endToEndId) == Legs(s.ledger, req.endToEndId);
  }

  /**
   * Conservation: a settlement moves money only between the two legs' wallets, and the
   * sum of their balances is unchanged (a transfer to oneself changes nothing).
   */
  lemma SettlementConservesBalance(s: State, req: WebhookRequest, now: int)
    requires Valid(s) && Settleable(s, req) && ProcessWebhook(s, req, now).Ok?
    ensures var s1 := ProcessWebhook(s, req, now).value;
            var (i, j) := Legs(s.ledger, req.endToEndId).value;
            var a := s.ledger[i].walletId;
            var b := s.ledger[j].walletId;
            && a in s.wallets && b in s.wallets
            && (a != b ==> s1.wallets[a].balance + s1.wallets[b].balance == s.wallets[a].balance + s.wallets[b].balance)
            && (a == b ==> s1.wallets[a].balance == s.wallets[a].balance)
            && forall id :: id in s.wallets && id != a && id != b ==> s1.wallets[id] == s.wallets[id]
  {
    var (i, j) := Legs(s.ledger, req.endToEndId).value;
    assert PairedAt(s.ledger, req.endToEndId);
    assert LegsMatch(s.ledger[i], s.ledger[j]);
  }
}
