/**
 * The services as one system: any sequence of calls, each an atomic step that either
 * succeeds or fails without effect. Over every such run the store stays valid and
 * consistent, settled ledger entries never change again, and event records are never
 * rewritten or removed.
 */
module Protocol {
  import opened Wrappers
  import opened TransactionStatus
  import opened Entities
  import opened TransactionStore
  import opened BankState
  import WalletsService
  import PixService
  import Invariants

  /** One inbound call of the core, with the inputs the environment supplies (clock, generated ids). */
  datatype Op =
    | CreateWallet(userId: string, freshId: string)
    | InsertPixKey(walletId: string, pixKey: string)
    | Deposit(walletId: string, amount: int, freshE2E: string)
    | Withdraw(walletId: string, amount: int, freshE2E: string)
    | Transfer(key: string, transfer: PixService.TransferRequest)
    | Webhook(notification: PixService.WebhookRequest)

  datatype Step = Step(op: Op, now: int)

  /** Generated entry ids are random UUID texts. */
  predicate WellFormed(op: Op) {
    match op
    case Deposit(_, _, id) => |id| > 0 && IsUuidText(id)
    case Withdraw(_, _, id) => |id| > 0 && IsUuidText(id)
    case _ => true
  }

  /** The state part of a call's result. */
  function StateOf<T>(r: Result<(State, T), Error>): Result<State, Error> {
    match r
    case Ok((s', _)) => Ok(s')
    case Err(e) => Err(e)
  }

  /** The state after one call; `Err` means the call failed and stored nothing. */
  function Apply(s: State, step: Step): Result<State, Error> {
    match step.op
    case CreateWallet(userId, freshId) => StateOf(WalletsService.CreateWallet(s, userId, freshId, step.now))
    case InsertPixKey(walletId, pixKey) => StateOf(WalletsService.InsertPixKey(s, walletId, pixKey, step.now))
    case Deposit(walletId, amount, id) => StateOf(WalletsService.Deposit(s, walletId, amount, id, step.now))
    case Withdraw(walletId, amount, id) => StateOf(WalletsService.Withdraw(s, walletId, amount, id, step.now))
    case Transfer(key, request) => StateOf(PixService.Transfer(s, key, request, step.now))
    case Webhook(request) => PixService.ProcessWebhook(s, request, step.now)
  }

  /** The state after a sequence of calls; a failed call leaves the state as it was. */
  function Run(s: State, steps: seq<Step>): State
    decreases |steps|
  {
    if |steps| == 0 then s
    else
      var next := match Apply(s, steps[0]) case Ok(s') => s' case Err(_) => s;
      Run(next, steps[1..])
  }

  /** One successful call keeps the invariant and the ledger/balance consistency. */
  lemma ApplyPreserves(s: State, step: Step)
    requires Valid(s) && Consistent(s) && WellFormed(step.op)
    requires Apply(s, step).Ok?
    ensures Valid(Apply(s, step).value) && Consistent(Apply(s, step).value)
  {
    match step.op
    case CreateWallet(userId, freshId) => Invariants.CreateWalletPreserves(s, userId, freshId, step.now);
    case InsertPixKey(walletId, pixKey) => Invariants.InsertPixKeyPreserves(s, walletId, pixKey, step.now);
    case Deposit(walletId, amount, id) => Invariants.DepositPreserves(s, walletId, amount, id, step.now);
    case Withdraw(walletId, amount, id) => Invariants.WithdrawPreserves(s, walletId, amount, id, step.now);
    case Transfer(key, request) => Invariants.TransferPreserves(s, key, request, step.now);
    case Webhook(request) =>
      Invariants.WebhookPreservesValid(s, request, step.now);
      Invariants.WebhookPreservesConsistent(s, request, step.now);
  }

  /**
   * From the empty store, or any valid and consistent one, every run keeps every balance
   * equal to the sum of its wallet's confirmed ledger entries.
   */
  lemma {:induction false} RunPreserves(s: State, steps: seq<Step>)
    requires Valid(s) && Consistent(s)
    requires forall k :: 0 <= k < |steps| ==> WellFormed(steps[k].op)
    ensures Valid(Run(s, steps)) && Consistent(Run(s, steps))
    decreases |steps|
  {
    if |steps| > 0 {
      if Apply(s, steps[0]).Ok? {
        ApplyPreserves(s, steps[0]);
      }
      var next := match Apply(s, steps[0]) case Ok(s') => s' case Err(_) => s;
      assert forall k :: 0 <= k < |steps[1..]| ==> WellFormed(steps[1..][k].op);
      RunPreserves(next, steps[1..]);
    }
  }

  /** What a call may do to existing rows: rows stay in place, events are only appended, terminal rows are frozen. */
  ghost predicate Extends(s: State, s': State) {
    && |s.ledger| <= |s'.ledger|
    && (forall k :: 0 <= k < |s.ledger| ==> s'.ledger[k].endToEndId == s.ledger[k].endToEndId)
    && (forall k :: 0 <= k < |s.ledger| && IsTerminal(s.ledger[k].status) ==> s'.ledger[k] == s.ledger[k])
    && |s.events| <= |s'.events| && s'.events[..|s.events|] == s.events
  }

  /** Appending rows while leaving the events alone extends the store. */
  lemma AppendExtends(s: State, s': State)
    requires |s.ledger| <= |s'.ledger| && s'.ledger[..|s.ledger|] == s.ledger && s'.events == s.events
    ensures Extends(s, s')
  {
    forall k | 0 <= k < |s.ledger| ensures s'.ledger[k] == s.ledger[k] {
      assert s'.ledger[..|s.ledger|][k] == s'.ledger[k];
    }
  }

  /**
   * A notification changes no row but the two legs of its own transfer, keeping their ids,
   * adds no row, and appends at most one event.
   */
  lemma WebhookExtends(s: State, req: PixService.WebhookRequest, now: int)
    requires PixService.ProcessWebhook(s, req, now).Ok?
    ensures Extends(s, PixService.ProcessWebhook(s, req, now).value)
    ensures var s' := PixService.ProcessWebhook(s, req, now).value;
            && |s'.ledger| == |s.ledger|
            && forall k ::
                 (0 <= k < |s.ledger| && s.ledger[k].endToEndId != OutId(req.endToEndId)
                  && s.ledger[k].endToEndId != InId(req.endToEndId)) ==> s'.ledger[k] == s.ledger[k]
  {
    if PixService.Settleable(s, req) {
      var s' := PixService.ProcessWebhook(s, req, now).value;
      assert PixService.Settled(s, req, now, s');
      assert s'.events[..|s.events|] == s.events;
    }
  }

  /** Each successful call extends the store in that sense. */
  lemma ApplyExtends(s: State, step: Step)
    requires Apply(s, step).Ok?
    ensures Extends(s, Apply(s, step).value)
  {
    var s' := Apply(s, step).value;
    match step.op
    case Webhook(request) => WebhookExtends(s, request, step.now);
    case Transfer(key, request) =>
      if IndexOf(s.ledger, OutId(key)).None? {
        assert s'.ledger[..|s.ledger|] == s.ledger;
      }
      AppendExtends(s, s');
    case _ =>
      assert s'.ledger[..|s.ledger|] == s.ledger;
      AppendExtends(s, s');
  }

  /**
   * Over any run, a ledger entry that has become CONFIRMED or REJECTED never changes again,
   * no row is removed or re-keyed, and recorded events are kept.
   */
  lemma {:induction false} RunExtends(s: State, steps: seq<Step>)
    ensures Extends(s, Run(s, steps))
    decreases |steps|
  {
    if |steps| > 0 {
      var next := match Apply(s, steps[0]) case Ok(s') => s' case Err(_) => s;
      if Apply(s, steps[0]).Ok? {
        ApplyExtends(s, steps[0]);
      }
      RunExtends(next, steps[1..]);
    }
  }

  /**
   * Settlement is final over every run: once a leg of transfer `e2e` is CONFIRMED or
   * REJECTED, after any further calls both legs are still where they were, every terminal
   * leg is unchanged, and any notification for `e2e` whose type parses leaves the store as it is.
   */
  lemma SettledStaysSettled(s: State, steps: seq<Step>, req: PixService.WebhookRequest, now: int)
    requires PixService.Legs(s.ledger, req.endToEndId).Some?
    requires var (i, j) := PixService.Legs(s.ledger, req.endToEndId).value;
             IsTerminal(s.ledger[i].status) || IsTerminal(s.ledger[j].status)
    ensures var s' := Run(s, steps);
            && PixService.Legs(s'.ledger, req.endToEndId) == PixService.Legs(s.ledger, req.endToEndId)
            && (var (i, j) := PixService.Legs(s.ledger, req.endToEndId).value;
                && (IsTerminal(s.ledger[i].status) ==> s'.ledger[i] == s.ledger[i])
                && (IsTerminal(s.ledger[j].status) ==> s'.ledger[j] == s.ledger[j]))
            && (ValueOf(req.eventType).Some? ==> PixService.ProcessWebhook(s', req, now) == Ok(s'))
  {
    var s' := Run(s, steps);
    RunExtends(s, steps);
    IndexOfKeptPrefix(s.ledger, s'.ledger, OutId(req.endToEndId));
    IndexOfKeptPrefix(s.ledger, s'.ledger, InId(req.endToEndId));
  }
}
