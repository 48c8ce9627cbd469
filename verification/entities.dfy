/**
 * The persistent records of the core: wallets, ledger entries (transactions)
 * and settlement-event records, the business errors the services raise, and the
 * shapes of the correlation identifiers the services generate.
 * Amounts are exact integers in minor units; timestamps are opaque integers.
 */
module Entities {
  import opened Wrappers
  import opened TransactionStatus

  /** The kind of a ledger entry. */
  datatype TransactionType = Deposit | Withdraw | PixTransferOut | PixTransferIn

  /** One ledger entry; `endToEndId` is its unique correlation id. Negative amounts are debits. */
  datatype Transaction = Transaction(
    endToEndId: string,
    amount: int,
    status: Status,
    kind: TransactionType,
    walletId: string,
    pixKey: Option<string>,
    createdAt: int,
    updatedAt: int)

  /** A wallet: one per user, optionally reachable through a unique pix key. */
  datatype Wallet = Wallet(
    id: string,
    userId: string,
    balance: int,
    pixKey: Option<string>,
    createdAt: int,
    updatedAt: int)

  /** The idempotency record of one accepted settlement event. */
  datatype EventPix = EventPix(
    eventId: string,
    endToEndId: string,
    eventType: Status,
    occurredAt: int,
    createdAt: int)

  /** The business exceptions of the core, plus a unique-constraint failure of the store. */
  datatype Error =
    | WalletNotFound
    | UserAlreadyHasWallet
    | InsufficientBalance(balance: int)
    | PixTransferNotFound
    | TransactionEndToEndIdAlreadyExists
    | EventPixIdAlreadyExists
    | UnknownStatus
    | DuplicateKey

  /** Correlation id of the debit leg of the transfer with idempotency key `key`. */
  function OutId(key: string): string {
    "OUT" + key
  }

  /** Correlation id of the credit leg of the transfer with idempotency key `key`. */
  function InId(key: string): string {
    "IN" + key
  }

  /** Each leg id names exactly one idempotency key. */
  lemma LegIdsInjective(k1: string, k2: string)
    ensures OutId(k1) == OutId(k2) ==> k1 == k2
    ensures InId(k1) == InId(k2) ==> k1 == k2
  {
    if OutId(k1) == OutId(k2) {
      assert k1 == OutId(k1)[3..] && k2 == OutId(k2)[3..];
    }
    if InId(k1) == InId(k2) {
      assert k1 == InId(k1)[2..] && k2 == InId(k2)[2..];
    }
  }

  /** A debit leg id is never a credit leg id: they differ in their first letter. */
  lemma LegIdsDistinct(k1: string, k2: string)
    ensures OutId(k1) != InId(k2)
  {
    assert OutId(k1)[0] == 'O' && InId(k2)[0] == 'I';
  }

  predicate IsUuidChar(c: char) {
    ('0' <= c <= '9') || ('a' <= c <= 'f') || c == '-'
  }

  /** The text of a random UUID: lower-case hexadecimal digits and dashes. */
  predicate IsUuidText(id: string) {
    forall i :: 0 <= i < |id| ==> IsUuidChar(id[i])
  }

  /** A non-empty UUID text can never be mistaken for a transfer leg id. */
  lemma UuidIsNotLegId(id: string, key: string)
    requires |id| > 0 && IsUuidText(id)
    ensures id != OutId(key) && id != InId(key)
  {
    assert IsUuidChar(id[0]);
    assert OutId(key)[0] == 'O' && InId(key)[0] == 'I';
  }
}
