/**
 * The whole persistent state the services act on: wallets by id with a pix-key
 * index, the ledger-entry table and the settlement-event table. Every service call
 * is one atomic step from a state to a result; a failed step yields no state, so
 * it leaves the store as it was, as the all-or-nothing transactions of the source do.
 */
module BankState {
  import opened Wrappers
  import opened Entities
  import opened TransactionStore
  import opened EventStore

  datatype State = State(
    wallets: map<string, Wallet>,
    pixIndex: map<string, string>,
    ledger: seq<Transaction>,
    events: seq<EventPix>)

  /** The store before anything was created. */
  function Initial(): State {
    State(map[], map[], [], [])
  }

  /** Every wallet is stored under its own id. */
  ghost predicate WalletsKeyed(s: State) {
    forall id :: id in s.wallets ==> s.wallets[id].id == id
  }

  /** The index maps a pix key to exactly the wallet that carries it, in both directions. */
  ghost predicate IndexExact(s: State) {
    && (forall k :: k in s.pixIndex ==> s.pixIndex[k] in s.wallets && s.wallets[s.pixIndex[k]].pixKey == Some(k))
    && (forall id :: id in s.wallets && s.wallets[id].pixKey.Some? ==>
          s.wallets[id].pixKey.value in s.pixIndex && s.pixIndex[s.wallets[id].pixKey.value] == id)
  }

  /** At most one wallet per user. */
  ghost predicate OneWalletPerUser(s: State) {
    forall a, b :: a in s.wallets && b in s.wallets && s.wallets[a].userId == s.wallets[b].userId ==> a == b
  }

  /** Every ledger entry belongs to a stored wallet. */
  ghost predicate EntriesOwned(s: State) {
    forall k :: 0 <= k < |s.ledger| ==> s.ledger[k].walletId in s.wallets
  }

  /** The two legs of a transfer move together and cancel out. */
  predicate LegsMatch(debit: Transaction, credit: Transaction) {
    debit.amount + credit.amount == 0 && debit.status == credit.status
  }

  /** The legs of the transfer `key`: the debit leg exists iff the credit leg does, and the two match. */
  predicate PairedAt(rows: seq<Transaction>, key: string) {
    && (IndexOf(rows, OutId(key)).Some? <==> IndexOf(rows, InId(key)).Some?)
    && (IndexOf(rows, OutId(key)).Some? && IndexOf(rows, InId(key)).Some? ==>
          LegsMatch(rows[IndexOf(rows, OutId(key)).value], rows[IndexOf(rows, InId(key)).value]))
  }

  /** Transfer legs come in pairs, for every idempotency key. */
  ghost predicate Paired(rows: seq<Transaction>) {
    forall key :: PairedAt(rows, key)
  }

  /** The structural invariant the store keeps between service calls. */
  ghost predicate Valid(s: State) {
    && WalletsKeyed(s)
    && IndexExact(s)
    && OneWalletPerUser(s)
    && EntriesOwned(s)
    && UniqueIds(s.ledger)
    && UniqueEventIds(s.events)
    && Paired(s.ledger)
  }

  /** Ledger/balance consistency: each balance is the sum of the wallet's confirmed entries. */
  ghost predicate Consistent(s: State) {
    forall id :: id in s.wallets ==> s.wallets[id].balance == ConfirmedSum(s.ledger, id)
  }

  lemma InitialIsValidAndConsistent()
    ensures Valid(Initial()) && Consistent(Initial())
  {
  }

  /** Wallet lookup by id. */
  function WalletById(s: State, id: string): (r: Option<Wallet>)
    ensures r.Some? <==> id in s.wallets
    ensures r.Some? ==> r.value == s.wallets[id]
  {
    if id in s.wallets then Some(s.wallets[id]) else None
  }

  /** Wallet lookup by pix key, through the index; in a valid store it finds exactly the wallet carrying the key. */
  function WalletByPixKey(s: State, pixKey: string): (r: Option<Wallet>)
    ensures r.Some? ==> r.value in s.wallets.Values
    ensures Valid(s) ==> (r.Some? <==> exists id :: id in s.wallets && s.wallets[id].pixKey == Some(pixKey))
    ensures Valid(s) && r.Some? ==> r.value.pixKey == Some(pixKey)
  {
    if pixKey in s.pixIndex && s.pixIndex[pixKey] in s.wallets then Some(s.wallets[s.pixIndex[pixKey]]) else None
  }

  /** With an exact index, the lookup by pix key finds precisely the stored wallet carrying that key. */
  lemma WalletByPixKeyExact(s: State, pixKey: string, w: Wallet)
    requires Valid(s)
    ensures WalletByPixKey(s, pixKey) == Some(w) <==> (w in s.wallets.Values && w.pixKey == Some(pixKey))
  {
    if w in s.wallets.Values && w.pixKey == Some(pixKey) {
      var id :| id in s.wallets && s.wallets[id] == w;
      assert s.pixIndex[pixKey] == id;
    }
  }

  /** The ids of the stored wallets that belong to `userId`. */
  function Owners(s: State, userId: string): set<string> {
    set id | id in s.wallets && s.wallets[id].userId == userId
  }

  /**
   * With one wallet per user, a user owns exactly one wallet when it owns any, so
   * `findByUserId` is a well-defined single-row query; a user owning none has no ids at all.
   */
  lemma HasWalletSingleOwner(s: State, userId: string)
    ensures OneWalletPerUser(s) ==>
      ((exists id :: id in s.wallets && s.wallets[id].userId == userId) <==> |Owners(s, userId)| == 1)
    ensures (exists id :: id in s.wallets && s.wallets[id].userId == userId) <==> Owners(s, userId) != {}
  {
    if exists id :: id in s.wallets && s.wallets[id].userId == userId {
      var id :| id in s.wallets && s.wallets[id].userId == userId;
      assert id in Owners(s, userId);
      if OneWalletPerUser(s) {
        assert Owners(s, userId) == {id};
      }
    } else {
      assert Owners(s, userId) == {};
    }
  }

  /** Whether the user already owns a wallet (`findByUserId(...).isPresent()`); with one wallet per user, it owns exactly one. */
  predicate HasWallet(s: State, userId: string)
    ensures OneWalletPerUser(s) ==> (HasWallet(s, userId) <==> |Owners(s, userId)| == 1)
    ensures !HasWallet(s, userId) ==> Owners(s, userId) == {}
  {
    HasWalletSingleOwner(s, userId);
    exists id :: id in s.wallets && s.wallets[id].userId == userId
  }
}
