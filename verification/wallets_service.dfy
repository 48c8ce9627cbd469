/**
 * `WalletsService`: wallet creation (one per user), pix-key attachment, the two
 * lookups, and the synchronous deposit and withdraw that each write one confirmed
 * ledger entry through `TransactionService.create`.
 */
module WalletsService {
  import opened Wrappers
  import opened TransactionStatus
  import opened Entities
  import opened TransactionStore
  import opened BankState

  /** The tables other than the wallets and the index are untouched. */
  predicate SameTables(s: State, s': State) {
    s'.ledger == s.ledger && s'.events == s.events
  }

  /**
   * `create(userId)`: refuses a user who already has a wallet; otherwise stores a new
   * wallet with zero balance and no pix key under the generated id `freshId` (a generated
   * id that is already taken would violate the primary key).
   */
  function CreateWallet(s: State, userId: string, freshId: string, now: int): (r: Result<(State, Wallet), Error>)
    ensures (exists id :: id in s.wallets && s.wallets[id].userId == userId) ==> r == Err(UserAlreadyHasWallet)
    ensures r.Err? <==> (exists id :: id in s.wallets && s.wallets[id].userId == userId) || freshId in s.wallets
    ensures !HasWallet(s, userId) && freshId in s.wallets ==> r == Err(DuplicateKey)
    ensures r.Ok? ==>
      var (s', w) := r.value;
      && w.id == freshId && w.userId == userId && w.balance == 0 && w.pixKey == None
      && w.createdAt == now && w.updatedAt == now
      && s'.wallets.Keys == s.wallets.Keys + {freshId}
      && s'.wallets[freshId] == w
      && (forall id :: id in s.wallets ==> s'.wallets[id] == s.wallets[id])
      && s'.pixIndex == s.pixIndex && SameTables(s, s')
  {
    if HasWallet(s, userId) then Err(UserAlreadyHasWallet)
    else if freshId in s.wallets then Err(DuplicateKey)
    else
      var w := Wallet(freshId, userId, 0, None, now, now);
      Ok((s.(wallets := s.wallets[freshId := w]), w))
  }

  /**
   * `insertPixKey(id, pixKey)`: refuses an unknown wallet; the pix-key column's unique
   * constraint refuses a key another wallet holds; otherwise only the wallet's key and
   * update time change, and the index follows.
   */
  function InsertPixKey(s: State, id: string, pixKey: string, now: int): (r: Result<(State, Wallet), Error>)
    ensures id !in s.wallets ==> r == Err(WalletNotFound)
    ensures id in s.wallets ==> (r.Err? <==> pixKey in s.pixIndex && s.pixIndex[pixKey] != id)
    ensures r.Err? && id in s.wallets ==> r.error == DuplicateKey
    ensures r.Ok? ==>
      var (s', w) := r.value;
      && id in s.wallets
      && w == s.wallets[id].(pixKey := Some(pixKey), updatedAt := now)
      && s'.wallets == s.wallets[id := w]
      && pixKey in s'.pixIndex && s'.pixIndex[pixKey] == id
      && (forall k :: k in s.pixIndex && s.pixIndex[k] != id ==> k in s'.pixIndex && s'.pixIndex[k] == s.pixIndex[k])
      && SameTables(s, s')
  {
    if id !in s.wallets then Err(WalletNotFound)
    else if pixKey in s.pixIndex && s.pixIndex[pixKey] != id then Err(DuplicateKey)
    else
      var prior := s.wallets[id];
      var w := prior.(pixKey := Some(pixKey), updatedAt := now);
      var index := if prior.pixKey.Some? && prior.pixKey.value in s.pixIndex && s.pixIndex[prior.pixKey.value] == id
                   then s.pixIndex - {prior.pixKey.value} else s.pixIndex;
      Ok((s.(wallets := s.wallets[id := w], pixIndex := index[pixKey := id]), w))
  }

  /** `findById`: the stored wallet, or WalletNotFound. */
  function FindById(s: State, id: string): (r: Result<Wallet, Error>)
    ensures r.Ok? <==> id in s.wallets
    ensures r.Ok? ==> r.value == s.wallets[id]
    ensures r.Err? ==> r.error == WalletNotFound
  {
    match WalletById(s, id)
    case Some(w) => Ok(w)
    case None => Err(WalletNotFound)
  }

  /** `findByPixKey`: the wallet holding the key, or WalletNotFound. */
  function FindByPixKey(s: State, pixKey: string): (r: Result<Wallet, Error>)
    ensures r.Ok? ==> r.value in s.wallets.Values
    ensures r.Err? ==> r.error == WalletNotFound
    ensures Valid(s) ==> (r.Ok? <==> exists id :: id in s.wallets && s.wallets[id].pixKey == Some(pixKey))
    ensures Valid(s) && r.Ok? ==> r.value.pixKey == Some(pixKey)
  {
    match WalletByPixKey(s, pixKey)
    case Some(w) => Ok(w)
    case None => Err(WalletNotFound)
  }

  /**
   * `deposit(walletId, amount)`: adds `amount` (of any sign) to the balance and records one
   * confirmed DEPOSIT entry of `+amount` under the freshly generated id `freshE2E`.
   */
  function Deposit(s: State, walletId: string, amount: int, freshE2E: string, now: int): (r: Result<(State, Wallet), Error>)
    ensures walletId !in s.wallets ==> r == Err(WalletNotFound)
    ensures walletId in s.wallets ==>
      (r.Err? <==> exists k :: 0 <= k < |s.ledger| && s.ledger[k].endToEndId == freshE2E)
    ensures r.Err? && walletId in s.wallets ==> r.error == TransactionEndToEndIdAlreadyExists
    ensures r.Ok? ==>
      var (s', w) := r.value;
      && walletId in s.wallets
      && w == s.wallets[walletId].(balance := s.wallets[walletId].balance + amount)
      && s'.wallets == s.wallets[walletId := w]
      && s'.ledger == s.ledger + [Transaction(freshE2E, amount, Confirmed, TransactionType.Deposit, w.id, None, now, now)]
      && s'.pixIndex == s.pixIndex && s'.events == s.events
  {
    match FindById(s, walletId)
    case Err(e) => Err(e)
    case Ok(wallet) =>
      var w := wallet.(balance := wallet.balance + amount);
      var t := Transaction(freshE2E, amount, Confirmed, TransactionType.Deposit, w.id, None, now, now);
      match TransactionStore.Create(s.ledger, t)
      case Err(e) => Err(e)
      case Ok((ledger, _)) => Ok((s.(wallets := s.wallets[walletId := w], ledger := ledger), w))
  }

  /**
   * `withdraw(walletId, amount)`: refuses with the current balance when it is below
   * `amount`; otherwise subtracts `amount` and records one confirmed WITHDRAW entry of
   * `-amount` under the freshly generated id `freshE2E`.
   */
  function Withdraw(s: State, walletId: string, amount: int, freshE2E: string, now: int): (r: Result<(State, Wallet), Error>)
    ensures walletId !in s.wallets ==> r == Err(WalletNotFound)
    ensures walletId in s.wallets && s.wallets[walletId].balance < amount ==>
      r == Err(InsufficientBalance(s.wallets[walletId].balance))
    ensures walletId in s.wallets && s.wallets[walletId].balance >= amount ==>
      (r.Err? <==> exists k :: 0 <= k < |s.ledger| && s.ledger[k].endToEndId == freshE2E)
    ensures r.Err? && walletId in s.wallets && s.wallets[walletId].balance >= amount ==>
      r.error == TransactionEndToEndIdAlreadyExists
    ensures r.Ok? ==>
      var (s', w) := r.value;
      && walletId in s.wallets
      && w == s.wallets[walletId].(balance := s.wallets[walletId].balance - amount)
      && w.balance >= 0
      && s'.wallets == s.wallets[walletId := w]
      && s'.ledger == s.ledger + [Transaction(freshE2E, -amount, Confirmed, TransactionType.Withdraw, w.id, None, now, now)]
      && s'.pixIndex == s.pixIndex && s'.events == s.events
  {
    match FindById(s, walletId)
    case Err(e) => Err(e)
    case Ok(wallet) =>
      if wallet.balance < amount then Err(InsufficientBalance(wallet.balance))
      else
        var w := wallet.(balance := wallet.balance - amount);
        var t := Transaction(freshE2E, -amount, Confirmed, TransactionType.Withdraw, w.id, None, now, now);
        match TransactionStore.Create(s.ledger, t)
        case Err(e) => Err(e)
        case Ok((ledger, _)) => Ok((s.(wallets := s.wallets[walletId := w], ledger := ledger), w))
  }

  /** Withdrawing the whole balance succeeds (given a fresh entry id) and leaves exactly zero. */
  lemma WithdrawAll(s: State, walletId: string, freshE2E: string, now: int)
    requires walletId in s.wallets
    requires forall k :: 0 <= k < |s.ledger| ==> s.ledger[k].endToEndId != freshE2E
    ensures Withdraw(s, walletId, s.wallets[walletId].balance, freshE2E, now).Ok?
    ensures Withdraw(s, walletId, s.wallets[walletId].balance, freshE2E, now).value.1.balance == 0
  {
  }
}
