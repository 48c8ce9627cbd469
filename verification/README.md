# PIX wallet ledger — a Dafny model

This project models the core of a Spring service that keeps wallets, a ledger of
signed transaction entries, and an asynchronous two-phase PIX transfer:

- `transfer` writes a pending debit/credit pair, `"OUT"+key` and `"IN"+key`.
  It is idempotent on the caller's key and moves no balance.
- `processWebhook` settles that pair once, from an external event. Balances move
  only on CONFIRMED. Replayed events and already-terminal transfers are ignored.

The wallet service (create, pix key, lookups, deposit, withdraw), the uniqueness-guarded
creators of ledger entries and event records, status parsing and the historical amount
query are modelled too.

The whole store is one immutable `State`:

- wallets by id, with an index from pix key to wallet id;
- the ledger table as the sequence of its rows;
- the event table as the sequence of its rows.

Every service method is a pure function from a state to `Result`. A failure carries no
state, so a failed call leaves the store unchanged, as the all-or-nothing
`@Transactional` units do. Amounts are exact integers in minor units (cents). Clock
readings and generated UUIDs are parameters.

Modules, leaf first:

- `Wrappers`: `Option` and `Result`.
- `TransactionStatus`: the status enum, plus `valueOf` and `fromString`.
- `Entities`: the records, the errors, and the shapes of leg ids and UUID ids.
- `TransactionStore`: the ledger table, `TransactionService`, the historical sum.
- `EventStore`: the event table and `EventPixService`.
- `BankState`: the state, its invariant `Valid`, and the ledger/balance consistency
  `Consistent`.
- `WalletsService`, `PixService`: the services.
- `Invariants`: each successful call preserves `Valid` and `Consistent`.
- `Protocol`: arbitrary call sequences. The invariants hold throughout, and terminal
  ledger entries are frozen.
- `Scenarios`: worked examples.

## Model

| member | source | states |
|---|---|---|
| TransactionStatus.ValueOf | src/main/java/com/lucas_cm/bank_test/domain/services/PixService.java:136 | the webhook's parser accepts a text iff it is exactly one of the three constant names, and yields that status |
| TransactionStatus.ValueOfName | src/main/java/com/lucas_cm/bank_test/domain/services/PixService.java:136 | `valueOf` inverts `name` on every status |
| TransactionStatus.ValueOfIsCaseSensitive | src/main/java/com/lucas_cm/bank_test/domain/services/PixService.java:136 | `"confirmed"` is refused by `valueOf` although `fromString` accepts it |
| TransactionStatus.ValueOfRefinesFromString | src/main/java/com/lucas_cm/bank_test/domain/entities/TransactionStatusEnum.java:6-15 | whatever `valueOf` accepts, `fromString` accepts with the same status |
| TransactionStatus.ToUpper | src/main/java/com/lucas_cm/bank_test/domain/entities/TransactionStatusEnum.java:7 | upper-casing keeps the length and maps each character by itself, changing only a-z |
| TransactionStatus.ToUpperFixesUpper | src/main/java/com/lucas_cm/bank_test/domain/entities/TransactionStatusEnum.java:7 | a text without lower-case letters is unchanged by upper-casing |
| TransactionStatus.FromString | src/main/java/com/lucas_cm/bank_test/domain/entities/TransactionStatusEnum.java:6-15 | `fromString(s)` is status v iff the upper-cased s equals v's name; otherwise it fails |
| TransactionStatus.FromStringName | src/main/java/com/lucas_cm/bank_test/domain/entities/TransactionStatusEnum.java:7-10 | round trip: `fromString(name(v)) == v` for all three statuses |
| TransactionStatus.FromStringIgnoresCase | src/main/java/com/lucas_cm/bank_test/domain/entities/TransactionStatusEnum.java:7 | two texts that differ only in letter case parse alike |
| TransactionStatus.FromStringCaseVariant | src/main/java/com/lucas_cm/bank_test/domain/entities/TransactionStatusEnum.java:7-10 | every case variant of a name parses to that status |
| TransactionStatus.FromStringRejectsOthers | src/main/java/com/lucas_cm/bank_test/domain/entities/TransactionStatusEnum.java:11-13 | a text that is no case variant of a name, the empty text included, is refused |
| Entities.LegIdsInjective | src/main/java/com/lucas_cm/bank_test/domain/services/PixService.java:81-95 | `"OUT"+k` and `"IN"+k` each determine the key k |
| Entities.LegIdsDistinct | src/main/java/com/lucas_cm/bank_test/domain/services/PixService.java:81-95 | a debit-leg id never equals a credit-leg id |
| Entities.UuidIsNotLegId | src/main/java/com/lucas_cm/bank_test/domain/services/WalletsService.java:77 | an entry id generated as UUID text can never collide with a transfer leg id |
| TransactionStore.IndexOf | src/main/java/com/lucas_cm/bank_test/domain/repositories/TransactionRepository.java:18 | finds the first row with the correlation id, or reports that no row has it |
| TransactionStore.FindByEndToEndId | src/main/java/com/lucas_cm/bank_test/domain/repositories/TransactionRepository.java:18 | the lookup yields a stored row with that id, and is empty iff no row has it |
| TransactionStore.FindByEndToEndIdUnique | src/main/java/com/lucas_cm/bank_test/domain/entities/TransactionEntity.java:21-22 | with unique ids, the lookup finds exactly the one row carrying the id |
| TransactionStore.IndexOfAppend | src/main/java/com/lucas_cm/bank_test/domain/repositories/TransactionRepository.java:18 | storing a new row leaves earlier lookups unchanged and makes the new id findable |
| TransactionStore.IndexOfUpdate | src/main/java/com/lucas_cm/bank_test/domain/repositories/TransactionRepository.java:18 | saving a row back under the same id leaves every lookup where it was |
| TransactionStore.IndexOfKeptPrefix | src/main/java/com/lucas_cm/bank_test/domain/repositories/TransactionRepository.java:18 | if a table keeps every earlier row's id in place, an id found before is found at the same position |
| TransactionStore.Create | src/main/java/com/lucas_cm/bank_test/domain/services/TransactionService.java:17-21 | fails with TransactionEndToEndIdAlreadyExists iff the id is stored; else appends the entry unchanged (any sign, status or kind), returns it, and keeps ids unique |
| TransactionStore.CreateThenFind | src/main/java/com/lucas_cm/bank_test/domain/services/TransactionService.java:17-21 | after create, a lookup of the id returns the entry; lookups of other ids are unchanged |
| TransactionStore.FindByWalletId | src/main/java/com/lucas_cm/bank_test/domain/services/TransactionService.java:23-26 | returns exactly the wallet's entries, each as often as stored; empty when it has none |
| TransactionStore.ConfirmedSumUpdate | src/main/java/com/lucas_cm/bank_test/domain/services/PixService.java:194-199 | rewriting one ledger row changes a wallet's confirmed sum by exactly that row's change in contribution |
| TransactionStore.AmountByWalletIdAndDate | src/main/java/com/lucas_cm/bank_test/domain/repositories/TransactionRepository.java:20-27 | the query yields nothing iff no confirmed entry of the wallet has createdAt >= at; otherwise it yields the sum over exactly those entries |
| TransactionStore.SumSinceOnlyQualifyingRows | src/main/java/com/lucas_cm/bank_test/domain/repositories/TransactionRepository.java:20-23 | entries of other wallets, or that are pending, rejected or earlier than at, cannot change the sum |
| TransactionStore.SumSplitsAt | src/main/java/com/lucas_cm/bank_test/domain/repositories/TransactionRepository.java:22 | the query counts "on or after at": it plus the confirmed sum before at is the wallet's whole confirmed sum |
| EventStore.FindByEventId | src/main/java/com/lucas_cm/bank_test/domain/repositories/EventPixRepository.java:11 | yields a stored record with the event id, and is empty iff none has it |
| EventStore.Create | src/main/java/com/lucas_cm/bank_test/domain/services/EventPixService.java:14-20 | fails with EventPixIdAlreadyExists iff the event id is present; else appends and returns the record, keeping event ids unique |
| EventStore.CreateThenPresent | src/main/java/com/lucas_cm/bank_test/domain/services/EventPixService.java:14-20 | after create the id is present, and creating it again is refused |
| EventStore.CreateLeavesOthers | src/main/java/com/lucas_cm/bank_test/domain/services/EventPixService.java:14-20 | records of other event ids are found exactly as before |
| BankState.WalletById | src/main/java/com/lucas_cm/bank_test/domain/repositories/WalletRepository.java:21-23 | the id lookup hits iff the wallet is stored and yields that wallet |
| BankState.WalletByPixKey | src/main/java/com/lucas_cm/bank_test/domain/repositories/WalletRepository.java:19-27 | the pix-key lookup (with or without the lock) yields only stored wallets; in a valid store it hits iff some stored wallet carries the key, and the wallet it yields carries it |
| BankState.HasWallet | src/main/java/com/lucas_cm/bank_test/domain/repositories/WalletRepository.java:15 | `findByUserId(...).isPresent()`: with one wallet per user, true exactly when the user owns exactly one stored wallet; when false, the user owns none |
| BankState.HasWalletSingleOwner | src/main/java/com/lucas_cm/bank_test/domain/services/WalletsService.java:25-27 | whether some stored wallet belongs to the user is the same as the set of its wallets being non-empty, and with one wallet per user that set has exactly one element, so the single-row query is well defined |
| BankState.WalletByPixKeyExact | src/main/java/com/lucas_cm/bank_test/domain/entities/WalletEntity.java:27-28 | in a valid store the pix-key lookup yields w iff w is a stored wallet carrying that key |
| WalletsService.CreateWallet | src/main/java/com/lucas_cm/bank_test/domain/services/WalletsService.java:25-34 | a user with a wallet gets UserAlreadyHasWallet and nothing is stored; a generated id already stored fails with DuplicateKey; else one new wallet with that user, balance 0, no key and both timestamps `now` is added, nothing else changes |
| WalletsService.InsertPixKey | src/main/java/com/lucas_cm/bank_test/domain/services/WalletsService.java:41-48 | unknown id is WalletNotFound; a key held by another wallet is refused; else only that wallet's key and update time change, and the key now resolves to it |
| WalletsService.FindById | src/main/java/com/lucas_cm/bank_test/domain/services/WalletsService.java:50-54 | returns the stored wallet, or WalletNotFound on a miss |
| WalletsService.FindByPixKey | src/main/java/com/lucas_cm/bank_test/domain/services/WalletsService.java:56-60 | in a valid store it succeeds iff some wallet carries the key, and returns that wallet; else WalletNotFound |
| WalletsService.Deposit | src/main/java/com/lucas_cm/bank_test/domain/services/WalletsService.java:62-86 | unknown wallet is WalletNotFound. Otherwise the balance grows by amount, of any sign, and one CONFIRMED DEPOSIT entry of +amount is appended. A reused entry id fails with nothing stored. |
| WalletsService.Withdraw | src/main/java/com/lucas_cm/bank_test/domain/services/WalletsService.java:88-117 | balance < amount fails with InsufficientBalance(balance), storing nothing. Otherwise a reused entry id fails with TransactionEndToEndIdAlreadyExists; else the balance drops by amount and stays >= 0, and one CONFIRMED WITHDRAW entry of -amount is appended. |
| WalletsService.WithdrawAll | src/main/java/com/lucas_cm/bank_test/domain/services/WalletsService.java:93-98 | withdrawing exactly the balance is accepted and leaves 0 |
| PixService.Transfer | src/main/java/com/lucas_cm/bank_test/domain/services/PixService.java:33-113 | see the list after the table |
| PixService.UpdateBalance | src/main/java/com/lucas_cm/bank_test/domain/services/PixService.java:219-230 | adds the signed amount to one wallet with no sufficiency check; every other wallet unchanged; unknown wallet is WalletNotFound |
| PixService.ApplyLegs | src/main/java/com/lucas_cm/bank_test/domain/services/PixService.java:202-204 | a confirmation adds the debit amount to the debit wallet, then the credit amount to the credit wallet; each balance moves by its share of the two legs, and a missing wallet is WalletNotFound |
| PixService.Legs | src/main/java/com/lucas_cm/bank_test/domain/services/PixService.java:139-151 | locates both legs `"OUT"+e2e` and `"IN"+e2e` (distinct rows), or reports that one is missing |
| PixService.ProcessWebhook | src/main/java/com/lucas_cm/bank_test/domain/services/PixService.java:115-217 | see the list after the table |
| PixService.TransferIdempotent | src/main/java/com/lucas_cm/bank_test/domain/services/PixService.java:44-55 | a retry with the same key and any request returns the first call's answer and leaves the state as the first call left it |
| PixService.RecordedEventIgnored | src/main/java/com/lucas_cm/bank_test/domain/services/PixService.java:125-130 | after an event settled a transfer, any request with that event id is a no-op |
| PixService.WebhookReplayIsNoOp | src/main/java/com/lucas_cm/bank_test/domain/services/PixService.java:125-130 | delivering the same notification a second time changes nothing |
| PixService.SettledLegsStay | src/main/java/com/lucas_cm/bank_test/domain/services/PixService.java:194-199 | settlement rewrites the legs in place: every lookup by id finds the same position as before |
| PixService.SettlementIsFinal | src/main/java/com/lucas_cm/bank_test/domain/services/PixService.java:153-175 | right after a CONFIRMED or REJECTED settlement, every notification for that transfer whose type parses returns normally and leaves the store as it is, so balances move at most once |
| PixService.SettlementConservesBalance | src/main/java/com/lucas_cm/bank_test/domain/services/PixService.java:201-205 | in a valid store a settlement keeps the sum of the two legs' wallet balances, and all other wallets |
| Invariants.CreateWalletPreserves | src/main/java/com/lucas_cm/bank_test/domain/services/WalletsService.java:25-34 | creating a wallet keeps the store valid and each balance equal to its confirmed sum |
| Invariants.InsertPixKeyPreserves | src/main/java/com/lucas_cm/bank_test/domain/services/WalletsService.java:41-48 | attaching a pix key keeps the pix-key index exact and the store consistent |
| Invariants.DepositPreserves | src/main/java/com/lucas_cm/bank_test/domain/services/WalletsService.java:62-86 | a deposit keeps balance = sum of the wallet's confirmed entries |
| Invariants.WithdrawPreserves | src/main/java/com/lucas_cm/bank_test/domain/services/WalletsService.java:88-117 | a withdrawal keeps balance = sum of the wallet's confirmed entries |
| Invariants.TransferNeverCollides | src/main/java/com/lucas_cm/bank_test/domain/services/PixService.java:93-104 | in a valid store a fresh key's credit leg never hits the unique constraint |
| Invariants.TransferPreserves | src/main/java/com/lucas_cm/bank_test/domain/services/PixService.java:76-108 | initiation keeps ids unique and legs paired (amounts cancel, statuses equal), and changes no confirmed sum |
| Invariants.PairedAppendLegs | src/main/java/com/lucas_cm/bank_test/domain/services/PixService.java:76-104 | appending a fresh matching debit/credit pair keeps every transfer's legs paired |
| Invariants.WebhookPreservesValid | src/main/java/com/lucas_cm/bank_test/domain/services/PixService.java:185-212 | settlement keeps ids unique, legs paired and event ids unique |
| Invariants.PairedSettle | src/main/java/com/lucas_cm/bank_test/domain/services/PixService.java:194-199 | giving both legs of one transfer the same new status in place keeps every transfer's legs paired |
| Invariants.WebhookPreservesConsistent | src/main/java/com/lucas_cm/bank_test/domain/services/PixService.java:194-212 | settlement moves each balance by exactly the change in its wallet's confirmed sum |
| Protocol.ApplyPreserves | src/main/java/com/lucas_cm/bank_test/domain/services/PixService.java:201-212 | any one successful service call keeps the store valid and consistent |
| Protocol.RunPreserves | src/main/java/com/lucas_cm/bank_test/domain/services/PixService.java:201-212 | over every sequence of calls, each balance equals the sum of its wallet's CONFIRMED entries |
| Protocol.ApplyExtends | src/main/java/com/lucas_cm/bank_test/domain/services/PixService.java:153-175 | a call never removes or re-keys a ledger row, never alters a CONFIRMED/REJECTED row, and only appends event records |
| Protocol.WebhookExtends | src/main/java/com/lucas_cm/bank_test/domain/services/PixService.java:185-212 | a notification adds no ledger row and changes no row except the two legs of its own transfer; it keeps every id, leaves terminal rows alone and only appends to the events |
| Protocol.RunExtends | src/main/java/com/lucas_cm/bank_test/domain/services/PixService.java:153-175 | over every sequence of calls a terminal ledger entry never changes again |
| Protocol.SettledStaysSettled | src/main/java/com/lucas_cm/bank_test/domain/services/PixService.java:153-175 | after any sequence of calls, a transfer with a CONFIRMED or REJECTED leg still has both legs in place, every terminal leg is unchanged, and any notification for it whose type parses returns normally and leaves the store as it is |
| Scenarios.StartValid | src/main/java/com/lucas_cm/bank_test/domain/services/WalletsService.java:62-86 | the starting store, whose 1000.00 is one confirmed deposit, is valid and consistent |
| Scenarios.InitiateLeavesBalances | src/main/java/com/lucas_cm/bank_test/domain/services/PixService.java:76-108 | initiating 100.50 from a 1000.00 wallet yields exactly the store with two pending legs of -100.50/+100.50, both balances untouched, and answers (key, PENDING) |
| Scenarios.ConfirmMovesFunds | src/main/java/com/lucas_cm/bank_test/domain/services/PixService.java:201-205 | confirming it leaves 899.50 and 100.50, both legs CONFIRMED |
| Scenarios.RejectKeepsFunds | src/main/java/com/lucas_cm/bank_test/domain/services/PixService.java:206-208 | rejecting it leaves both balances, both legs REJECTED |
| Scenarios.TransferBeyondBalanceFails | src/main/java/com/lucas_cm/bank_test/domain/services/PixService.java:71-74 | a 2000.00 transfer from 1000.00 fails with InsufficientBalance(1000.00) |
| Scenarios.TransferExactBalanceAccepted | src/main/java/com/lucas_cm/bank_test/domain/services/PixService.java:71-74 | a transfer of exactly the whole balance is accepted as PENDING |
| Scenarios.UnknownTransferFails | src/main/java/com/lucas_cm/bank_test/domain/services/PixService.java:139-144 | a notification for an unknown transfer fails with PixTransferNotFound |
| Scenarios.LowerCaseEventTypeFails | src/main/java/com/lucas_cm/bank_test/domain/services/PixService.java:136 | a lower-case event type fails the webhook's parse |
| Scenarios.WithdrawAfterInitiation | src/main/java/com/lucas_cm/bank_test/domain/services/WalletsService.java:88-117 | initiation reserves nothing: after initiating 100.50 the whole 1000.00 can still be withdrawn, leaving 0 |
| Scenarios.ConfirmationCanOverdraw | src/main/java/com/lucas_cm/bank_test/domain/services/PixService.java:219-230 | after that withdrawal, confirming the pending transfer drives the source to -100.50 |
| Scenarios.NegativeTransferAccepted | src/main/java/com/lucas_cm/bank_test/domain/services/PixService.java:71-74 | a transfer of -50.00 passes the strict balance test and is initiated as PENDING, with a +50.00 debit leg and a -50.00 credit leg |
| Scenarios.NegativeTransferDrainsDestination | src/main/java/com/lucas_cm/bank_test/domain/services/PixService.java:201-205 | confirming that transfer leaves the source at 1050.00 and the destination at -50.00 |
| Scenarios.ScenarioStoresValid | src/main/java/com/lucas_cm/bank_test/domain/services/PixService.java:33-113 | the initiated and withdrawn stores the examples use are valid and consistent, because the services reach them from the starting store |

The contract of `PixService.Transfer` says:

- A stored leg `"OUT"+key` makes the call a retry. It returns `(key, that leg's status)`
  and leaves the state unchanged.
- An unknown source wallet fails with WalletNotFound. So does an unknown destination
  pix key.
- `balance < amount` fails with InsufficientBalance carrying the balance.
- Otherwise, with `balance >= amount` (equality included), the call succeeds exactly
  when no leg `"IN"+key` is stored. A stored credit leg fails with DuplicateKey, the
  unique constraint of the id column.
- Success returns `(key, PENDING)`. It appends exactly the debit `"OUT"+key` of `-amount`
  on the source and the credit `"IN"+key` of `+amount` on the destination. Both are
  PENDING and carry the destination's key. No wallet changes.

The contract of `PixService.ProcessWebhook` says:

- A recorded event id is a no-op.
- An event type that is not an exact constant name fails (UnknownStatus).
- A missing leg fails with PixTransferNotFound.
- If either leg is terminal and the type parses, the call returns normally. It changes
  nothing and does not record the event.
- Otherwise both legs take the new status and the event is recorded. Each balance moves
  by its legs' amounts exactly when the status is CONFIRMED.
- A CONFIRMED settlement fails with WalletNotFound exactly when a leg's wallet is
  missing. No other error can come out of a settlement.

## Behaviour of the code worth noting

- Leg ids are `"OUT"+key` and `"IN"+key`, with no separator.
- A notification for a terminal transfer returns before its event is recorded, so it
  leaves no idempotency record.
- `processWebhook` parses the event type with the case-sensitive `valueOf`, not the
  case-insensitive `fromString`. A PENDING event on a pending transfer is accepted and
  recorded.
- `deposit` and `withdraw` accept an amount of any sign. So does `transfer`: it compares
  only `balance < amount`, so a negative amount is initiated (`Scenarios.NegativeTransferAccepted`).
  Once confirmed, it moves money from the destination to the source and can drive the
  destination below zero (`Scenarios.NegativeTransferDrainsDestination`).
- `insertPixKey` may replace a wallet's key; only the column's uniqueness limits it.
- The historical query sums entries created on or after `at`, not up to `at`.
- Initiation checks the balance but reserves nothing. `updateBalance` has no sufficiency
  check, so a confirmed settlement can drive a balance below zero
  (`Scenarios.ConfirmationCanOverdraw`, on a store the services reach from a valid,
  consistent start: `Scenarios.ScenarioStoresValid`). "Balance >= 0" is therefore not an invariant
  of the model. "Balance = sum of confirmed entries" is.

## Left out

- HTTP controllers, the exception handler, DTO records and `ConfigurationBeans`: routing,
  status codes and wiring only. `GetBalanceDto`'s floating-point balance is not modelled.
- Concurrency: the pessimistic locks of `WalletRepository` and `@Transactional`. Each
  call is one atomic step.
- Logging and the MDC context.
- `LocalDateTime.now()` is an integer `now` parameter. The webhook's `occurredAt` arrives
  already parsed as an integer, so a malformed instant (a `DateTimeParseException`) is
  not modelled.
- `UUID.randomUUID()` and the wallet id generator become parameters. Deposit and
  withdraw ids are assumed to be non-empty UUID text only where the pairing invariant
  needs it.
- The internal auto-increment row ids are not modelled; row order in the sequences stands
  in for them. BigDecimal scale is not modelled.
- Exception messages and error codes are not modelled. The `Error` datatype names the
  exception and carries the balance for InsufficientBalance.
- `DuplicateKey` stands for a database unique-constraint failure. The code does not
  check these itself: a pix key taken by another wallet, a generated wallet id already in
  use, and a credit leg id already stored.
- The event record's `eventType` and `occurredAt` are declared as `String` columns, and
  the entity declares no builder (EventPixEntity.java:9-23). The model types them as
  `Status` and an integer instant, as `processWebhook` fills them from the parsed status
  and timestamp (PixService.java:186-192).
- Null arguments are not modelled. Neither is `findByUserId` failing on several rows;
  the invariant rules that out.
- `WalletsService.save` (lines 36-39) is not modelled: no core path calls it, and as a
  raw write it bypasses the ledger.
- `existsByUserId` is not modelled: nothing in the core uses it.
- TransactionTypeEnum.java is not part of this model. Its four constants are taken from
  their uses in the services.
- The third guard of `processWebhook` ("not PENDING", lines 178-183) is not modelled.
  With a three-valued status it is unreachable once the two terminal checks have passed.
- TransactionStatus.FromString: upper-cases ASCII letters only. Java's `toUpperCase`
  also maps some other characters onto these letters (the dotless i, the long s, the
  "fi" ligature), and in a Turkish default locale it maps `i` elsewhere. The model
  assumes a locale in which a-z map to A-Z.
- TransactionStatus.ToUpper: same restriction as FromString. Only a-z change.
