/**
 * The ledger-entry table and the two services built directly on it:
 * the repository reads (`findByEndToEndId`, `findByWalletId`, the historical
 * amount query) and the uniqueness-guarded `TransactionService.create`.
 * The table is the sequence of its rows in insertion order.
 */
module TransactionStore {
  import opened Wrappers
  import opened TransactionStatus
  import opened Entities

  /** No two rows share a correlation id (the column's unique constraint). */
  ghost predicate UniqueIds(rows: seq<Transaction>) {
    forall i, j :: 0 <= i < j < |rows| ==> rows[i].endToEndId != rows[j].endToEndId
  }

  /** Position of the first row carrying correlation id `id`, if any. */
  function IndexOf(rows: seq<Transaction>, id: string): (r: Option<nat>)
    ensures r.Some? ==> r.value < |rows| && rows[r.value].endToEndId == id
    ensures r.Some? ==> forall k :: 0 <= k < r.value ==> rows[k].endToEndId != id
    ensures r.None? <==> forall k :: 0 <= k < |rows| ==> rows[k].endToEndId != id
  {
    if |rows| == 0 then None
    else
      match IndexOf(rows[..|rows| - 1], id)
      case Some(i) => Some(i)
      case None => if rows[|rows| - 1].endToEndId == id then Some(|rows| - 1) else None
  }

  /** `findByEndToEndId`: the row carrying `id`, or nothing. */
  function FindByEndToEndId(rows: seq<Transaction>, id: string): (r: Option<Transaction>)
    ensures r.Some? ==> r.value in rows && r.value.endToEndId == id
    ensures r.None? <==> forall k :: 0 <= k < |rows| ==> rows[k].endToEndId != id
  {
    match IndexOf(rows, id)
    case Some(i) => Some(rows[i])
    case None => None
  }

  /** With unique ids a lookup can only find the one row that carries the id. */
  lemma FindByEndToEndIdUnique(rows: seq<Transaction>, k: nat)
    requires UniqueIds(rows) && k < |rows|
    ensures IndexOf(rows, rows[k].endToEndId) == Some(k)
    ensures FindByEndToEndId(rows, rows[k].endToEndId) == Some(rows[k])
  {
  }

  /** Appending a row leaves every earlier lookup alone and makes the new id findable. */
  lemma IndexOfAppend(rows: seq<Transaction>, t: Transaction, id: string)
    ensures IndexOf(rows + [t], id) ==
      (if IndexOf(rows, id).Some? then IndexOf(rows, id)
       else if t.endToEndId == id then Some(|rows|) else None)
  {
    assert (rows + [t])[..|rows|] == rows;
  }

  /** A table that keeps every earlier row's id in place finds an earlier id where it was. */
  lemma IndexOfKeptPrefix(rows: seq<Transaction>, rows': seq<Transaction>, id: string)
    requires |rows| <= |rows'|
    requires forall k :: 0 <= k < |rows| ==> rows'[k].endToEndId == rows[k].endToEndId
    requires IndexOf(rows, id).Some?
    ensures IndexOf(rows', id) == IndexOf(rows, id)
  {
    var i := IndexOf(rows, id).value;
    assert rows'[i].endToEndId == id;
  }

  /** Rewriting a row without touching its id leaves every lookup where it was. */
  lemma {:induction false} IndexOfUpdate(rows: seq<Transaction>, i: nat, t: Transaction, id: string)
    requires i < |rows| && t.endToEndId == rows[i].endToEndId
    ensures IndexOf(rows[i := t], id) == IndexOf(rows, id)
  {
    if i < |rows| - 1 {
      assert rows[i := t][..|rows| - 1] == rows[..|rows| - 1][i := t];
      IndexOfUpdate(rows[..|rows| - 1], i, t, id);
    } else {
      assert rows[i := t][..|rows| - 1] == rows[..|rows| - 1];
    }
  }

  /**
   * `TransactionService.create`: refuses an entry whose correlation id is already stored,
   * otherwise stores it as given (no check of amount sign, status or kind) and returns it.
   */
  function Create(rows: seq<Transaction>, t: Transaction): (r: Result<(seq<Transaction>, Transaction), Error>)
    ensures r.Err? <==> exists k :: 0 <= k < |rows| && rows[k].endToEndId == t.endToEndId
    ensures r.Err? ==> r.error == TransactionEndToEndIdAlreadyExists
    ensures r.Ok? ==> r.value.1 == t
    ensures r.Ok? ==> |r.value.0| == |rows| + 1 && r.value.0[..|rows|] == rows && r.value.0[|rows|] == t
    ensures r.Ok? && UniqueIds(rows) ==> UniqueIds(r.value.0)
  {
    if FindByEndToEndId(rows, t.endToEndId).Some? then Err(TransactionEndToEndIdAlreadyExists)
    else Ok((rows + [t], t))
  }

  /** Round trip: after a successful create the entry is what a lookup of its id finds. */
  lemma CreateThenFind(rows: seq<Transaction>, t: Transaction)
    requires Create(rows, t).Ok?
    ensures FindByEndToEndId(Create(rows, t).value.0, t.endToEndId) == Some(t)
    ensures forall id :: id != t.endToEndId ==>
      FindByEndToEndId(Create(rows, t).value.0, id) == FindByEndToEndId(rows, id)
  {
    forall id {
      IndexOfAppend(rows, t, id);
    }
  }

  /** `findByWalletId`: the wallet's entries in table order (the empty list when it has none). */
  function FindByWalletId(rows: seq<Transaction>, walletId: string): (r: seq<Transaction>)
    ensures |r| <= |rows|
    ensures forall t :: t in r ==> t.walletId == walletId
    ensures forall t :: multiset(r)[t] == if t.walletId == walletId then multiset(rows)[t] else 0
  {
    if |rows| == 0 then []
    else
      var last := rows[|rows| - 1];
      assert rows == rows[..|rows| - 1] + [last];
      FindByWalletId(rows[..|rows| - 1], walletId) + (if last.walletId == walletId then [last] else [])
  }

  /** What one row adds to a wallet's balance: its amount when it is a confirmed entry of that wallet. */
  function Contribution(t: Transaction, walletId: string): int {
    if t.walletId == walletId && t.status == Confirmed then t.amount else 0
  }

  /** The sum of the wallet's confirmed entries, the quantity its balance must equal. */
  function ConfirmedSum(rows: seq<Transaction>, walletId: string): int {
    if |rows| == 0 then 0
    else ConfirmedSum(rows[..|rows| - 1], walletId) + Contribution(rows[|rows| - 1], walletId)
  }

  lemma ConfirmedSumAppend(rows: seq<Transaction>, t: Transaction, walletId: string)
    ensures ConfirmedSum(rows + [t], walletId) == ConfirmedSum(rows, walletId) + Contribution(t, walletId)
  {
    assert (rows + [t])[..|rows|] == rows;
  }

  /** Rewriting one row changes the sum by exactly the change in that row's contribution. */
  lemma {:induction false} ConfirmedSumUpdate(rows: seq<Transaction>, i: nat, t: Transaction, walletId: string)
    requires i < |rows|
    ensures ConfirmedSum(rows[i := t], walletId)
      == ConfirmedSum(rows, walletId) - Contribution(rows[i], walletId) + Contribution(t, walletId)
  {
    if i < |rows| - 1 {
      assert rows[i := t][..|rows| - 1] == rows[..|rows| - 1][i := t];
      ConfirmedSumUpdate(rows[..|rows| - 1], i, t, walletId);
    } else {
      assert rows[i := t][..|rows| - 1] == rows[..|rows| - 1];
    }
  }

  /** A wallet none of whose rows is in the table has nothing to its name. */
  lemma {:induction false} ConfirmedSumOfStranger(rows: seq<Transaction>, walletId: string)
    requires forall k :: 0 <= k < |rows| ==> rows[k].walletId != walletId
    ensures ConfirmedSum(rows, walletId) == 0
  {
    if |rows| > 0 {
      ConfirmedSumOfStranger(rows[..|rows| - 1], walletId);
    }
  }

  /** A row the historical query adds up: confirmed, of the wallet, created on or after `at`. */
  predicate CountsSince(t: Transaction, walletId: string, at: int) {
    t.walletId == walletId && t.status == Confirmed && t.createdAt >= at
  }

  /** Reference meaning of the historical query: the sum over the rows it selects. */
  function SumSince(rows: seq<Transaction>, walletId: string, at: int): int {
    if |rows| == 0 then 0
    else
      var last := rows[|rows| - 1];
      SumSince(rows[..|rows| - 1], walletId, at) + (if CountsSince(last, walletId, at) then last.amount else 0)
  }

  /** The confirmed movements of the wallet strictly before `at`. */
  function SumBefore(rows: seq<Transaction>, walletId: string, at: int): int {
    if |rows| == 0 then 0
    else
      var last := rows[|rows| - 1];
      SumBefore(rows[..|rows| - 1], walletId, at)
        + (if last.walletId == walletId && last.status == Confirmed && last.createdAt < at then last.amount else 0)
  }

  /**
   * `amountByWalletIdAndDate`: SQL `SUM` over the confirmed entries of the wallet created on
   * or after `at`; absent (SQL NULL) when no row qualifies.
   */
  method AmountByWalletIdAndDate(rows: seq<Transaction>, walletId: string, at: int) returns (r: Option<int>)
    ensures r.None? <==> forall k :: 0 <= k < |rows| ==> !CountsSince(rows[k], walletId, at)
    ensures r.Some? ==> r.value == SumSince(rows, walletId, at)
  {
    var sum := 0;
    var any := false;
    var i := 0;
    while i < |rows|
      invariant 0 <= i <= |rows|
      invariant sum == SumSince(rows[..i], walletId, at)
      invariant any <==> exists k :: 0 <= k < i && CountsSince(rows[k], walletId, at)
    {
      assert rows[..i + 1][..i] == rows[..i];
      if CountsSince(rows[i], walletId, at) {
        sum := sum + rows[i].amount;
        any := true;
      }
      i := i + 1;
    }
    assert rows[..i] == rows;
    r := if any then Some(sum) else None;
  }

  /**
   * Only qualifying rows matter: two tables that agree, row by row, on which rows qualify
   * and on the amounts of those rows give the same sum, whatever their other rows hold.
   */
  lemma {:induction false} SumSinceOnlyQualifyingRows(rows: seq<Transaction>, other: seq<Transaction>, walletId: string, at: int)
    requires |rows| == |other|
    requires forall k :: 0 <= k < |rows| ==>
      (CountsSince(rows[k], walletId, at) <==> CountsSince(other[k], walletId, at))
    requires forall k :: 0 <= k < |rows| && CountsSince(rows[k], walletId, at) ==> rows[k].amount == other[k].amount
    ensures SumSince(rows, walletId, at) == SumSince(other, walletId, at)
  {
    if |rows| > 0 {
      SumSinceOnlyQualifyingRows(rows[..|rows| - 1], other[..|other| - 1], walletId, at);
    }
  }

  /** The query measures movement since `at`: the confirmed total splits at `at` into before and since. */
  lemma {:induction false} SumSplitsAt(rows: seq<Transaction>, walletId: string, at: int)
    ensures SumBefore(rows, walletId, at) + SumSince(rows, walletId, at) == ConfirmedSum(rows, walletId)
  {
    if |rows| > 0 {
      SumSplitsAt(rows[..|rows| - 1], walletId, at);
    }
  }
}
