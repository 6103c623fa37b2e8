/**
 The balance table: one row per user and asset, cash being the row without an asset.
 Each row has an available and a locked pocket, and every change passes a guard.
 */
module Balances {
  import opened Common
  import opened Sums

  type UserId = nat
  type AssetId = nat

  /** A balance row's key; no asset means quote cash. */
  datatype Account = Account(user: UserId, asset: Option<AssetId>)

  datatype Row = Row(available: real, locked: real)

  type Rows = map<Account, Row>

  datatype Change = Credit | Debit

  datatype Direction = AvailableToLocked | LockedToAvailable

  datatype LedgerError =
    | AmountNotPositive
    | BalanceNotFound
    | InsufficientBalance
    | InsufficientAvailable
    | InsufficientLocked

  function Cash(user: UserId): Account {
    Account(user, None)
  }

  function Holding(user: UserId, asset: AssetId): Account {
    Account(user, Some(asset))
  }

  function RowAt(rows: Rows, k: Account): Row {
    if k in rows then rows[k] else Row(0.0, 0.0)
  }

  function Locked(rows: Rows, k: Account): real {
    RowAt(rows, k).locked
  }

  function Available(rows: Rows, k: Account): real {
    RowAt(rows, k).available
  }

  ghost predicate NonNegative(rows: Rows) {
    forall k :: k in rows ==> rows[k].available >= 0.0 && rows[k].locked >= 0.0
  }

  /** What a row is worth in one currency: cash or a given asset. */
  function Worth(asset: Option<AssetId>): (Account, Row) -> real {
    (k: Account, row: Row) => if k.asset == asset then row.available + row.locked else 0.0
  }

  /** The whole supply of cash or of an asset held by all users, both pockets. */
  ghost function Total(rows: Rows, asset: Option<AssetId>): real {
    SumMap(rows, Worth(asset))
  }

  lemma TotalPut(rows: Rows, k: Account, row: Row, asset: Option<AssetId>)
    ensures Total(rows[k := row], asset)
         == Total(rows, asset) + Worth(asset)(k, row) - Worth(asset)(k, RowAt(rows, k))
  {
    SumMapPut(rows, k, row, Worth(asset));
  }

  function Updated(rows: Rows, k: Account, amount: real, change: Change, useAvailable: bool, useLocked: bool)
    : Result<Rows, LedgerError>
  {
    if amount <= 0.0 then Err(AmountNotPositive)
    else if k !in rows && change.Debit? then Err(InsufficientBalance)
    else
      var row := RowAt(rows, k);
      var onAvailable := if useAvailable then amount else 0.0;
      var onLocked := if useLocked then amount else 0.0;
      match change
      case Credit => Ok(rows[k := Row(row.available + onAvailable, row.locked + onLocked)])
      case Debit =>
        if useAvailable && row.available < amount then Err(InsufficientAvailable)
        else if useLocked && row.locked < amount then Err(InsufficientLocked)
        else Ok(rows[k := Row(row.available - onAvailable, row.locked - onLocked)])
  }

  function Transferred(rows: Rows, k: Account, amount: real, direction: Direction): Result<Rows, LedgerError> {
    if amount <= 0.0 then Err(AmountNotPositive)
    else if k !in rows then Err(BalanceNotFound)
    else
      var row := rows[k];
      match direction
      case AvailableToLocked =>
        if row.available < amount then Err(InsufficientAvailable)
        else Ok(rows[k := Row(row.available - amount, row.locked + amount)])
      case LockedToAvailable =>
        if row.locked < amount then Err(InsufficientLocked)
        else Ok(rows[k := Row(row.available + amount, row.locked - amount)])
  }

  /** Moving money between a user's own pockets succeeds exactly when the source pocket covers it, and
      neither creates money nor touches anyone else. */
  lemma TransferEffect(rows: Rows, k: Account, amount: real, direction: Direction)
    requires NonNegative(rows)
    ensures Transferred(rows, k, amount, direction).Ok?
       <==> 0.0 < amount <= (if direction.AvailableToLocked? then Available(rows, k) else Locked(rows, k))
    ensures Transferred(rows, k, amount, direction).Ok? ==>
              var after := Transferred(rows, k, amount, direction).value;
              var moved := if direction.AvailableToLocked? then amount else -amount;
              && NonNegative(after)
              && after.Keys == rows.Keys
              && (forall j :: Locked(after, j) == Locked(rows, j) + if j == k then moved else 0.0)
              && (forall j :: Available(after, j) == Available(rows, j) - if j == k then moved else 0.0)
              && (forall a :: Total(after, a) == Total(rows, a))
  {
    if Transferred(rows, k, amount, direction).Ok? {
      var after := Transferred(rows, k, amount, direction).value;
      forall a
        ensures Total(after, a) == Total(rows, a)
      {
        TotalPut(rows, k, after[k], a);
      }
    }
  }

  /** A credit or debit of the locked pocket alone. */
  lemma LockedChangeEffect(rows: Rows, k: Account, amount: real, change: Change)
    requires NonNegative(rows)
    ensures Updated(rows, k, amount, change, false, true).Ok?
       <==> 0.0 < amount && (change.Debit? ==> amount <= Locked(rows, k))
    ensures Updated(rows, k, amount, change, false, true).Ok? ==>
              var after := Updated(rows, k, amount, change, false, true).value;
              var delta := if change.Credit? then amount else -amount;
              && NonNegative(after)
              && (forall j :: Locked(after, j) == Locked(rows, j) + if j == k then delta else 0.0)
              && (forall j :: Available(after, j) == Available(rows, j))
              && (forall a :: Total(after, a) == Total(rows, a) + if a == k.asset then delta else 0.0)
  {
    if Updated(rows, k, amount, change, false, true).Ok? {
      var after := Updated(rows, k, amount, change, false, true).value;
      forall a {
        TotalPut(rows, k, after[k], a);
      }
    }
  }

  /** A credit of the available pocket, the default of updateBalance: it needs a positive amount and nothing else. */
  lemma AvailableCreditEffect(rows: Rows, k: Account, amount: real)
    requires NonNegative(rows)
    ensures Updated(rows, k, amount, Credit, true, false).Ok? <==> 0.0 < amount
    ensures 0.0 < amount ==>
              var after := Updated(rows, k, amount, Credit, true, false).value;
              && NonNegative(after)
              && (forall j :: Locked(after, j) == Locked(rows, j))
              && (forall j :: Available(after, j) == Available(rows, j) + if j == k then amount else 0.0)
              && (forall a :: Total(after, a) == Total(rows, a) + if a == k.asset then amount else 0.0)
  {
    if 0.0 < amount {
      var after := Updated(rows, k, amount, Credit, true, false).value;
      forall a {
        TotalPut(rows, k, after[k], a);
      }
    }
  }

  /** Any change of either or both pockets: a debit needs a row and enough in each pocket it uses, a credit needs
      neither; both move exactly the pockets they use, of that row alone. */
  lemma ChangeEffect(rows: Rows, k: Account, amount: real, change: Change, useAvailable: bool, useLocked: bool)
    ensures Updated(rows, k, amount, change, useAvailable, useLocked).Ok? <==>
              && 0.0 < amount
              && (change == Debit ==>
                    && k in rows
                    && (useAvailable ==> amount <= rows[k].available)
                    && (useLocked ==> amount <= rows[k].locked))
    ensures Updated(rows, k, amount, change, useAvailable, useLocked).Ok? ==>
              var after := Updated(rows, k, amount, change, useAvailable, useLocked).value;
              var delta := if change == Credit then amount else -amount;
              && after.Keys == rows.Keys + {k}
              && Available(after, k) == Available(rows, k) + (if useAvailable then delta else 0.0)
              && Locked(after, k) == Locked(rows, k) + (if useLocked then delta else 0.0)
              && forall j :: j in rows && j != k ==> after[j] == rows[j]
  {
  }

  /** Why a change is refused. */
  lemma ChangeRefused(rows: Rows, k: Account, amount: real, change: Change, useAvailable: bool, useLocked: bool)
    requires Updated(rows, k, amount, change, useAvailable, useLocked).Err?
    ensures Updated(rows, k, amount, change, useAvailable, useLocked).error
         == if amount <= 0.0 then AmountNotPositive
            else if k !in rows then InsufficientBalance
            else if useAvailable && amount > rows[k].available then InsufficientAvailable
            else InsufficientLocked
  {
  }

  /** Why a transfer is refused. */
  lemma TransferRefused(rows: Rows, k: Account, amount: real, direction: Direction)
    requires Transferred(rows, k, amount, direction).Err?
    ensures Transferred(rows, k, amount, direction).error
         == if amount <= 0.0 then AmountNotPositive
            else if k !in rows then BalanceNotFound
            else if direction == AvailableToLocked then InsufficientAvailable
            else InsufficientLocked
  {
  }

  /** The service object over the stored table. */
  class BalancesService {
    var rows: Rows

    constructor (rows: Rows)
      ensures this.rows == rows
    {
      this.rows := rows;
    }

    method UpdateBalance(k: Account, amount: real, change: Change, useAvailable: bool, useLocked: bool)
      returns (r: Result<(), LedgerError>)
      modifies this
      ensures match Updated(old(rows), k, amount, change, useAvailable, useLocked)
              case Ok(after) => r.Ok? && rows == after
              case Err(e) => r == Err(e) && rows == old(rows)
    {
      if amount <= 0.0 {
        return Err(AmountNotPositive);
      }
      var row := Row(0.0, 0.0);
      if k in rows {
        row := rows[k];
      } else if change.Debit? {
        return Err(InsufficientBalance);
      }
      var available, locked := row.available, row.locked;
      if change.Credit? {
        if useAvailable {
          available := available + amount;
        }
        if useLocked {
          locked := locked + amount;
        }
      } else {
        if useAvailable {
          if row.available < amount {
            return Err(InsufficientAvailable);
          }
          available := available - amount;
        }
        if useLocked {
          if row.locked < amount {
            return Err(InsufficientLocked);
          }
          locked := locked - amount;
        }
      }
      rows := rows[k := Row(available, locked)];
      return Ok(());
    }

    method Transfer(k: Account, amount: real, direction: Direction) returns (r: Result<(), LedgerError>)
      modifies this
      ensures match Transferred(old(rows), k, amount, direction)
              case Ok(after) => r.Ok? && rows == after
              case Err(e) => r == Err(e) && rows == old(rows)
    {
      if amount <= 0.0 {
        return Err(AmountNotPositive);
      }
      if k !in rows {
        return Err(BalanceNotFound);
      }
      var row := rows[k];
      if direction.AvailableToLocked? {
        if row.available < amount {
          return Err(InsufficientAvailable);
        }
        rows := rows[k := Row(row.available - amount, row.locked + amount)];
      } else {
        if row.locked < amount {
          return Err(InsufficientLocked);
        }
        rows := rows[k := Row(row.available + amount, row.locked - amount)];
      }
      return Ok(());
    }
  }
}
