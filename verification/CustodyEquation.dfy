/** Where all the money is: the sum of a whole ledger, asset by asset, in every reachable state. */
module CustodyEquation {
  import opened Tables
  import opened LedgerService
  import opened WalletFees
  import opened Custody
  import opened CustodyRuns
  import EscrowService
  import FeeService
  import Rounding
  import Withdrawals

  function TableSize(s: Snapshot, table: RefType): nat {
    match table
    case DepositRef => |s.deposits|
    case EscrowRef => |s.escrows|
    case WithdrawalRef => |s.withdrawals|
  }

  function RowAsset(s: Snapshot, table: RefType, i: nat): Asset
    requires i < TableSize(s, table)
  {
    match table
    case DepositRef => s.deposits[i].asset
    case EscrowRef => s.escrows[i].asset
    case WithdrawalRef => s.withdrawals[i].asset
  }

  function Footprint(s: Snapshot, table: RefType, i: nat): real
    requires i < TableSize(s, table)
  {
    match table
    case DepositRef => DepositFootprint(s.deposits[i])
    case EscrowRef => EscrowFootprint(s, i)
    case WithdrawalRef => WithdrawalFootprint(s, i)
  }

  /** The footprints of the first n rows that are kept in the asset. */
  function TableTotal(s: Snapshot, asset: Asset, table: RefType, n: nat): real
    requires n <= TableSize(s, table)
  {
    if n == 0 then 0.0
    else TableTotal(s, asset, table, n - 1) + if RowAsset(s, table, n - 1) == asset
      then Footprint(s, table, n - 1) else 0.0
  }

  lemma RowSum(chain: string -> Sighting, s: Snapshot, table: RefType, i: nat)
    requires Inv(chain, s) && i < TableSize(s, table)
    ensures Sum(OfRow(table, i), s.ledger) == Footprint(s, table, i)
  {
    hide DepositFootprint, EscrowFootprint, WithdrawalFootprint;
    match table {
      case DepositRef => assert DepositOk(chain, s, i);
      case EscrowRef => assert EscrowOk(s, i);
      case WithdrawalRef => assert WithdrawalOk(s, i);
    }
  }

  lemma EntryAsset(s: Snapshot, table: RefType, i: nat)
    requires LedgerOk(s) && i < TableSize(s, table)
    ensures forall k :: 0 <= k < |s.ledger| && s.ledger[k].refType == table && s.ledger[k].refId == i ==>
              s.ledger[k].asset == RowAsset(s, table, i)
  {
    assert forall k :: 0 <= k < |s.ledger| ==> EntryOk(s, s.ledger[k]);
  }

  lemma {:induction false} TableSum(chain: string -> Sighting, s: Snapshot, asset: Asset, table: RefType,
                                    n: nat)
    requires Inv(chain, s) && n <= TableSize(s, table)
    ensures Sum(OfTable(asset, table, n), s.ledger) == TableTotal(s, asset, table, n)
  {
    hide Inv, Footprint;
    if n == 0 {
      SumNone(OfTable(asset, table, 0), s.ledger);
    } else {
      TableSum(chain, s, asset, table, n - 1);
      RowSum(chain, s, table, n - 1);
      LedgerFine(chain, s);
      EntryAsset(s, table, n - 1);
      var nothing := OfTable(asset, table, 0);
      SumNone(nothing, s.ledger);
      var last := if RowAsset(s, table, n - 1) == asset then OfRow(table, n - 1) else nothing;
      SumSplit(OfTable(asset, table, n), OfTable(asset, table, n - 1), last, nothing, s.ledger);
    }
  }

  lemma LedgerFine(chain: string -> Sighting, s: Snapshot)
    requires Inv(chain, s)
    ensures LedgerOk(s) && EscrowsOk(s) && WithdrawalsOk(s) && DepositsOk(chain, s) && NoUncheckedDebit(s.ledger)
  {
  }

  lemma AssetSum(chain: string -> Sighting, s: Snapshot, asset: Asset)
    requires Inv(chain, s)
    ensures Sum(OfAsset(asset), s.ledger) ==
            TableTotal(s, asset, DepositRef, |s.deposits|) + TableTotal(s, asset, EscrowRef, |s.escrows|) +
            TableTotal(s, asset, WithdrawalRef, |s.withdrawals|)
  {
    hide Inv;
    LedgerFine(chain, s);
    TableSum(chain, s, asset, DepositRef, |s.deposits|);
    TableSum(chain, s, asset, EscrowRef, |s.escrows|);
    TableSum(chain, s, asset, WithdrawalRef, |s.withdrawals|);
    hide TableTotal;
    assert forall k :: 0 <= k < |s.ledger| ==> EntryOk(s, s.ledger[k]);
    SumSplit(OfAsset(asset), OfTable(asset, DepositRef, |s.deposits|), OfTable(asset, EscrowRef, |s.escrows|),
             OfTable(asset, WithdrawalRef, |s.withdrawals|), s.ledger);
  }

  // ----- escrows: open locks and rounding

  /** What the lock table still holds back for the first n escrows. */
  function OpenLocks(s: Snapshot, asset: Asset, n: nat): real {
    if n == 0 then 0.0
    else
      OpenLocks(s, asset, n - 1) +
      if n - 1 in s.locks && s.locks[n - 1].asset == asset && s.locks[n - 1].status == Locked then s.locks[n - 1].amount
        else 0.0
  }

  /** Escrows that ended with a payment to the seller. */
  predicate PaidOut(s: Snapshot, e: nat)
    requires e < |s.escrows|
  {
    s.escrows[e].status == Completed && !Outcome(s, e).RefundBuyer?
  }

  function PaidOuts(s: Snapshot, asset: Asset, n: nat): nat
    requires n <= |s.escrows|
  {
    if n == 0 then 0
    else PaidOuts(s, asset, n - 1) + if s.escrows[n - 1].asset == asset && PaidOut(s, n - 1) then 1 else 0
  }

  lemma DriftSmall(paid: real)
    ensures -0.005 <= PayoutDrift(paid) <= 0.005
    ensures PayoutDrift(paid) == 0.0 <==> Rounding.OnGrid(paid, 0.01)
  {
    Rounding.RoundWithin(paid, 0.01);
    if Rounding.OnGrid(paid, 0.01) {
      Rounding.RoundOnGrid(paid, 0.01);
    }
  }

  /** A closed escrow leaves rounding behind only if it was paid out, and then at most half a cent. */
  lemma EscrowLeaves(s: Snapshot, e: nat)
    requires e < |s.escrows| && EscrowOk(s, e)
    ensures var row := s.escrows[e];
            && (OpenStatus(row.status) ==> EscrowFootprint(s, e) == -row.amount)
            && (!OpenStatus(row.status) && !PaidOut(s, e) ==> EscrowFootprint(s, e) == 0.0)
            && (PaidOut(s, e) ==> -0.005 <= EscrowFootprint(s, e) <= 0.005)
  {
    hide FeeService.Money, PayoutDrift;
    DriftSmall(s.escrows[e].amount);
    match Outcome(s, e) {
      case ReleaseSeller =>
      case RefundBuyer =>
      case Split(pct) => DriftSmall(EscrowService.SellerPart(s.escrows[e].amount, pct));
    }
  }

  /** Off by at most half a cent for each payout. */
  predicate Within(total: real, payouts: nat) {
    -0.005 * payouts as real <= total <= 0.005 * payouts as real
  }

  /** One more escrow moves the total by what it leaves behind, and the slack by half a cent if it was paid out. */
  lemma WithinStep(total: real, payouts: nat, left: real, counts: bool)
    requires Within(total, payouts) && if counts then -0.005 <= left <= 0.005 else left == 0.0
    ensures Within(total + left, payouts + if counts then 1 else 0)
  {
  }

  lemma {:induction false} EscrowTotal(s: Snapshot, asset: Asset, n: nat)
    requires EscrowsOk(s) && n <= |s.escrows|
    ensures Within(TableTotal(s, asset, EscrowRef, n) + OpenLocks(s, asset, n), PaidOuts(s, asset, n))
  {
    if n > 0 {
      EscrowTotal(s, asset, n - 1);
      LockOf(s, n - 1);
      hide EscrowsOk, EscrowFootprint, Within, PaidOut;
      var counts := s.escrows[n - 1].asset == asset && PaidOut(s, n - 1);
      WithinStep(TableTotal(s, asset, EscrowRef, n - 1) + OpenLocks(s, asset, n - 1), PaidOuts(s, asset, n - 1),
                 if counts then EscrowFootprint(s, n - 1) else 0.0, counts);
    }
  }

  lemma LockOf(s: Snapshot, e: nat)
    requires EscrowsOk(s) && e < |s.escrows|
    ensures e in s.locks && s.locks[e].asset == s.escrows[e].asset
    ensures s.locks[e].status == Locked ==> EscrowFootprint(s, e) == -s.locks[e].amount && !PaidOut(s, e)
    ensures s.locks[e].status == Released && !PaidOut(s, e) ==> EscrowFootprint(s, e) == 0.0
    ensures PaidOut(s, e) ==> -0.005 <= EscrowFootprint(s, e) <= 0.005
  {
    hide FeeService.Money;
    assert EscrowOk(s, e);
    EscrowLeaves(s, e);
  }

  /**
   The custody equation: the ledger of an asset holds the credited deposits minus the open escrow locks plus the
   footprints of the withdrawals, off by at most half a cent for each escrow that was paid out.
   */
  ghost predicate Balanced(s: Snapshot, asset: Asset) {
    var expected := TableTotal(s, asset, DepositRef, |s.deposits|) - OpenLocks(s, asset, |s.escrows|) +
                    TableTotal(s, asset, WithdrawalRef, |s.withdrawals|);
    var slack := 0.005 * PaidOuts(s, asset, |s.escrows|) as real;
    -slack <= Sum(OfAsset(asset), s.ledger) - expected <= slack
  }

  lemma InvBalances(chain: string -> Sighting, s: Snapshot, asset: Asset)
    requires Inv(chain, s)
    ensures Balanced(s, asset)
  {
    hide Inv, TableTotal;
    LedgerFine(chain, s);
    AssetSum(chain, s, asset);
    EscrowTotal(s, asset, |s.escrows|);
  }

  /** The custody equation holds in every state a run can reach. */
  lemma CustodyHolds(chain: string -> Sighting, s: Snapshot, asset: Asset)
    requires Reachable(chain, s)
    ensures Balanced(s, asset)
  {
    hide Inv, Balanced, Reachable;
    ReachableInv(chain, s);
    InvBalances(chain, s, asset);
  }

  /** Entry by entry the escrows account for: what one escrow's entries add up to in any reachable state. */
  lemma EscrowConserves(chain: string -> Sighting, s: Snapshot, e: nat)
    requires Reachable(chain, s) && e < |s.escrows|
    ensures var row, total := s.escrows[e], Sum(OfRow(EscrowRef, e), s.ledger);
            && (total == -row.amount < 0.0 || -0.005 <= total <= 0.005)
            && (OpenStatus(row.status) ==> total == -row.amount)
            && (row.status == Cancelled || (row.status == Completed && Outcome(s, e).RefundBuyer?) ==> total == 0.0)
            && (row.status == Completed && Outcome(s, e).ReleaseSeller? ==>
                  total == FeeService.Money(row.amount) - row.amount &&
                    (total == 0.0 <==> Rounding.OnGrid(row.amount, 0.01)))
            && (row.status == Completed && Outcome(s, e).Split? ==>
                  var part := EscrowService.SellerPart(row.amount, Outcome(s, e).sellerPercent);
                  total == FeeService.Money(part) - part && (total == 0.0 <==> Rounding.OnGrid(part, 0.01)))
  {
    hide Inv, Reachable, FeeService.Money;
    ReachableInv(chain, s);
    LedgerFine(chain, s);
    assert EscrowOk(s, e);
    EscrowLeaves(s, e);
    DriftSmall(s.escrows[e].amount);
    if s.escrows[e].status == Completed && Outcome(s, e).Split? {
      DriftSmall(EscrowService.SellerPart(s.escrows[e].amount, Outcome(s, e).sellerPercent));
    }
  }

  // ----- withdrawals

  /** What was reserved for a row is its amount and fees, rounded to the asset grid. */
  lemma ReservedWithin(s: Snapshot, w: nat)
    requires w < |s.withdrawals| && WithdrawalOk(s, w)
    ensures var row := s.withdrawals[w];
            var off := Withdrawals.Reserved(row) - Withdrawals.ReleaseTotal(row);
            && -Quantum(row.asset) / 2.0 <= off <= Quantum(row.asset) / 2.0
            && (off == 0.0 <==> Exact(row.asset, row.amount))
  {
    hide QuantizeAsset, Exact, WithdrawalFootprint, Quantum;
    var row := s.withdrawals[w];
    ExactSum(row.asset, row.platformFee, row.networkFee);
    assert Withdrawals.ReleaseTotal(row) == row.amount + (row.platformFee + row.networkFee);
    RoundedSum(row.asset, row.amount, row.platformFee + row.networkFee);
  }

  /** What one withdrawal costs in the end, in any reachable state and whatever settings it was requested under. */
  lemma WithdrawalConserves(chain: string -> Sighting, s: Snapshot, w: nat)
    requires Reachable(chain, s) && w < |s.withdrawals|
    ensures var row, total := s.withdrawals[w], Sum(OfRow(WithdrawalRef, w), s.ledger);
            var half := Quantum(row.asset) / 2.0;
            var fee := if Withdrawals.FeeBooked(s, w) then row.platformFee else 0.0;
            var network := if row.settled then row.networkFee else 0.0;
            var reserved := row.amount + row.platformFee + row.networkFee;
            && (row.status == Confirmed ==>
                -half <= total + row.amount <= half && (total == -row.amount <==> Exact(row.asset, row.amount)))
            && (row.status == Failed ==>
                -half <= total - fee - network <= half && (total == fee + network <==> Exact(row.asset, row.amount)))
            && (Withdrawals.InFlight(row.status) ==>
                && -half <= total - (fee + network - reserved) <= half
                && (total == fee + network - reserved <==> Exact(row.asset, row.amount)))
  {
    hide Inv, Reachable, Exact, Withdrawals.Reserved, Withdrawals.FeeBooked, Quantum;
    ReachableInv(chain, s);
    LedgerFine(chain, s);
    assert WithdrawalOk(s, w);
    ReservedWithin(s, w);
  }
}
