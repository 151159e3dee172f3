/** Every operation keeps the custody invariant. */
module CustodySteps {
  import opened Tables
  import opened LedgerService
  import opened WalletFees
  import opened Custody
  import Deposits
  import EscrowLocks
  import EscrowService
  import FeeService
  import Rounding

  // ----- balances

  lemma BalanceSplit(user: int, asset: Asset, ledger: seq<Entry>)
    ensures Sum(OfUser(user, asset), ledger) ==
            Sum(OfUserChecked(user, asset), ledger) + Sum(OfUserOverage(user, asset), ledger)
  {
    var nothing := OfTable(asset, DepositRef, 0);
    SumSplit(OfUser(user, asset), OfUserChecked(user, asset), OfUserOverage(user, asset), nothing, ledger);
    SumNone(nothing, ledger);
  }

  /** Credits to users, and debits that are network-fee adjustments. */
  predicate Unchecked(es: seq<Entry>) {
    forall i :: 0 <= i < |es| && es[i].account.User? ==>
      if es[i].entryType == WITHDRAWAL_NETWORK_FEE_ADJUSTMENT then es[i].amount <= 0.0 else es[i].amount >= 0.0
  }

  lemma {:induction false} UncheckedSums(es: seq<Entry>, user: int, asset: Asset)
    requires Unchecked(es)
    ensures Sum(OfUserChecked(user, asset), es) >= 0.0 && Sum(OfUserOverage(user, asset), es) <= 0.0
  {
    if es != [] {
      var n := |es| - 1;
      assert Unchecked(es[..n]);
      UncheckedSums(es[..n], user, asset);
      assert es[n].account.User? ==>
               if es[n].entryType == WITHDRAWAL_NETWORK_FEE_ADJUSTMENT then es[n].amount <= 0.0
                 else es[n].amount >= 0.0;
    }
  }

  lemma UncheckedAppend(ledger: seq<Entry>, es: seq<Entry>)
    requires NoUncheckedDebit(ledger) && Unchecked(es)
    ensures NoUncheckedDebit(ledger + es)
  {
    forall u: int, a: Asset
      ensures Sum(OfUserChecked(u, a), ledger + es) >= 0.0 && Sum(OfUserOverage(u, a), ledger + es) <= 0.0
    {
      SumConcat(OfUserChecked(u, a), ledger, es);
      SumConcat(OfUserOverage(u, a), ledger, es);
      UncheckedSums(es, u, a);
    }
  }

  /** A debit that was checked against the balance keeps the checked part non-negative. */
  lemma CheckedDebit(ledger: seq<Entry>, e: Entry)
    requires NoUncheckedDebit(ledger)
    requires e.account.User? && e.entryType != WITHDRAWAL_NETWORK_FEE_ADJUSTMENT
    requires Sum(OfUser(e.account.id, e.asset), ledger) + e.amount >= 0.0
    ensures NoUncheckedDebit(ledger + [e])
  {
    forall u: int, a: Asset
      ensures Sum(OfUserChecked(u, a), ledger + [e]) >= 0.0 && Sum(OfUserOverage(u, a), ledger + [e]) <= 0.0
    {
      SumConcat(OfUserChecked(u, a), ledger, [e]);
      SumConcat(OfUserOverage(u, a), ledger, [e]);
      SumFew(OfUserChecked(u, a), [e]);
      SumFew(OfUserOverage(u, a), [e]);
      BalanceSplit(u, a, ledger);
    }
  }

  // ----- frames

  /** Entries that all belong to one row, in that row's asset. */
  predicate BookedFor(es: seq<Entry>, refType: RefType, refId: nat, asset: Asset) {
    forall i :: 0 <= i < |es| ==> es[i].refType == refType && es[i].refId == refId && es[i].asset == asset
  }

  ghost predicate SameDeposits(s: Snapshot, t: Snapshot, touched: Option<nat>) {
    && |s.deposits| <= |t.deposits|
    && (forall d: nat :: d < |t.deposits| && touched != Some(d) ==> d < |s.deposits| && t.deposits[d] == s.deposits[d])
    && (forall d: nat :: d < |s.deposits| ==>
        t.deposits[d].asset == s.deposits[d].asset && t.deposits[d].uniqueKey == s.deposits[d].uniqueKey)
  }

  ghost predicate SameEscrows(s: Snapshot, t: Snapshot, touched: Option<nat>) {
    && |s.escrows| <= |t.escrows|
    && (forall e: nat :: e < |t.escrows| && touched != Some(e) ==>
          && e < |s.escrows| && t.escrows[e] == s.escrows[e]
          && e in s.locks && e in t.locks && t.locks[e] == s.locks[e]
          && DisputesOf(t.disputes, e) == DisputesOf(s.disputes, e))
    && (forall e: nat :: e < |s.escrows| ==> t.escrows[e].asset == s.escrows[e].asset)
    && (forall e: nat :: e in t.locks ==> e < |t.escrows|)
    && (forall i :: 0 <= i < |t.disputes| ==> t.disputes[i].escrowId < |t.escrows|)
  }

  ghost predicate SameWithdrawals(s: Snapshot, t: Snapshot, touched: Option<nat>) {
    && |s.withdrawals| <= |t.withdrawals|
    && (forall w: nat :: w < |t.withdrawals| && touched != Some(w) ==>
        w < |s.withdrawals| && t.withdrawals[w] == s.withdrawals[w])
    && (forall w: nat :: w < |s.withdrawals| ==> t.withdrawals[w].asset == s.withdrawals[w].asset)
  }

  function Touched(refType: RefType, refId: nat, table: RefType): Option<nat> {
    if refType == table then Some(refId) else None
  }

  /** The step books entries for one row, in that row's asset, and changes only that row. */
  ghost predicate OneRow(s: Snapshot, t: Snapshot, refType: RefType, refId: nat, es: seq<Entry>) {
    && t.ledger == s.ledger + es
    && SameDeposits(s, t, Touched(refType, refId, DepositRef))
    && SameEscrows(s, t, Touched(refType, refId, EscrowRef))
    && SameWithdrawals(s, t, Touched(refType, refId, WithdrawalRef))
    && (refType == DepositRef ==> refId < |t.deposits| && BookedFor(es, refType, refId, t.deposits[refId].asset))
    && (refType == EscrowRef ==> refId < |t.escrows| && BookedFor(es, refType, refId, t.escrows[refId].asset))
    && (refType == WithdrawalRef ==>
        refId < |t.withdrawals| && BookedFor(es, refType, refId, t.withdrawals[refId].asset))
  }

  lemma EntriesKept(s: Snapshot, t: Snapshot, refType: RefType, refId: nat, es: seq<Entry>)
    requires LedgerOk(s)
    requires OneRow(s, t, refType, refId, es)
    ensures LedgerOk(t)
  {
    forall i | 0 <= i < |t.ledger|
      ensures EntryOk(t, t.ledger[i])
    {
      if i < |s.ledger| {
        assert t.ledger[i] == s.ledger[i];
        assert EntryOk(s, s.ledger[i]);
      } else {
        assert t.ledger[i] == es[i - |s.ledger|];
      }
    }
  }

  lemma OtherDepositsKept(chain: string -> Sighting, s: Snapshot, t: Snapshot, refType: RefType, refId: nat,
                          es: seq<Entry>)
    requires DepositsOk(chain, s)
    requires OneRow(s, t, refType, refId, es)
    requires refType == DepositRef ==> DepositOk(chain, t, refId)
    ensures DepositsOk(chain, t)
  {
    hide QuantizeAsset;
    OtherRowsKeep(s.ledger, es, refType, refId);
    forall d: nat | d < |t.deposits| && Touched(refType, refId, DepositRef) != Some(d)
      ensures DepositOk(chain, t, d)
    {
      assert DepositOk(chain, s, d);
      KeysStayUnique(chain, s, t, refType, refId, d);
    }
  }

  lemma EscrowKept(s: Snapshot, t: Snapshot, e: nat)
    requires e < |s.escrows| && e < |t.escrows| && EscrowOk(s, e)
    requires t.escrows[e] == s.escrows[e] && e in t.locks && t.locks[e] == s.locks[e]
    requires DisputesOf(t.disputes, e) == DisputesOf(s.disputes, e)
    requires Sum(OfRow(EscrowRef, e), t.ledger) == Sum(OfRow(EscrowRef, e), s.ledger)
    ensures EscrowOk(t, e)
  {
    hide FeeService.Money;
  }

  lemma OtherEscrowsKept(s: Snapshot, t: Snapshot, refType: RefType, refId: nat, es: seq<Entry>)
    requires EscrowsOk(s)
    requires OneRow(s, t, refType, refId, es)
    requires refType == EscrowRef ==> EscrowOk(t, refId)
    ensures EscrowsOk(t)
  {
    hide EscrowFootprint, EscrowOk;
    OtherRowsKeep(s.ledger, es, refType, refId);
    forall e: nat | e < |t.escrows| && Touched(refType, refId, EscrowRef) != Some(e)
      ensures EscrowOk(t, e)
    {
      assert EscrowOk(s, e);
      EscrowKept(s, t, e);
    }
  }

  lemma OtherWithdrawalsKept(s: Snapshot, t: Snapshot, refType: RefType, refId: nat, es: seq<Entry>)
    requires WithdrawalsOk(s)
    requires OneRow(s, t, refType, refId, es)
    requires refType == WithdrawalRef ==> WithdrawalOk(t, refId)
    ensures WithdrawalsOk(t)
  {
    hide QuantizeAsset, Exact;
    OtherRowsKeep(s.ledger, es, refType, refId);
    forall w: nat | w < |t.withdrawals| && Touched(refType, refId, WithdrawalRef) != Some(w)
      ensures WithdrawalOk(t, w)
    {
      assert WithdrawalOk(s, w);
    }
  }

  /** Such a step keeps the invariant as soon as the touched row and the balances are fine. */
  lemma OneRowStep(chain: string -> Sighting, s: Snapshot, t: Snapshot, refType: RefType, refId: nat,
                   es: seq<Entry>)
    requires Inv(chain, s)
    requires OneRow(s, t, refType, refId, es)
    requires refType == DepositRef ==> DepositOk(chain, t, refId)
    requires refType == EscrowRef ==> EscrowOk(t, refId)
    requires refType == WithdrawalRef ==> WithdrawalOk(t, refId)
    requires NoUncheckedDebit(t.ledger)
    ensures Inv(chain, t)
  {
    hide LedgerOk, DepositsOk, EscrowsOk, WithdrawalsOk;
    EntriesKept(s, t, refType, refId, es);
    OtherDepositsKept(chain, s, t, refType, refId, es);
    OtherEscrowsKept(s, t, refType, refId, es);
    OtherWithdrawalsKept(s, t, refType, refId, es);
  }

  lemma KeysStayUnique(chain: string -> Sighting, s: Snapshot, t: Snapshot, refType: RefType, refId: nat, d: nat)
    requires DepositsOk(chain, s)
    requires SameDeposits(s, t, Touched(refType, refId, DepositRef))
    requires refType == DepositRef ==> refId < |t.deposits| && DepositOk(chain, t, refId)
    requires d < |t.deposits| && Touched(refType, refId, DepositRef) != Some(d)
    ensures forall c: nat :: c < |t.deposits| && t.deposits[c].uniqueKey == t.deposits[d].uniqueKey ==> c == d
  {
    assert DepositOk(chain, s, d);
    forall c: nat | c < |t.deposits| && t.deposits[c].uniqueKey == t.deposits[d].uniqueKey
      ensures c == d
    {
      if Touched(refType, refId, DepositRef) == Some(c) {
        assert DepositOk(chain, t, c);
      }
    }
  }

  /** Nothing is booked yet for a row that does not exist yet. */
  lemma NothingBooked(s: Snapshot, refType: RefType, refId: nat)
    requires LedgerOk(s)
    requires refId >= match refType {
                        case DepositRef => |s.deposits|
                        case EscrowRef => |s.escrows|
                        case WithdrawalRef => |s.withdrawals|
                      }
    ensures Sum(OfRow(refType, refId), s.ledger) == 0.0
    ensures forall k: EntryType :: Count(OfRowType(refType, refId, k), s.ledger) == 0
    ensures forall a: Account, k: EntryType :: Count(OfAccountRowType(a, refType, refId, k), s.ledger) == 0
  {
    assert forall i :: 0 <= i < |s.ledger| ==> EntryOk(s, s.ledger[i]) && !Selects(OfRow(refType, refId), s.ledger[i]);
    SumNone(OfRow(refType, refId), s.ledger);
    forall k: EntryType ensures Count(OfRowType(refType, refId, k), s.ledger) == 0 {
      CountNone(OfRowType(refType, refId, k), s.ledger);
    }
    forall a: Account, k: EntryType ensures Count(OfAccountRowType(a, refType, refId, k), s.ledger) == 0 {
      CountNone(OfAccountRowType(a, refType, refId, k), s.ledger);
    }
  }

  // ----- deposits

  lemma CreditEntriesSum(user: int, asset: Asset, net: real, fee: real, id: nat)
    requires net >= 0.0
    ensures var es := Deposits.CreditEntries(user, asset, net, fee, id);
            && Sum(OfRow(DepositRef, id), es) == net + (if fee > 0.0 then fee else 0.0)
            && Unchecked(es) && BookedFor(es, DepositRef, id, asset)
  {
    SumFew(OfRow(DepositRef, id), Deposits.CreditEntries(user, asset, net, fee, id));
  }

  /** A crediting call books exactly the quantized gross amount, or nothing when that is not positive. */
  lemma CreditSum(cfg: Settings, user: int, asset: Asset, amount: real, id: nat)
    ensures var gross := QuantizeAsset(asset, amount);
            var es := Deposits.CreditEntries(user, asset, DepositNetCredit(cfg, asset, gross),
                                             DepositPlatformFee(cfg, asset, gross), id);
            && Sum(OfRow(DepositRef, id), es) == (if gross > 0.0 then gross else 0.0)
            && Unchecked(es) && BookedFor(es, DepositRef, id, asset)
  {
    hide QuantizeAsset, DepositNetCredit, DepositPlatformFee, Deposits.CreditEntries, Sum, Unchecked, BookedFor;
    var gross := QuantizeAsset(asset, amount);
    DepositSplit(cfg, asset, amount);
    CreditEntriesSum(user, asset, DepositNetCredit(cfg, asset, gross), DepositPlatformFee(cfg, asset, gross), id);
  }

  lemma CreditOneRow(cfg: Settings, chain: string -> Sighting, s: Snapshot, key: string, confirmations: int,
                     finalized: bool)
    requires DepositsOk(chain, s) && EscrowsOk(s)
    ensures var c := chain(key);
            var t := Deposits.AfterCredit(cfg, s, c.user, c.asset, c.amount, key, confirmations, finalized);
            OneRow(s, t, DepositRef, Deposits.Target(s.deposits, key),
                   Deposits.Booked(cfg, s.deposits, c.user, c.asset, c.amount, key, finalized))
  {
    hide QuantizeAsset, DepositNetCredit, DepositPlatformFee, EscrowsOk, Deposits.CreditEntries, Deposits.Lookup;
    var c, id := chain(key), Deposits.Target(s.deposits, key);
    var t := Deposits.AfterCredit(cfg, s, c.user, c.asset, c.amount, key, confirmations, finalized);
    CreditSum(cfg, c.user, c.asset, c.amount, id);
    EscrowsUntouched(s, t);
    if id < |s.deposits| {
      assert DepositOk(chain, s, id);
    }
    hide DepositsOk;
  }

  lemma CreditRowOk(cfg: Settings, chain: string -> Sighting, s: Snapshot, key: string, confirmations: int,
                    finalized: bool)
    requires LedgerOk(s) && DepositsOk(chain, s)
    ensures var c, id := chain(key), Deposits.Target(s.deposits, key);
            var t := Deposits.AfterCredit(cfg, s, c.user, c.asset, c.amount, key, confirmations, finalized);
            DepositOk(chain, t, id)
  {
    hide QuantizeAsset, DepositNetCredit, DepositPlatformFee, Deposits.CreditEntries, Deposits.Lookup;
    var c, id := chain(key), Deposits.Target(s.deposits, key);
    CreditSum(cfg, c.user, c.asset, c.amount, id);
    SumConcat(OfRow(DepositRef, id), s.ledger,
              Deposits.Booked(cfg, s.deposits, c.user, c.asset, c.amount, key, finalized));
    if id < |s.deposits| {
      assert DepositOk(chain, s, id);
    } else {
      NothingBooked(s, DepositRef, id);
    }
  }

  lemma CreditKeeps(cfg: Settings, chain: string -> Sighting, s: Snapshot, key: string, confirmations: int,
                    finalized: bool)
    requires Inv(chain, s)
    ensures var c := chain(key);
            Inv(chain, Deposits.AfterCredit(cfg, s, c.user, c.asset, c.amount, key, confirmations, finalized))
  {
    hide QuantizeAsset, DepositNetCredit, DepositPlatformFee, EscrowsOk, WithdrawalsOk, DepositsOk, LedgerOk, OneRow;
    var c, id := chain(key), Deposits.Target(s.deposits, key);
    var t := Deposits.AfterCredit(cfg, s, c.user, c.asset, c.amount, key, confirmations, finalized);
    var es := Deposits.Booked(cfg, s.deposits, c.user, c.asset, c.amount, key, finalized);
    CreditOneRow(cfg, chain, s, key, confirmations, finalized);
    CreditRowOk(cfg, chain, s, key, confirmations, finalized);
    CreditSum(cfg, c.user, c.asset, c.amount, id);
    UncheckedAppend(s.ledger, es);
    OneRowStep(chain, s, t, DepositRef, id, es);
  }

  lemma EscrowsUntouched(s: Snapshot, t: Snapshot)
    requires EscrowsOk(s)
    requires t.escrows == s.escrows && t.locks == s.locks && t.disputes == s.disputes
    ensures SameEscrows(s, t, None)
  {
    forall e: nat | e < |s.escrows|
      ensures e in s.locks
    {
      assert EscrowOk(s, e);
    }
  }

  // ----- escrows

  lemma {:induction false} DisputesNone(rows: seq<DisputeRow>, e: nat)
    requires forall i :: 0 <= i < |rows| ==> rows[i].escrowId != e
    ensures DisputesOf(rows, e) == []
  {
    if rows != [] {
      DisputesNone(rows[..|rows| - 1], e);
    }
  }

  lemma DisputesAppend(rows: seq<DisputeRow>, row: DisputeRow, e: nat)
    ensures DisputesOf(rows + [row], e) == DisputesOf(rows, e) + if row.escrowId == e then [row] else []
  {
    assert (rows + [row])[..|rows|] == rows;
  }

  lemma {:induction false} DisputesResolved(rows: seq<DisputeRow>, e: nat, resolution: Resolution, other: nat)
    ensures DisputesOf(EscrowService.Resolved(rows, e, resolution), other) ==
            if other == e then EscrowService.Resolved(DisputesOf(rows, e), e, resolution) else DisputesOf(rows, other)
  {
    if rows != [] {
      var n := |rows| - 1;
      DisputesResolved(rows[..n], e, resolution, other);
      assert EscrowService.Resolved(rows, e, resolution)[..n] == EscrowService.Resolved(rows[..n], e, resolution);
      if other == e && rows[n].escrowId == e {
        var mine, last := DisputesOf(rows[..n], e), EscrowService.Resolved(rows, e, resolution)[n];
        assert EscrowService.Resolved(mine + [rows[n]], e, resolution) ==
               EscrowService.Resolved(mine, e, resolution) + [last];
      }
    }
  }

  /** t is s after booking es for escrow e and moving it to a new status. */
  ghost predicate EscrowMoved(s: Snapshot, t: Snapshot, e: nat, status: EscrowStatus, es: seq<Entry>)
    requires e < |s.escrows| && e in s.locks
  {
    && t == s.(ledger := s.ledger + es, escrows := s.escrows[e := s.escrows[e].(status := status)],
               locks := s.locks[e := s.locks[e].(status := if OpenStatus(status) then Locked else Released)],
               disputes := t.disputes, requests := t.requests)
    && (forall i: nat :: i < |s.escrows| && i != e ==> DisputesOf(t.disputes, i) == DisputesOf(s.disputes, i))
    && (forall i :: 0 <= i < |t.disputes| ==> t.disputes[i].escrowId < |s.escrows|)
    && DisputesFit(DisputesOf(t.disputes, e), status)
    && BookedFor(es, EscrowRef, e, s.escrows[e].asset)
  }

  lemma MovedOneRow(s: Snapshot, t: Snapshot, e: nat, status: EscrowStatus, es: seq<Entry>)
    requires EscrowsOk(s) && e < |s.escrows| && e in s.locks && EscrowMoved(s, t, e, status, es)
    ensures OneRow(s, t, EscrowRef, e, es)
  {
    hide EscrowFootprint;
    forall i: nat | i < |s.escrows| && i != e
      ensures i in s.locks
    {
      assert EscrowOk(s, i);
    }
  }

  lemma MovedRowOk(s: Snapshot, t: Snapshot, e: nat, status: EscrowStatus, es: seq<Entry>)
    requires e < |s.escrows| && EscrowOk(s, e) && EscrowMoved(s, t, e, status, es)
    requires Sum(OfRow(EscrowRef, e), es) == EscrowFootprint(t, e) - EscrowFootprint(s, e)
    ensures EscrowOk(t, e)
  {
    hide EscrowFootprint;
    SumConcat(OfRow(EscrowRef, e), s.ledger, es);
  }

  lemma EscrowStep(chain: string -> Sighting, s: Snapshot, t: Snapshot, e: nat, status: EscrowStatus,
                   es: seq<Entry>)
    requires Inv(chain, s) && e < |s.escrows| && e in s.locks
    requires EscrowMoved(s, t, e, status, es) && Unchecked(es)
    requires Sum(OfRow(EscrowRef, e), es) == EscrowFootprint(t, e) - EscrowFootprint(s, e)
    ensures Inv(chain, t)
  {
    assert EscrowOk(s, e);
    MovedOneRow(s, t, e, status, es);
    MovedRowOk(s, t, e, status, es);
    UncheckedAppend(s.ledger, es);
    hide LedgerOk, DepositsOk, EscrowsOk, WithdrawalsOk, EscrowOk, EscrowFootprint, OneRow;
    OneRowStep(chain, s, t, EscrowRef, e, es);
  }

  /** Steps that only change the status of an undisputed escrow, or its cancellation request. */
  ghost predicate StatusChange(s: Snapshot, t: Snapshot, e: nat, status: EscrowStatus, added: seq<DisputeRow>)
    requires e < |s.escrows|
  {
    && s.escrows[e].status in {EscrowStatus.Pending, Active} && status in {Active, Disputed}
    && t == EscrowService.WithStatus(s, e, status).(disputes := s.disputes + added, requests := t.requests)
    && if status == Disputed then |added| == 1 && added[0].escrowId == e && added[0].resolution.None? else added == []
  }

  lemma StatusMoves(s: Snapshot, t: Snapshot, e: nat, status: EscrowStatus, added: seq<DisputeRow>)
    requires EscrowsOk(s) && e < |s.escrows| && StatusChange(s, t, e, status, added)
    ensures e in s.locks && EscrowMoved(s, t, e, status, [])
    ensures EscrowFootprint(t, e) == EscrowFootprint(s, e)
  {
    assert EscrowOk(s, e);
    assert t.ledger == s.ledger + [];
    assert t.locks == s.locks[e := s.locks[e].(status := Locked)];
    if status == Disputed {
      assert added == [added[0]];
      forall i: nat ensures DisputesOf(t.disputes, i) == DisputesOf(s.disputes, i) + if i == e then added else [] {
        DisputesAppend(s.disputes, added[0], i);
      }
    } else {
      assert t.disputes == s.disputes;
    }
  }

  lemma StatusKeeps(chain: string -> Sighting, s: Snapshot, t: Snapshot, e: nat, status: EscrowStatus,
                    added: seq<DisputeRow>)
    requires Inv(chain, s) && e < |s.escrows| && StatusChange(s, t, e, status, added)
    ensures Inv(chain, t)
  {
    StatusMoves(s, t, e, status, added);
    hide LedgerOk, DepositsOk, EscrowsOk, WithdrawalsOk, EscrowFootprint, EscrowMoved, StatusChange;
    EscrowStep(chain, s, t, e, status, []);
  }

  lemma AcceptKeeps(chain: string -> Sighting, s: Snapshot, e: nat, actor: int)
    requires Inv(chain, s)
    ensures Inv(chain, OrSame(s, EscrowService.AfterAccept(s, e, actor)))
  {
    if EscrowService.AfterAccept(s, e, actor).Ok? {
      StatusKeeps(chain, s, EscrowService.AfterAccept(s, e, actor).value, e, Active, []);
    }
  }

  lemma DisputeKeeps(chain: string -> Sighting, s: Snapshot, e: nat, actor: int)
    requires Inv(chain, s)
    ensures Inv(chain, OrSame(s, EscrowService.AfterDispute(s, e, actor)))
  {
    if EscrowService.AfterDispute(s, e, actor).Ok? {
      StatusKeeps(chain, s, EscrowService.AfterDispute(s, e, actor).value, e, Disputed,
                  [DisputeRow(e, actor, None)]);
    }
  }

  lemma RequestCancelKeeps(chain: string -> Sighting, s: Snapshot, e: nat, actor: int)
    requires Inv(chain, s)
    ensures Inv(chain, OrSame(s, EscrowService.AfterRequestCancel(s, e, actor)))
  {
    var r := EscrowService.AfterRequestCancel(s, e, actor);
    if r.Ok? {
      assert s.escrows == s.escrows[e := s.escrows[e].(status := Active)];
      StatusKeeps(chain, s, r.value, e, Active, []);
    }
  }

  lemma PositiveFactor(x: real, y: real)
    requires y > 0.0 && x * y > 0.0
    ensures x > 0.0
  {
  }

  lemma MinimumIsPositive(cfg: Settings, asset: Asset, amount: real)
    requires GoodSettings(cfg) && EscrowService.MeetsMinimum(cfg, asset, amount)
    ensures amount > 0.0
  {
    if amount * cfg.price(asset) >= EscrowService.MIN_ESCROW_USD {
      PositiveFactor(amount, cfg.price(asset));
    } else {
      PositiveFactor(amount, cfg.fallbackPrice(asset));
    }
  }

  lemma CreateRowOk(s: Snapshot, t: Snapshot, row: EscrowRow, entry: Entry)
    requires LedgerOk(s) && EscrowsOk(s) && row.status == EscrowStatus.Pending && row.amount > 0.0
    requires row.buyer != row.seller
    requires entry == Entry(User(row.buyer), row.asset, -row.amount, ESCROW_LOCK, EscrowRef, |s.escrows|)
    requires t == s.(escrows := s.escrows + [row], ledger := s.ledger + [entry],
                     locks := s.locks[|s.escrows| := LockRow(row.buyer, row.asset, row.amount, Locked)])
    ensures EscrowOk(t, |s.escrows|)
  {
    hide FeeService.Money;
    var e := |s.escrows|;
    NothingBooked(s, EscrowRef, e);
    SumConcat(OfRow(EscrowRef, e), s.ledger, [entry]);
    SumFew(OfRow(EscrowRef, e), [entry]);
    DisputesNone(s.disputes, e);
  }

  lemma CreateOneRow(s: Snapshot, t: Snapshot, row: EscrowRow, entry: Entry)
    requires EscrowsOk(s) && entry.refType == EscrowRef && entry.refId == |s.escrows| && entry.asset == row.asset
    requires t == s.(escrows := s.escrows + [row], ledger := s.ledger + [entry],
                     locks := s.locks[|s.escrows| := LockRow(row.buyer, row.asset, row.amount, Locked)])
    ensures OneRow(s, t, EscrowRef, |s.escrows|, [entry])
  {
    forall i: nat | i < |s.escrows| ensures i in s.locks {
      assert EscrowOk(s, i);
    }
  }

  lemma CreateKeeps(cfg: Settings, chain: string -> Sighting, s: Snapshot, botId: int, buyer: int, seller: int,
                    asset: Asset, amount: real, description: string)
    requires Inv(chain, s) && GoodSettings(cfg)
    ensures Inv(chain,
                OrSame(s, EscrowService.AfterCreate(cfg, s, botId, buyer, seller, asset, amount, description)))
  {
    hide FeeService.CalculateTotalFees, DepositsOk, WithdrawalsOk;
    var r := EscrowService.AfterCreate(cfg, s, botId, buyer, seller, asset, amount, description);
    if r.Ok? {
      MinimumIsPositive(cfg, asset, amount);
      var row := EscrowRow(botId, buyer, seller, asset, amount, EscrowStatus.Pending);
      var entry := Entry(User(buyer), asset, -amount, ESCROW_LOCK, EscrowRef, |s.escrows|);
      CreateRowOk(s, r.value, row, entry);
      CreateOneRow(s, r.value, row, entry);
      CheckedDebit(s.ledger, entry);
      hide EscrowOk, OneRow, LedgerOk, EscrowsOk;
      OneRowStep(chain, s, r.value, EscrowRef, |s.escrows|, [entry]);
    }
  }

  // ----- closing an escrow

  lemma UnlockKeeps(chain: string -> Sighting, s: Snapshot, t: Snapshot, e: nat)
    requires Inv(chain, s) && e < |s.escrows| && OpenStatus(s.escrows[e].status) && s.escrows[e].status != Disputed
    requires EscrowLocks.AfterUnlock(s, e, EscrowLocks.RefundEntries(s, e)).Ok?
    requires var unlocked := EscrowLocks.AfterUnlock(s, e, EscrowLocks.RefundEntries(s, e)).value;
             t == EscrowService.WithStatus(unlocked, e, Cancelled).(requests := t.requests)
    ensures Inv(chain, t)
  {
    assert EscrowOk(s, e);
    var es := EscrowLocks.RefundEntries(s, e);
    SumFew(OfRow(EscrowRef, e), es);
    EscrowStep(chain, s, t, e, Cancelled, es);
  }

  lemma CancelKeeps(chain: string -> Sighting, s: Snapshot, e: nat, actor: int)
    requires Inv(chain, s)
    ensures Inv(chain, OrSame(s, EscrowService.AfterCancel(s, e, actor)))
  {
    var r := EscrowService.AfterCancel(s, e, actor);
    if r.Ok? {
      UnlockKeeps(chain, s, r.value, e);
    }
  }

  lemma RespondCancelKeeps(chain: string -> Sighting, s: Snapshot, e: nat, actor: int, accept: bool)
    requires Inv(chain, s)
    ensures Inv(chain, OrSame(s, EscrowService.AfterRespondCancel(s, e, actor, accept)))
  {
    var r := EscrowService.AfterRespondCancel(s, e, actor, accept);
    if r.Ok? {
      if accept {
        UnlockKeeps(chain, s, r.value, e);
      } else {
        assert s.escrows == s.escrows[e := s.escrows[e].(status := Active)];
        StatusKeeps(chain, s, r.value, e, Active, []);
      }
    }
  }

  /** The three shares of a paid-out amount add up to the amount rounded to cents. */
  lemma PayoutSum(cfg: Settings, paid: real, extraFeePct: real, e: nat, seller: int, owner: int, asset: Asset)
    requires GoodSettings(cfg) && paid >= 0.0
    requires FeeService.CalculateTotalFees(paid, cfg.platformPct, extraFeePct).Ok?
    ensures var f := FeeService.CalculateTotalFees(paid, cfg.platformPct, extraFeePct).value;
            var es := EscrowLocks.ReleaseEntries(e, seller, f.platformFee, f.botFee, f.sellerPayout, owner, asset);
            && Sum(OfRow(EscrowRef, e), es) == FeeService.Money(paid)
            && Unchecked(es) && BookedFor(es, EscrowRef, e, asset)
  {
    hide FeeService.Money, FeeService.CalculateTotalFees;
    FeeService.FeesConserve(paid, cfg.platformPct, extraFeePct);
    var f := FeeService.CalculateTotalFees(paid, cfg.platformPct, extraFeePct).value;
    SumFew(OfRow(EscrowRef, e),
           EscrowLocks.ReleaseEntries(e, seller, f.platformFee, f.botFee, f.sellerPayout, owner, asset));
  }

  lemma ReleaseKeeps(cfg: Settings, chain: string -> Sighting, s: Snapshot, e: nat, actor: int)
    requires Inv(chain, s) && GoodSettings(cfg)
    ensures Inv(chain, OrSame(s, EscrowService.AfterRelease(cfg, s, e, actor)))
  {
    hide FeeService.Money, FeeService.CalculateTotalFees;
    var r := EscrowService.AfterRelease(cfg, s, e, actor);
    if r.Ok? {
      assert EscrowOk(s, e);
      var row := s.escrows[e];
      var tenant := s.tenants[row.botId];
      var f := FeeService.CalculateTotalFees(row.amount, cfg.platformPct, tenant.extraFeePct).value;
      PayoutSum(cfg, row.amount, tenant.extraFeePct, e, row.seller, tenant.owner, row.asset);
      EscrowStep(chain, s, r.value, e, Completed,
                 EscrowLocks.ReleaseEntries(e, row.seller, f.platformFee, f.botFee, f.sellerPayout, tenant.owner,
                                            row.asset));
    }
  }

  lemma SellerPartWithin(amount: real, pct: real)
    requires amount >= 0.0 && 0.0 <= pct <= 100.0
    ensures 0.0 <= EscrowService.SellerPart(amount, pct) <= amount
  {
    assert 0.0 <= amount * pct <= amount * 100.0;
  }

  lemma PartBelow(amount: real, pct: real)
    requires amount > 0.0
    ensures EscrowService.SellerPart(amount, pct) <= amount <==> pct <= 100.0
  {
    if pct > 100.0 {
      assert amount * pct > amount * 100.0;
    } else {
      assert amount * pct <= amount * 100.0;
    }
  }

  /**
   For every split percentage: the four entries give back the locked amount up to the rounding of the seller's part
   unless the fees carry a half cent across zero, and they charge a user exactly when the buyer's part is negative
   or the fees exceed the seller's part by half a cent or more. A percentage in [0,100] rules both out.
   */
  lemma SplitSum(cfg: Settings, s: Snapshot, e: nat, pct: real)
    requires e < |s.escrows| && EscrowService.SplitEntries(cfg, s, e, pct).Ok? && s.locks[e].amount > 0.0
    ensures var es, part :=
            EscrowService.SplitEntries(cfg, s, e, pct).value, EscrowService.SellerPart(s.locks[e].amount, pct);
            var fees := FeeService.CalculateTotalFees(part, cfg.platformPct, s.tenants[s.escrows[e].botId].extraFeePct);
            var rest := part - fees.value.totalFee;
            && BookedFor(es, EscrowRef, e, s.escrows[e].asset)
            && (Sum(OfRow(EscrowRef, e), es) == s.locks[e].amount + PayoutDrift(part) <==>
                  !Rounding.Tie(part, 0.01) || (part >= 0.0 <==> rest >= 0.0))
            && (Unchecked(es) <==> pct <= 100.0 && rest > -0.005)
            && (GoodSettings(cfg) && 0.0 <= pct <= 100.0 ==> part >= 0.0 && rest >= 0.0)
  {
    hide FeeService.Money, FeeService.CalculateTotalFees, EscrowService.SellerPart, Rounding.Tie;
    var part, es := EscrowService.SellerPart(s.locks[e].amount, pct), EscrowService.SplitEntries(cfg, s, e, pct).value;
    if 0.0 <= pct <= 100.0 {
      SellerPartWithin(s.locks[e].amount, pct);
    }
    PartBelow(s.locks[e].amount, pct);
    FeeService.FeesConserve(part, cfg.platformPct, s.tenants[s.escrows[e].botId].extraFeePct);
    SumFew(OfRow(EscrowRef, e), es);
    SplitUnchecked(es);
  }

  /** Of the four split entries the first two are for users. */
  lemma SplitUnchecked(es: seq<Entry>)
    requires |es| == 4 && es[0].account.User? && es[1].account.User? && !es[2].account.User? && !es[3].account.User?
    requires es[0].entryType == ESCROW_RELEASE && es[1].entryType == ADJUSTMENT
    ensures Unchecked(es) <==> es[0].amount >= 0.0 && es[1].amount >= 0.0
  {
  }

  /** What resolving a dispute books, and what it should leave behind. */
  function ResolveEntries(cfg: Settings, s: Snapshot, e: nat, resolution: Resolution): seq<Entry>
    requires e < |s.escrows|
  {
    var row := s.escrows[e];
    match resolution
    case RefundBuyer => EscrowLocks.RefundEntries(s, e)
    case Split(pct) => var es := EscrowService.SplitEntries(cfg, s, e, pct); if es.Ok? then es.value else []
    case ReleaseSeller =>
      if row.botId !in s.tenants then []
      else
        var fees := FeeService.CalculateTotalFees(row.amount, cfg.platformPct, s.tenants[row.botId].extraFeePct);
        if fees.Err? then []
        else EscrowLocks.ReleaseEntries(e, row.seller, fees.value.platformFee, fees.value.botFee,
                                        fees.value.sellerPayout,
                                        s.tenants[row.botId].owner, row.asset)
  }

  function ResolvedFootprint(amount: real, resolution: Resolution): real {
    match resolution
    case ReleaseSeller => PayoutDrift(amount)
    case RefundBuyer => 0.0
    case Split(pct) => PayoutDrift(EscrowService.SellerPart(amount, pct))
  }

  lemma ResolveSum(cfg: Settings, s: Snapshot, e: nat, admin: int, resolution: Resolution)
    requires GoodSettings(cfg) && EscrowService.AfterResolve(cfg, s, e, admin, resolution).Ok?
    requires EscrowOk(s, e) && (resolution.Split? ==> 0.0 <= resolution.sellerPercent <= 100.0)
    ensures var es := ResolveEntries(cfg, s, e, resolution);
            && Sum(OfRow(EscrowRef, e), es) == s.escrows[e].amount + ResolvedFootprint(s.escrows[e].amount, resolution)
            && Unchecked(es) && BookedFor(es, EscrowRef, e, s.escrows[e].asset)
  {
    hide FeeService.Money, FeeService.CalculateTotalFees;
    var row := s.escrows[e];
    match resolution {
      case ReleaseSeller =>
        var tenant := s.tenants[row.botId];
        PayoutSum(cfg, row.amount, tenant.extraFeePct, e, row.seller, tenant.owner, row.asset);
      case RefundBuyer =>
        SumFew(OfRow(EscrowRef, e), EscrowLocks.RefundEntries(s, e));
      case Split(pct) =>
        SplitSum(cfg, s, e, pct);
    }
  }

  lemma ResolveMoves(cfg: Settings, s: Snapshot, e: nat, admin: int, resolution: Resolution)
    requires EscrowsOk(s) && EscrowService.AfterResolve(cfg, s, e, admin, resolution).Ok?
    requires resolution.Split? ==> 0.0 <= resolution.sellerPercent <= 100.0
    requires BookedFor(ResolveEntries(cfg, s, e, resolution), EscrowRef, e, s.escrows[e].asset)
    ensures EscrowOk(s, e)
    ensures EscrowMoved(s, EscrowService.AfterResolve(cfg, s, e, admin, resolution).value, e, Completed,
                        ResolveEntries(cfg, s, e, resolution))
    ensures EscrowFootprint(EscrowService.AfterResolve(cfg, s, e, admin, resolution).value, e) ==
            ResolvedFootprint(s.escrows[e].amount, resolution)
  {
    hide FeeService.Money, FeeService.CalculateTotalFees, EscrowService.SellerPart;
    assert EscrowOk(s, e);
    var t := EscrowService.AfterResolve(cfg, s, e, admin, resolution).value;
    forall i: nat ensures DisputesOf(t.disputes, i) ==
                          if i == e then EscrowService.Resolved(DisputesOf(s.disputes, e), e, resolution)
                            else DisputesOf(s.disputes, i)
    {
      DisputesResolved(s.disputes, e, resolution, i);
    }
    assert t.locks == s.locks[e := s.locks[e].(status := Released)];
    assert forall i :: 0 <= i < |t.disputes| ==> t.disputes[i].escrowId == s.disputes[i].escrowId;
  }

  lemma ResolveKeeps(cfg: Settings, chain: string -> Sighting, s: Snapshot, e: nat, admin: int, resolution: Resolution)
    requires Inv(chain, s) && GoodSettings(cfg)
    requires resolution.Split? ==> 0.0 <= resolution.sellerPercent <= 100.0
    ensures Inv(chain, OrSame(s, EscrowService.AfterResolve(cfg, s, e, admin, resolution)))
  {
    var r := EscrowService.AfterResolve(cfg, s, e, admin, resolution);
    if r.Ok? {
      assert EscrowOk(s, e);
      ResolveSum(cfg, s, e, admin, resolution);
      ResolveMoves(cfg, s, e, admin, resolution);
      hide EscrowService.AfterResolve, ResolveEntries, EscrowMoved, ResolvedFootprint, DisputesOf;
      EscrowStep(chain, s, r.value, e, Completed, ResolveEntries(cfg, s, e, resolution));
    }
  }
}
