/** What each account gets when an answer moves a withdrawal, and what an admin's decision does. */
module AnswerMoney {
  import opened Tables
  import opened ProviderReplies
  import opened LedgerService
  import opened WalletFees
  import opened Custody
  import Answers
  import CustodyRuns
  import EscrowTable
  import SignerRules
  import Withdrawals
  import WithdrawalSteps

  /** The platform has been paid its fee for withdrawal w. */
  predicate FeeTaken(s: Snapshot, w: nat) {
    exists i ::
      && 0 <= i < |s.ledger|
      && s.ledger[i].account == PlatformRevenue && s.ledger[i].refType == WithdrawalRef && s.ledger[i].refId == w
      && s.ledger[i].entryType == WITHDRAWAL_PLATFORM_FEE
  }

  /** The network fee of withdrawal w has been settled with money moving. */
  predicate NetworkTaken(s: Snapshot, w: nat) {
    exists i ::
      && 0 <= i < |s.ledger|
      && s.ledger[i].refType == WithdrawalRef && s.ledger[i].refId == w
      && s.ledger[i].entryType in {WITHDRAWAL_NETWORK_FEE, WITHDRAWAL_NETWORK_FEE_REFUND,
                                   WITHDRAWAL_NETWORK_FEE_ADJUSTMENT}
  }

  /** The platform keeps the actual network fee, or the estimate if none is known; the user gets the rest of it. */
  function NetworkShare(row: WithdrawalRow, actualFee: Option<real>, account: Account): real {
    var actual := if actualFee.Some? then actualFee.value else row.networkFee;
    (if account == PlatformRevenue then actual else 0.0) + EscrowTable.To(account, row.user, row.networkFee - actual)
  }

  /** What an account gets when the row w of s becomes the row now. */
  function Gain(s: Snapshot, w: nat, now: WithdrawalRow, account: Account): real
    requires w < |s.withdrawals|
  {
    var row := s.withdrawals[w];
    if now.status == Failed then EscrowTable.To(account, row.user, row.amount + row.platformFee + row.networkFee)
    else if now.status in {Broadcasted, Confirmed} then
      (if account == PlatformRevenue && !FeeTaken(s, w) then row.platformFee else 0.0) +
      (if !NetworkTaken(s, w) && (now.status == Confirmed || (now.actualFee.Some? && !row.settled))
       then NetworkShare(row, now.actualFee, account) else 0.0)
    else 0.0
  }

  ghost predicate Pays(s: Snapshot, t: Snapshot, w: nat, account: Account, asset: Asset) {
    && w < |s.withdrawals| && w < |t.withdrawals|
    && EscrowTable.Held(t, account, asset) == EscrowTable.Held(s, account, asset) +
       if asset == s.withdrawals[w].asset then Gain(s, w, t.withdrawals[w], account) else 0.0
  }

  // ----- the two bookings

  lemma TakenIff(s: Snapshot, w: nat)
    ensures FeeTaken(s, w) <==> Withdrawals.FeeBooked(s, w)
    ensures NetworkTaken(s, w) <==> Withdrawals.NetworkBooked(s, w) > 0
  {
    CountNone(OfAccountRowType(PlatformRevenue, WithdrawalRef, w, WITHDRAWAL_PLATFORM_FEE), s.ledger);
    CountNone(OfRowType(WithdrawalRef, w, WITHDRAWAL_NETWORK_FEE), s.ledger);
    CountNone(OfRowType(WithdrawalRef, w, WITHDRAWAL_NETWORK_FEE_REFUND), s.ledger);
    CountNone(OfRowType(WithdrawalRef, w, WITHDRAWAL_NETWORK_FEE_ADJUSTMENT), s.ledger);
    hide Count;
  }

  predicate FeesFine(row: WithdrawalRow) {
    row.platformFee >= 0.0 && row.networkFee >= 0.0 && (row.actualFee.Some? ==> row.actualFee.value >= 0.0)
  }

  ghost predicate FeesExact(row: WithdrawalRow) {
    FeesFine(row) && Exact(row.asset, row.networkFee) &&
    (row.actualFee.Some? ==> Exact(row.asset, row.actualFee.value))
  }

  lemma FeeGives(s: Snapshot, w: nat, account: Account, asset: Asset)
    requires w < |s.withdrawals| && FeesFine(s.withdrawals[w])
    ensures var t, row := Withdrawals.AfterBookFee(s, w), s.withdrawals[w];
            && (NetworkTaken(t, w) <==> NetworkTaken(s, w))
            && EscrowTable.Held(t, account, asset) == EscrowTable.Held(s, account, asset) +
               if asset == row.asset && account == PlatformRevenue && !FeeTaken(s, w) then row.platformFee else 0.0
  {
    hide Sum, EscrowTable.Held, Withdrawals.FeeBooked;
    TakenIff(s, w);
    var t, row := Withdrawals.AfterBookFee(s, w), s.withdrawals[w];
    if t != s {
      var entry := Entry(PlatformRevenue, row.asset, row.platformFee, WITHDRAWAL_PLATFORM_FEE, WithdrawalRef, w);
      EscrowTable.HeldAfter(s, t, [entry], account, asset);
      EscrowTable.LockGives(entry, account, asset);
      assert forall i :: 0 <= i < |s.ledger| ==> t.ledger[i] == s.ledger[i];
    }
    hide FeeTaken;
  }

  lemma NetworkGives(row: WithdrawalRow, w: nat, actual: real, account: Account, asset: Asset)
    requires actual >= 0.0
    ensures Sum(OfAccount(account, asset), Withdrawals.NetworkEntries(row, w, actual, actual - row.networkFee)) ==
            if asset == row.asset then NetworkShare(row, Some(actual), account) else 0.0
  {
    hide Sum;
    var q, delta := OfAccount(account, asset), actual - row.networkFee;
    var fee := Entry(PlatformRevenue, row.asset, actual, WITHDRAWAL_NETWORK_FEE, WithdrawalRef, w);
    var kind := if delta < 0.0 then WITHDRAWAL_NETWORK_FEE_REFUND else WITHDRAWAL_NETWORK_FEE_ADJUSTMENT;
    var rest := Entry(User(row.user), row.asset, -delta, kind, WithdrawalRef, w);
    var first, second := if actual > 0.0 then [fee] else [], if delta != 0.0 then [rest] else [];
    assert Withdrawals.NetworkEntries(row, w, actual, delta) == first + second;
    SumConcat(q, first, second);
    NothingGives(account, asset);
    EscrowTable.LockGives(fee, account, asset);
    EscrowTable.LockGives(rest, account, asset);
  }

  lemma NothingGives(account: Account, asset: Asset)
    ensures Sum(OfAccount(account, asset), []) == 0.0
  {
  }

  lemma SettleGives(s: Snapshot, w: nat, force: bool, account: Account, asset: Asset)
    requires w < |s.withdrawals| && FeesExact(s.withdrawals[w])
    ensures var t, row := Withdrawals.AfterSettle(s, w, force), s.withdrawals[w];
            EscrowTable.Held(t, account, asset) == EscrowTable.Held(s, account, asset) +
            if asset == row.asset && !NetworkTaken(s, w) && (force || (row.actualFee.Some? && !row.settled))
            then NetworkShare(row, row.actualFee, account) else 0.0
  {
    hide Sum, EscrowTable.Held, Withdrawals.NetworkBooked, NetworkTaken, QuantizeAsset, Exact;
    hide Withdrawals.NetworkEntries, Withdrawals.ActualFeeOf, Withdrawals.EstimateOf;
    TakenIff(s, w);
    var row, t := s.withdrawals[w], Withdrawals.AfterSettle(s, w, force);
    WithdrawalSteps.SettleAmounts(row);
    var actual := Withdrawals.ActualFeeOf(row);
    NetworkGives(row, w, actual, account, asset);
    if !NetworkTaken(s, w) && (force || (row.actualFee.Some? && !row.settled)) {
      EscrowTable.HeldAfter(s, t, Withdrawals.NetworkEntries(row, w, actual, actual - row.networkFee), account, asset);
    }
  }

  // ----- one answer

  /** Booking the fee, then settling under a new status, pays what the table says. */
  lemma OnChainPays(s: Snapshot, w: nat, status: WithdrawalStatus, txid: string, ref: string, account: Account,
                    asset: Asset)
    requires w < |s.withdrawals| && FeesExact(s.withdrawals[w]) && status in {Broadcasted, Confirmed}
    ensures var booked, row := Withdrawals.AfterBookFee(s, w), s.withdrawals[w];
            && w < |booked.withdrawals|
            && var named := row.(status := status, txid := Some(txid),
                                 providerRef := Withdrawals.Coalesce(row.providerRef, ref));
               Pays(s, Withdrawals.AfterSettle(Withdrawals.WithRow(booked, w, named), w, status == Confirmed), w,
                    account, asset)
  {
    hide FeeTaken, Exact, Withdrawals.AfterBookFee, Withdrawals.AfterSettle, Sum;
    FeeGives(s, w, account, asset);
    WithdrawalSteps.BookFeeKeepsRows(s, w);
    var row := s.withdrawals[w];
    var named := row.(status := status, txid := Some(txid),
                      providerRef := Withdrawals.Coalesce(row.providerRef, ref));
    var relabelled := Withdrawals.WithRow(Withdrawals.AfterBookFee(s, w), w, named);
    assert EscrowTable.Held(relabelled, account, asset) ==
           EscrowTable.Held(Withdrawals.AfterBookFee(s, w), account, asset);
    assert NetworkTaken(relabelled, w) <==> NetworkTaken(s, w);
    Answers.SettledFields(relabelled, w, status == Confirmed);
    SettleGives(relabelled, w, status == Confirmed, account, asset);
    hide NetworkTaken, EscrowTable.Held;
  }

  lemma MarkPays(s: Snapshot, w: nat, mapped: SignerRules.Mapped, ref: string, account: Account, asset: Asset)
    requires w < |s.withdrawals| && FeesExact(s.withdrawals[w])
    requires mapped.Proceed? && mapped.status in {StSubmitted, StBroadcasted, StConfirmed}
    ensures Pays(s, SignerRules.AfterMark(s, w, mapped, ref), w, account, asset)
  {
    if mapped.status == StSubmitted {
      hide FeeTaken, NetworkTaken;
    } else {
      OnChainPays(s, w, if mapped.status == StBroadcasted then Broadcasted else Confirmed, mapped.txid, ref, account,
                  asset);
      hide Pays, Withdrawals.AfterBookFee, Withdrawals.AfterSettle;
    }
  }

  /** A recorded answer changes neither the ledger nor what the row is owed, except for the actual fee. */
  lemma RecordedSame(s: Snapshot, w: nat, result: ExecutionResult)
    requires w < |s.withdrawals| && FeesExact(s.withdrawals[w])
    requires Withdrawals.AfterRecordResult(s, w, s.withdrawals[w].key, result).Ok?
    ensures var t, row := Withdrawals.AfterRecordResult(s, w, s.withdrawals[w].key, result).value, s.withdrawals[w];
            && t.ledger == s.ledger && |t.withdrawals| == |s.withdrawals| && FeesExact(t.withdrawals[w])
            && t.withdrawals[w] == row.(providerRef := t.withdrawals[w].providerRef,
                                        actualFee := t.withdrawals[w].actualFee, key := t.withdrawals[w].key)
  {
    hide QuantizeAsset, Exact, Withdrawals.TxidSane, Withdrawals.RefTaken;
    if result.fee.ActualFee? {
      QuantizeWithin(s.withdrawals[w].asset, result.fee.raw);
    }
  }

  lemma RecordedPays(s: Snapshot, r: Snapshot, t: Snapshot, w: nat, account: Account, asset: Asset)
    requires w < |s.withdrawals| && w < |r.withdrawals| && r.ledger == s.ledger
    requires r.withdrawals[w] == s.withdrawals[w].(providerRef := r.withdrawals[w].providerRef,
                                                   actualFee := r.withdrawals[w].actualFee, key := r.withdrawals[w].key)
    requires Pays(r, t, w, account, asset)
    ensures Pays(s, t, w, account, asset)
  {
    hide Sum;
    assert FeeTaken(r, w) == FeeTaken(s, w) && NetworkTaken(r, w) == NetworkTaken(s, w);
    hide FeeTaken, NetworkTaken;
  }

  lemma AcceptedPays(s: Snapshot, w: nat, result: ExecutionResult, account: Account, asset: Asset)
    requires w < |s.withdrawals| && FeesExact(s.withdrawals[w]) && SignerRules.MapResult(result).Proceed?
    ensures Pays(s, SignerRules.AfterAccepted(s, w, result, SignerRules.MapResult(result)), w, account, asset)
  {
    hide Withdrawals.AfterRecordResult, SignerRules.AfterMark, FeesExact, Pays, Withdrawals.AfterSignerRetry;
    RetryPays(s, w, account, asset);
    var recorded := Withdrawals.AfterRecordResult(s, w, s.withdrawals[w].key, result);
    if recorded.Ok? {
      var r, mapped := recorded.value, SignerRules.MapResult(result);
      RecordedSame(s, w, result);
      MarkPays(r, w, mapped, result.providerRef, account, asset);
      RecordedPays(s, r, SignerRules.AfterMark(r, w, mapped, result.providerRef), w, account, asset);
    }
  }

  lemma RetryPays(s: Snapshot, w: nat, account: Account, asset: Asset)
    requires w < |s.withdrawals|
    ensures Pays(s, Withdrawals.AfterSignerRetry(s, w), w, account, asset)
  {
    hide FeeTaken, NetworkTaken;
  }

  lemma FailedPays(s: Snapshot, w: nat, account: Account, asset: Asset)
    requires w < |s.withdrawals|
    ensures Pays(s, Withdrawals.AfterFailed(s, w), w, account, asset)
  {
    hide FeeTaken, NetworkTaken;
    var row := s.withdrawals[w];
    var entry := Entry(User(row.user), row.asset, row.amount + row.platformFee + row.networkFee, WITHDRAWAL_RELEASE,
                       WithdrawalRef, w);
    EscrowTable.HeldAfter(s, Withdrawals.AfterFailed(s, w), [entry], account, asset);
    EscrowTable.LockGives(entry, account, asset);
    hide EscrowTable.Held;
  }

  /**
   In every reachable state, whatever is answered to execute or to reconcile, if anything: every account gets exactly
   what the new status of the row says, and no other account gets or pays anything.
   */
  lemma AnswerPays(chain: string -> Sighting, s: Snapshot, w: nat, reply: Option<Body>, account: Account, asset: Asset)
    requires CustodyRuns.Reachable(chain, s) && w < |s.withdrawals|
    ensures Pays(s, SignerRules.AfterExecute(s, w, reply), w, account, asset)
    ensures Pays(s, SignerRules.AfterReconcile(s, w, reply), w, account, asset)
  {
    hide CustodyRuns.Reachable, Pays, Withdrawals.AfterSignerRetry, Withdrawals.AfterFailed, SignerRules.AfterAccepted;
    hide ParseResult;
    RowExact(chain, s, w);
    RetryPays(s, w, account, asset);
    FailedPays(s, w, account, asset);
    if reply.Some? && ParseResult(reply.value).Some? {
      var result := ParseResult(reply.value).value;
      if SignerRules.MapResult(result).Proceed? {
        AcceptedPays(s, w, result, account, asset);
      }
    }
    hide FeesExact;
  }

  lemma RowExact(chain: string -> Sighting, s: Snapshot, w: nat)
    requires CustodyRuns.Reachable(chain, s) && w < |s.withdrawals|
    ensures FeesExact(s.withdrawals[w])
  {
    hide CustodyRuns.Reachable, LedgerOk, DepositsOk, EscrowsOk, NoUncheckedDebit, Exact;
    CustodyRuns.ReachableInv(chain, s);
    assert WithdrawalOk(s, w);
  }

  lemma RequeuePays(s: Snapshot, w: nat, account: Account, asset: Asset)
    requires w < |s.withdrawals|
    ensures Pays(s, Withdrawals.WithRow(s, w, s.withdrawals[w].(status := WPending)), w, account, asset)
  {
    hide FeeTaken, NetworkTaken;
  }

  /** An admin decides about rows in signer_retry and no others: back to pending, or failed and the money given back. */
  lemma AdminTable(cfg: Settings, s: Snapshot, w: nat, requeue: bool, account: Account, asset: Asset)
    ensures var t := Step(cfg, s, AdminAction(w, requeue));
            if w < |s.withdrawals| && s.withdrawals[w].status == SignerRetry
            then
              && Pays(s, t, w, account, asset)
              && t.withdrawals == s.withdrawals[w := if requeue then s.withdrawals[w].(status := WPending)
                                                     else s.withdrawals[w].(status := Failed, txid := None)]
            else t == s
  {
    hide Pays;
    if w < |s.withdrawals| {
      FailedPays(s, w, account, asset);
      RequeuePays(s, w, account, asset);
    }
  }
}
