/** Every operation on a withdrawal keeps the custody invariant. */
module WithdrawalSteps {
  import opened Tables
  import opened LedgerService
  import opened WalletFees
  import opened ProviderReplies
  import opened Custody
  import opened CustodySteps
  import Withdrawals
  import SignerRules

  /** t is s after booking es for withdrawal w and replacing its row, identity and price tag unchanged. */
  ghost predicate WithdrawalMoved(s: Snapshot, t: Snapshot, w: nat, row: WithdrawalRow, es: seq<Entry>)
    requires w < |s.withdrawals|
  {
    && t == s.(ledger := s.ledger + es, withdrawals := s.withdrawals[w := row])
    && row.asset == s.withdrawals[w].asset
    && BookedFor(es, WithdrawalRef, w, row.asset) && Unchecked(es)
  }

  lemma WithdrawalStep(chain: string -> Sighting, s: Snapshot, t: Snapshot, w: nat, row: WithdrawalRow,
                       es: seq<Entry>)
    requires Inv(chain, s) && w < |s.withdrawals|
    requires WithdrawalMoved(s, t, w, row, es) && WithdrawalOk(t, w)
    ensures Inv(chain, t)
  {
    hide WithdrawalOk, LedgerOk, DepositsOk, WithdrawalsOk;
    EscrowsUntouched(s, t);
    UncheckedAppend(s.ledger, es);
    hide EscrowsOk;
    OneRowStep(chain, s, t, WithdrawalRef, w, es);
  }

  /** Counting in a ledger with at most two new entries. */
  lemma CountAppended(l: seq<Entry>, es: seq<Entry>)
    requires |es| <= 2
    ensures forall q: Query :: Count(q, l + es) ==
              Count(q, l) + (if |es| > 0 && Selects(q, es[0]) then 1 else 0) +
                (if |es| > 1 && Selects(q, es[1]) then 1 else 0)
  {
    forall q: Query
      ensures Count(q, l + es) ==
              Count(q, l) + (if |es| > 0 && Selects(q, es[0]) then 1 else 0) +
                (if |es| > 1 && Selects(q, es[1]) then 1 else 0)
    {
      CountConcat(q, l, es);
      CountFew(q, es);
    }
  }

  /** What one more entry of withdrawal w does to the counts and the sum of that row. */
  lemma EntryCounts(l: seq<Entry>, entry: Entry, w: nat)
    requires entry.refType == WithdrawalRef && entry.refId == w
    ensures var t, kind := l + [entry], entry.entryType;
            && CountOf(t, w, WITHDRAWAL_RELEASE) ==
               CountOf(l, w, WITHDRAWAL_RELEASE) + (if kind == WITHDRAWAL_RELEASE then 1 else 0)
            && CountOf(t, w, WITHDRAWAL_NETWORK_FEE) ==
               CountOf(l, w, WITHDRAWAL_NETWORK_FEE) + (if kind == WITHDRAWAL_NETWORK_FEE then 1 else 0)
            && CountOf(t, w, WITHDRAWAL_NETWORK_FEE_REFUND) ==
               CountOf(l, w, WITHDRAWAL_NETWORK_FEE_REFUND) + (if kind == WITHDRAWAL_NETWORK_FEE_REFUND then 1 else 0)
            && CountOf(t, w, WITHDRAWAL_NETWORK_FEE_ADJUSTMENT) ==
               CountOf(l, w, WITHDRAWAL_NETWORK_FEE_ADJUSTMENT) +
                 (if kind == WITHDRAWAL_NETWORK_FEE_ADJUSTMENT then 1 else 0)
            && Count(OfAccountRowType(PlatformRevenue, WithdrawalRef, w, WITHDRAWAL_PLATFORM_FEE), t) ==
               Count(OfAccountRowType(PlatformRevenue, WithdrawalRef, w, WITHDRAWAL_PLATFORM_FEE), l)
               + (if entry.account == PlatformRevenue && kind == WITHDRAWAL_PLATFORM_FEE then 1 else 0)
            && Sum(OfRow(WithdrawalRef, w), t) == Sum(OfRow(WithdrawalRef, w), l) + entry.amount
  {
    CountAppended(l, [entry]);
    SumConcat(OfRow(WithdrawalRef, w), l, [entry]);
    SumFew(OfRow(WithdrawalRef, w), [entry]);
  }

  function CountOf(l: seq<Entry>, w: nat, kind: EntryType): nat {
    Count(OfRowType(WithdrawalRef, w, kind), l)
  }

  lemma RequestRowOk(cfg: Settings, s: Snapshot, t: Snapshot, row: WithdrawalRow, entry: Entry)
    requires LedgerOk(s) && row.amount > 0.0 && row.key != "" && row.status == WPending && row.actualFee.None?
    requires !row.settled
    requires row.platformFee == WithdrawalPlatformFee(cfg, row.asset, row.amount)
    requires row.networkFee == WithdrawalNetworkFee(cfg, row.asset)
    requires entry == Withdrawals.ReserveEntry(cfg, |s.withdrawals|, row.user, row.asset, row.amount)
    requires t == s.(withdrawals := s.withdrawals + [row], ledger := s.ledger + [entry])
    ensures WithdrawalOk(t, |s.withdrawals|)
  {
    hide QuantizeAsset, Exact, Sum, Count;
    var w := |s.withdrawals|;
    TotalDebitWithin(cfg, row.asset, row.amount);
    hide WithdrawalPlatformFee, WithdrawalNetworkFee;
    NothingBooked(s, WithdrawalRef, w);
    EntryCounts(s.ledger, entry, w);
  }

  lemma RequestOneRow(cfg: Settings, s: Snapshot, t: Snapshot, row: WithdrawalRow, entry: Entry)
    requires EscrowsOk(s)
    requires entry == Withdrawals.ReserveEntry(cfg, |s.withdrawals|, row.user, row.asset, row.amount)
    requires t == s.(withdrawals := s.withdrawals + [row], ledger := s.ledger + [entry])
    ensures OneRow(s, t, WithdrawalRef, |s.withdrawals|, [entry])
  {
    hide WithdrawalTotalDebit;
    EscrowsUntouched(s, t);
  }

  lemma RequestKeeps(cfg: Settings, chain: string -> Sighting, s: Snapshot, user: int, asset: Asset, amount: real,
                     destination: string, digest: string, now: int)
    requires Inv(chain, s)
    ensures Inv(chain, OrSame(s, Withdrawals.AfterRequest(cfg, s, user, asset, amount, destination, digest, now)))
  {
    hide WithdrawalPlatformFee, WithdrawalNetworkFee, WithdrawalTotalDebit, Withdrawals.MinimumUsd;
    hide Withdrawals.UsdValue;
    hide LedgerOk, EscrowsOk, DepositsOk, WithdrawalsOk, WithdrawalOk, OneRow, NoUncheckedDebit;
    var r := Withdrawals.AfterRequest(cfg, s, user, asset, amount, destination, digest, now);
    if r.Ok? {
      var w := |s.withdrawals|;
      var row := Withdrawals.NewRow(cfg, w, user, asset, amount, destination, digest, now);
      var entry := Withdrawals.ReserveEntry(cfg, w, user, asset, amount);
      assert row.key != "" by {
        assert row.key[0] == 'w';
      }
      RequestRowOk(cfg, s, r.value, row, entry);
      RequestOneRow(cfg, s, r.value, row, entry);
      CheckedDebit(s.ledger, entry);
      hide Withdrawals.Refusal, Withdrawals.ReserveEntry, Withdrawals.NewRow;
      OneRowStep(chain, s, r.value, WithdrawalRef, w, [entry]);
    }
  }

  lemma RowFine(s: Snapshot, w: nat)
    requires WithdrawalsOk(s) && w < |s.withdrawals|
    ensures WithdrawalOk(s, w)
    ensures var row := s.withdrawals[w];
            row.key != "" && row.platformFee >= 0.0 && row.networkFee >= 0.0 && Withdrawals.ReleaseTotal(row) >= 0.0
  {
    hide Exact, WithdrawalFootprint;
    assert WithdrawalOk(s, w);
  }

  // ----- bookings and status changes

  /** Changing only the status, the ids and the recorded fee of a row whose money is still reserved. */
  predicate Relabelled(earlier: WithdrawalRow, row: WithdrawalRow) {
    && row == earlier.(status := row.status, txid := row.txid, providerRef := row.providerRef, key := row.key,
                       actualFee := row.actualFee)
    && Withdrawals.InFlight(earlier.status) && Withdrawals.InFlight(row.status) && row.key != ""
  }

  lemma RelabelKeeps(chain: string -> Sighting, s: Snapshot, w: nat, row: WithdrawalRow)
    requires Inv(chain, s) && w < |s.withdrawals| && Relabelled(s.withdrawals[w], row)
    requires row.actualFee.Some? ==> row.actualFee.value >= 0.0 && Exact(row.asset, row.actualFee.value)
    ensures Inv(chain, Withdrawals.WithRow(s, w, row))
  {
    hide QuantizeAsset, LedgerOk, DepositsOk, EscrowsOk;
    hide NoUncheckedDebit;
    assert WithdrawalOk(s, w);
    var t := Withdrawals.WithRow(s, w, row);
    assert t.ledger == s.ledger + [];
    hide WithdrawalsOk;
    assert WithdrawalOk(t, w);
    WithdrawalStep(chain, s, t, w, row, []);
  }

  lemma BookFeeRowOk(s: Snapshot, w: nat)
    requires w < |s.withdrawals| && WithdrawalOk(s, w)
    requires !Withdrawals.FeeBooked(s, w) && s.withdrawals[w].platformFee > 0.0
    ensures WithdrawalOk(Withdrawals.AfterBookFee(s, w), w)
    ensures Withdrawals.FeeBooked(Withdrawals.AfterBookFee(s, w), w)
  {
    hide QuantizeAsset, Exact;
    var row := s.withdrawals[w];
    EntryCounts(s.ledger, Entry(PlatformRevenue, row.asset, row.platformFee, WITHDRAWAL_PLATFORM_FEE, WithdrawalRef, w),
                w);
  }

  /** The fee entry is booked at most once, and exists afterwards unless there is no fee. */
  lemma BookFeeKeeps(chain: string -> Sighting, s: Snapshot, w: nat)
    requires Inv(chain, s) && w < |s.withdrawals|
    ensures Inv(chain, Withdrawals.AfterBookFee(s, w))
    ensures Withdrawals.FeeBooked(Withdrawals.AfterBookFee(s, w), w) || s.withdrawals[w].platformFee == 0.0
  {
    hide QuantizeAsset, LedgerOk, DepositsOk, EscrowsOk;
    hide NoUncheckedDebit;
    hide Exact, Withdrawals.FeeBooked, WithdrawalsOk, WithdrawalOk;
    var row := s.withdrawals[w];
    RowFine(s, w);
    if !Withdrawals.FeeBooked(s, w) && row.platformFee > 0.0 {
      var t := Withdrawals.AfterBookFee(s, w);
      BookFeeRowOk(s, w);
      assert t.withdrawals == t.withdrawals[w := row];
      var entry := Entry(PlatformRevenue, row.asset, row.platformFee, WITHDRAWAL_PLATFORM_FEE, WithdrawalRef, w);
      WithdrawalStep(chain, s, t, w, row, [entry]);
    }
  }

  /** Entries that settle the network fee of one withdrawal. */
  predicate NetworkKind(es: seq<Entry>, w: nat) {
    forall i :: 0 <= i < |es| ==>
      && es[i].refType == WithdrawalRef && es[i].refId == w
      && es[i].entryType in {WITHDRAWAL_NETWORK_FEE, WITHDRAWAL_NETWORK_FEE_REFUND, WITHDRAWAL_NETWORK_FEE_ADJUSTMENT}
  }

  /** What settling books adds up to the estimate that was reserved, whatever the actual fee was. */
  lemma NetworkSum(row: WithdrawalRow, w: nat, actual: real, estimate: real)
    requires actual >= 0.0
    ensures Sum(OfRow(WithdrawalRef, w), Withdrawals.NetworkEntries(row, w, actual, actual - estimate)) == estimate
  {
    var q, delta := OfRow(WithdrawalRef, w), actual - estimate;
    var fee := Entry(PlatformRevenue, row.asset, actual, WITHDRAWAL_NETWORK_FEE, WithdrawalRef, w);
    var refund := Entry(User(row.user), row.asset, -delta, WITHDRAWAL_NETWORK_FEE_REFUND, WithdrawalRef, w);
    var charge := Entry(User(row.user), row.asset, -delta, WITHDRAWAL_NETWORK_FEE_ADJUSTMENT, WithdrawalRef, w);
    var first := if actual > 0.0 then [fee] else [];
    var second := if delta < 0.0 then [refund] else if delta > 0.0 then [charge] else [];
    assert Withdrawals.NetworkEntries(row, w, actual, delta) == first + second;
    SumConcat(q, first, second);
    SumOne(q, fee);
    SumOne(q, refund);
    SumOne(q, charge);
    hide Sum;
  }

  lemma SumOne(q: Query, e: Entry)
    ensures Sum(q, [e]) == Picked(q, e) && Sum(q, []) == 0.0
  {
    SumFew(q, [e]);
  }

  lemma NetworkShape(row: WithdrawalRow, w: nat, actual: real, estimate: real)
    requires actual >= 0.0
    ensures var es := Withdrawals.NetworkEntries(row, w, actual, actual - estimate);
            && |es| <= 2 && Unchecked(es) && BookedFor(es, WithdrawalRef, w, row.asset)
            && (estimate != 0.0 ==> es != [])
            && NetworkKind(es, w)
  {
  }

  /** Network-fee entries change no other count of their row. */
  lemma NetworkCounts(l: seq<Entry>, es: seq<Entry>, w: nat)
    requires |es| <= 2
    requires NetworkKind(es, w)
    ensures Count(OfRowType(WithdrawalRef, w, WITHDRAWAL_RELEASE), l + es) ==
            Count(OfRowType(WithdrawalRef, w, WITHDRAWAL_RELEASE), l)
    ensures var q := OfAccountRowType(PlatformRevenue, WithdrawalRef, w, WITHDRAWAL_PLATFORM_FEE);
            Count(q, l + es) == Count(q, l)
    ensures es != [] ==>
              Count(OfRowType(WithdrawalRef, w, WITHDRAWAL_NETWORK_FEE), l + es) +
              Count(OfRowType(WithdrawalRef, w, WITHDRAWAL_NETWORK_FEE_REFUND), l + es) +
              Count(OfRowType(WithdrawalRef, w, WITHDRAWAL_NETWORK_FEE_ADJUSTMENT), l + es) > 0
    ensures es == [] ==> l + es == l
  {
    CountAppended(l, es);
  }

  lemma SettleRowOk(s: Snapshot, w: nat, es: seq<Entry>)
    requires w < |s.withdrawals| && WithdrawalOk(s, w) && Withdrawals.NetworkBooked(s, w) == 0
    requires Sum(OfRow(WithdrawalRef, w), es) == s.withdrawals[w].networkFee && |es| <= 2
    requires s.withdrawals[w].networkFee != 0.0 ==> es != []
    requires NetworkKind(es, w)
    ensures WithdrawalOk(Withdrawals.WithRow(s, w, s.withdrawals[w].(settled := true)).(ledger := s.ledger + es),
                         w)
  {
    hide QuantizeAsset, Exact, Sum, Count, NetworkKind;
    NetworkCounts(s.ledger, es, w);
    SumConcat(OfRow(WithdrawalRef, w), s.ledger, es);
  }

  /** The settled amounts are on the asset grid, so the difference needs no further rounding. */
  lemma SettleAmounts(row: WithdrawalRow)
    requires row.networkFee >= 0.0 && Exact(row.asset, row.networkFee)
    requires row.actualFee.Some? ==> row.actualFee.value >= 0.0 && Exact(row.asset, row.actualFee.value)
    ensures var actual, estimate := Withdrawals.ActualFeeOf(row), Withdrawals.EstimateOf(row);
            && actual >= 0.0 && estimate == row.networkFee
            && QuantizeAsset(row.asset, actual - estimate) == actual - estimate
            && actual == if row.actualFee.Some? then row.actualFee.value else row.networkFee
  {
    hide QuantizeAsset, Exact;
    QuantizeExact(row.asset, row.networkFee);
    var given := if row.actualFee.Some? then row.actualFee.value else row.networkFee;
    QuantizeExact(row.asset, given);
    ExactSum(row.asset, given, row.networkFee);
    QuantizeExact(row.asset, given - row.networkFee);
  }

  /** What settling does when it does anything. */
  lemma SettleShape(s: Snapshot, w: nat, force: bool)
    requires w < |s.withdrawals| && WithdrawalOk(s, w) && Withdrawals.AfterSettle(s, w, force) != s
    ensures var row := s.withdrawals[w];
            var actual := Withdrawals.ActualFeeOf(row);
            && Withdrawals.NetworkBooked(s, w) == 0 && actual >= 0.0
            && Withdrawals.AfterSettle(s, w, force) ==
               Withdrawals.WithRow(s, w, row.(settled := true))
                 .(ledger := s.ledger + Withdrawals.NetworkEntries(row, w, actual, actual - row.networkFee))
  {
    hide WithdrawalFootprint;
    hide QuantizeAsset, Exact, Withdrawals.ActualFeeOf, Withdrawals.EstimateOf, Withdrawals.NetworkEntries;
    SettleAmounts(s.withdrawals[w]);
  }

  lemma ForcedSettle(s: Snapshot, w: nat)
    requires w < |s.withdrawals| && WithdrawalOk(s, w)
    ensures var t := Withdrawals.AfterSettle(s, w, true); w < |t.withdrawals| && t.withdrawals[w].settled
  {
    hide WithdrawalFootprint, QuantizeAsset, Exact;
  }

  lemma SettleKeeps(chain: string -> Sighting, s: Snapshot, w: nat, force: bool)
    requires Inv(chain, s) && w < |s.withdrawals|
    ensures Inv(chain, Withdrawals.AfterSettle(s, w, force))
    ensures var t := Withdrawals.AfterSettle(s, w, force);
            force ==> w < |t.withdrawals| && t.withdrawals[w].settled
  {
    hide LedgerOk, DepositsOk, EscrowsOk, NoUncheckedDebit, WithdrawalOk, Withdrawals.ActualFeeOf;
    hide Withdrawals.AfterSettle;
    assert WithdrawalOk(s, w);
    hide WithdrawalsOk;
    var row, t := s.withdrawals[w], Withdrawals.AfterSettle(s, w, force);
    ForcedSettle(s, w);
    if t != s {
      var actual := Withdrawals.ActualFeeOf(row);
      SettleShape(s, w, force);
      var es := Withdrawals.NetworkEntries(row, w, actual, actual - row.networkFee);
      NetworkSum(row, w, actual, row.networkFee);
      NetworkShape(row, w, actual, row.networkFee);
      SettleRowOk(s, w, es);
      hide Withdrawals.NetworkEntries, Withdrawals.NetworkBooked;
      WithdrawalStep(chain, s, t, w, row.(settled := true), es);
    }
  }

  // ----- the mark_withdrawal_* calls

  lemma SubmittedKeeps(chain: string -> Sighting, s: Snapshot, w: nat, ref: string)
    requires Inv(chain, s) && w < |s.withdrawals| && Withdrawals.InFlight(s.withdrawals[w].status)
    ensures Inv(chain, Withdrawals.AfterSubmitted(s, w, ref))
  {
    assert WithdrawalOk(s, w);
    hide WithdrawalOk, Inv;
    RelabelKeeps(chain, s, w, Withdrawals.AfterSubmitted(s, w, ref).withdrawals[w]);
  }

  lemma RetryKeeps(chain: string -> Sighting, s: Snapshot, w: nat)
    requires Inv(chain, s) && w < |s.withdrawals| && Withdrawals.InFlight(s.withdrawals[w].status)
    ensures Inv(chain, Withdrawals.AfterSignerRetry(s, w))
  {
    assert WithdrawalOk(s, w);
    RelabelKeeps(chain, s, w, Withdrawals.AfterSignerRetry(s, w).withdrawals[w]);
  }

  lemma RecordKeeps(chain: string -> Sighting, s: Snapshot, w: nat, result: ExecutionResult)
    requires Inv(chain, s) && w < |s.withdrawals| && Withdrawals.InFlight(s.withdrawals[w].status)
    requires Withdrawals.AfterRecordResult(s, w, s.withdrawals[w].key, result).Ok?
    ensures var t := Withdrawals.AfterRecordResult(s, w, s.withdrawals[w].key, result).value;
            Inv(chain, t) && |t.withdrawals| == |s.withdrawals| &&
              t.withdrawals[w].status == s.withdrawals[w].status
  {
    hide QuantizeAsset, Exact;
    assert WithdrawalOk(s, w);
    if result.fee.ActualFee? {
      QuantizeWithin(s.withdrawals[w].asset, result.fee.raw);
    }
    RelabelKeeps(chain, s, w,
                 Withdrawals.AfterRecordResult(s, w, s.withdrawals[w].key, result).value.withdrawals[w]);
  }

  /** The row as it is while its broadcast is being booked. */
  function Booking(s: Snapshot, w: nat, txid: string, ref: string): Snapshot
    requires w < |s.withdrawals|
  {
    var row := s.withdrawals[w];
    Withdrawals.WithRow(Withdrawals.AfterBookFee(s, w), w,
                        row.(status := Broadcasted, txid := Some(txid),
                             providerRef := Withdrawals.Coalesce(row.providerRef, ref)))
  }

  lemma BookingKeeps(chain: string -> Sighting, s: Snapshot, w: nat, txid: string, ref: string)
    requires Inv(chain, s) && w < |s.withdrawals| && Withdrawals.InFlight(s.withdrawals[w].status)
    ensures Inv(chain, Booking(s, w, txid, ref))
    ensures Withdrawals.FeeBooked(Booking(s, w, txid, ref), w) || s.withdrawals[w].platformFee == 0.0
  {
    assert WithdrawalOk(s, w);
    hide WithdrawalOk, Inv, Withdrawals.FeeBooked;
    BookFeeKeeps(chain, s, w);
    RelabelKeeps(chain, Withdrawals.AfterBookFee(s, w), w, Booking(s, w, txid, ref).withdrawals[w]);
  }

  lemma BroadcastedKeeps(chain: string -> Sighting, s: Snapshot, w: nat, txid: string, ref: string)
    requires Inv(chain, s) && w < |s.withdrawals| && Withdrawals.InFlight(s.withdrawals[w].status)
    ensures Inv(chain, Withdrawals.AfterBroadcasted(s, w, txid, ref))
  {
    hide Inv;
    BookingKeeps(chain, s, w, txid, ref);
    SettleKeeps(chain, Booking(s, w, txid, ref), w, false);
  }

  /** Settling neither reads nor writes the status. */
  lemma SettleIgnoresStatus(s: Snapshot, w: nat, row: WithdrawalRow, status: WithdrawalStatus)
    requires w < |s.withdrawals|
    ensures var settled := Withdrawals.AfterSettle(Withdrawals.WithRow(s, w, row), w, true);
            && w < |settled.withdrawals|
            && Withdrawals.AfterSettle(Withdrawals.WithRow(s, w, row.(status := status)), w, true) ==
               Withdrawals.WithRow(settled, w, settled.withdrawals[w].(status := status))
  {
    hide QuantizeAsset;
    var settled := Withdrawals.AfterSettle(Withdrawals.WithRow(s, w, row), w, true);
    assert settled.withdrawals[w := settled.withdrawals[w].(status := status)] ==
           Withdrawals.AfterSettle(Withdrawals.WithRow(s, w, row.(status := status)), w, true).withdrawals;
  }

  lemma BookFeeKeepsRows(s: Snapshot, w: nat)
    requires w < |s.withdrawals|
    ensures Withdrawals.AfterBookFee(s, w).withdrawals == s.withdrawals
  {
  }

  /** Confirming is broadcasting with a forced settlement, then one last status change. */
  lemma ConfirmedIsSettled(s: Snapshot, w: nat, txid: string, ref: string)
    requires w < |s.withdrawals|
    ensures var settled := Withdrawals.AfterSettle(Booking(s, w, txid, ref), w, true);
            && w < |settled.withdrawals|
            && Withdrawals.AfterConfirmed(s, w, txid, ref) ==
               Withdrawals.WithRow(settled, w, settled.withdrawals[w].(status := Confirmed))
  {
    hide Withdrawals.AfterSettle, Withdrawals.AfterBookFee;
    BookFeeKeepsRows(s, w);
    SettleIgnoresStatus(Withdrawals.AfterBookFee(s, w), w, Booking(s, w, txid, ref).withdrawals[w], Confirmed);
  }

  lemma ConfirmKeeps(chain: string -> Sighting, s: Snapshot, w: nat)
    requires Inv(chain, s) && w < |s.withdrawals| && Withdrawals.InFlight(s.withdrawals[w].status)
    requires s.withdrawals[w].settled && (Withdrawals.FeeBooked(s, w) || s.withdrawals[w].platformFee == 0.0)
    ensures Inv(chain, Withdrawals.WithRow(s, w, s.withdrawals[w].(status := Confirmed)))
  {
    hide QuantizeAsset, LedgerOk, DepositsOk, EscrowsOk;
    hide NoUncheckedDebit, Exact;
    assert WithdrawalOk(s, w);
    hide WithdrawalsOk;
    var row := s.withdrawals[w].(status := Confirmed);
    var t := Withdrawals.WithRow(s, w, row);
    assert t.ledger == s.ledger + [];
    assert WithdrawalOk(t, w);
    WithdrawalStep(chain, s, t, w, row, []);
  }

  lemma ConfirmedKeeps(chain: string -> Sighting, s: Snapshot, w: nat, txid: string, ref: string)
    requires Inv(chain, s) && w < |s.withdrawals| && Withdrawals.InFlight(s.withdrawals[w].status)
    ensures Inv(chain, Withdrawals.AfterConfirmed(s, w, txid, ref))
  {
    hide Inv;
    BookingKeeps(chain, s, w, txid, ref);
    var booking := Booking(s, w, txid, ref);
    SettleKeeps(chain, booking, w, true);
    SettleKeepsFee(booking, w);
    ConfirmedIsSettled(s, w, txid, ref);
    hide Withdrawals.AfterConfirmed, Withdrawals.FeeBooked;
    ConfirmKeeps(chain, Withdrawals.AfterSettle(booking, w, true), w);
  }

  lemma SettleKeepsFee(s: Snapshot, w: nat)
    requires w < |s.withdrawals|
    ensures var t := Withdrawals.AfterSettle(s, w, true);
            && |t.withdrawals| == |s.withdrawals| && t.withdrawals[w].status == s.withdrawals[w].status
            && t.withdrawals[w].platformFee == s.withdrawals[w].platformFee
            && (Withdrawals.FeeBooked(s, w) ==> Withdrawals.FeeBooked(t, w))
  {
    hide QuantizeAsset, Withdrawals.NetworkEntries;
    var t := Withdrawals.AfterSettle(s, w, true);
    if t != s {
      var row := s.withdrawals[w];
      CountConcat(OfAccountRowType(PlatformRevenue, WithdrawalRef, w, WITHDRAWAL_PLATFORM_FEE), s.ledger,
                  t.ledger[|s.ledger|..]);
    }
  }

  lemma FailedRowOk(s: Snapshot, w: nat)
    requires w < |s.withdrawals| && WithdrawalOk(s, w) && Withdrawals.InFlight(s.withdrawals[w].status)
    ensures WithdrawalOk(Withdrawals.AfterFailed(s, w), w)
  {
    hide QuantizeAsset, Exact;
    var row := s.withdrawals[w];
    var entry := Entry(User(row.user), row.asset, Withdrawals.ReleaseTotal(row), WITHDRAWAL_RELEASE, WithdrawalRef, w);
    EntryCounts(s.ledger, entry, w);
  }

  /** Only a row whose money is still reserved may fail; then the one release is booked. */
  lemma FailedKeeps(chain: string -> Sighting, s: Snapshot, w: nat)
    requires Inv(chain, s) && w < |s.withdrawals| && Withdrawals.InFlight(s.withdrawals[w].status)
    ensures Inv(chain, Withdrawals.AfterFailed(s, w))
  {
    hide QuantizeAsset, LedgerOk, DepositsOk, EscrowsOk;
    hide NoUncheckedDebit, Exact;
    hide WithdrawalsOk, WithdrawalOk;
    var row := s.withdrawals[w];
    RowFine(s, w);
    FailedRowOk(s, w);
    var entry := Entry(User(row.user), row.asset, Withdrawals.ReleaseTotal(row), WITHDRAWAL_RELEASE, WithdrawalRef, w);
    WithdrawalStep(chain, s, Withdrawals.AfterFailed(s, w), w, row.(status := Failed, txid := None), [entry]);
  }

  // ----- the signer and the admin

  lemma AcceptedKeeps(chain: string -> Sighting, s: Snapshot, w: nat, result: ExecutionResult,
                      mapped: SignerRules.Mapped)
    requires Inv(chain, s) && w < |s.withdrawals| && Withdrawals.InFlight(s.withdrawals[w].status)
    requires mapped.Proceed?
    ensures Inv(chain, SignerRules.AfterAccepted(s, w, result, mapped))
  {
    var recorded := Withdrawals.AfterRecordResult(s, w, s.withdrawals[w].key, result);
    if recorded.Err? {
      RetryKeeps(chain, s, w);
    } else {
      RecordKeeps(chain, s, w, result);
      var t, ref := recorded.value, result.providerRef;
      hide Inv, Withdrawals.AfterRecordResult;
      hide Withdrawals.AfterSubmitted, Withdrawals.AfterBroadcasted, Withdrawals.AfterConfirmed;
      match mapped.status {
        case StSubmitted => SubmittedKeeps(chain, t, w, ref);
        case StBroadcasted => BroadcastedKeeps(chain, t, w, mapped.txid, ref);
        case StConfirmed => ConfirmedKeeps(chain, t, w, mapped.txid, ref);
        case _ =>
      }
    }
  }

  lemma ExecuteKeeps(chain: string -> Sighting, s: Snapshot, w: nat, reply: Option<Body>)
    requires Inv(chain, s) && w < |s.withdrawals| && s.withdrawals[w].status == WPending
    ensures Inv(chain, SignerRules.AfterExecute(s, w, reply))
  {
    hide Inv, ParseResult, SignerRules.AfterAccepted, Withdrawals.AfterFailed, Withdrawals.AfterSignerRetry;
    RetryKeeps(chain, s, w);
    FailedKeeps(chain, s, w);
    if reply.Some? && ParseResult(reply.value).Some? {
      var result := ParseResult(reply.value).value;
      if SignerRules.MapResult(result).Proceed? {
        AcceptedKeeps(chain, s, w, result, SignerRules.MapResult(result));
      }
    }
  }

  /** For any row that is still open, also one that was made pending again since it was read. */
  lemma ReconcileKeeps(chain: string -> Sighting, s: Snapshot, w: nat, reply: Option<Body>)
    requires Inv(chain, s) && w < |s.withdrawals| && Withdrawals.InFlight(s.withdrawals[w].status)
    ensures Inv(chain, SignerRules.AfterReconcile(s, w, reply))
  {
    hide Inv, ParseResult, SignerRules.AfterAccepted, Withdrawals.AfterSignerRetry;
    RetryKeeps(chain, s, w);
    if reply.Some? && ParseResult(reply.value).Some? {
      var result := ParseResult(reply.value).value;
      if SignerRules.MapResult(result).Proceed? {
        AcceptedKeeps(chain, s, w, result, SignerRules.MapResult(result));
      }
    }
  }

  lemma AdminActionKeeps(chain: string -> Sighting, s: Snapshot, w: nat, requeue: bool)
    requires Inv(chain, s)
    ensures Inv(chain, OrSame(s, Withdrawals.AfterAdminAction(s, w, requeue)))
  {
    var r := Withdrawals.AfterAdminAction(s, w, requeue);
    if r.Ok? && requeue {
      assert WithdrawalOk(s, w);
      RelabelKeeps(chain, s, w, s.withdrawals[w].(status := WPending));
    } else if r.Ok? {
      FailedKeeps(chain, s, w);
    }
  }
}
