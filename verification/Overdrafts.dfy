/** How far below zero a balance can go, and why. */
module Overdrafts {
  import opened Tables
  import opened LedgerService
  import opened WalletFees
  import opened ProviderReplies
  import opened Custody
  import opened CustodyRuns
  import CustodyEquation
  import CustodySteps
  import EscrowService
  import FeeService
  import Lifecycles
  import SignerRules
  import Text
  import WithdrawalSteps
  import Withdrawals

  /** A balance never falls below what network-fee adjustments took from it without a check. */
  lemma BoundedOverdraft(chain: string -> Sighting, s: Snapshot, user: int, asset: Asset)
    requires Reachable(chain, s)
    ensures Balance(s, user, asset) >= Sum(OfUserOverage(user, asset), s.ledger)
    ensures Sum(OfUserOverage(user, asset), s.ledger) <= 0.0
  {
    hide LedgerOk, DepositsOk, EscrowsOk, WithdrawalsOk, Reachable;
    ReachableInv(chain, s);
    CustodySteps.BalanceSplit(user, asset, s.ledger);
  }

  lemma SettledLedger(s: Snapshot, w: nat)
    requires w < |s.withdrawals| && WithdrawalOk(s, w) && Withdrawals.NetworkBooked(s, w) == 0
    requires s.withdrawals[w].actualFee.Some?
    ensures var row := s.withdrawals[w];
            Withdrawals.AfterSettle(s, w, true).ledger ==
            s.ledger + Withdrawals.NetworkEntries(row, w, row.actualFee.value, row.actualFee.value - row.networkFee)
  {
    hide WithdrawalFootprint;
    hide QuantizeAsset, Exact, Withdrawals.ActualFeeOf, Withdrawals.EstimateOf, Withdrawals.NetworkEntries;
    WithdrawalSteps.SettleAmounts(s.withdrawals[w]);
  }

  /** The user's side of a settlement is estimate minus actual fee. */
  lemma UserPaysDifference(row: WithdrawalRow, w: nat, actual: real, delta: real)
    ensures Sum(OfUser(row.user, row.asset), Withdrawals.NetworkEntries(row, w, actual, delta)) == -delta
  {
    var q := OfUser(row.user, row.asset);
    var fee := Entry(PlatformRevenue, row.asset, actual, WITHDRAWAL_NETWORK_FEE, WithdrawalRef, w);
    var refund := Entry(User(row.user), row.asset, -delta, WITHDRAWAL_NETWORK_FEE_REFUND, WithdrawalRef, w);
    var charge := Entry(User(row.user), row.asset, -delta, WITHDRAWAL_NETWORK_FEE_ADJUSTMENT, WithdrawalRef, w);
    var first := if actual > 0.0 then [fee] else [];
    var second := if delta < 0.0 then [refund] else if delta > 0.0 then [charge] else [];
    assert Withdrawals.NetworkEntries(row, w, actual, delta) == first + second;
    SumConcat(q, first, second);
    WithdrawalSteps.SumOne(q, fee);
    WithdrawalSteps.SumOne(q, refund);
    WithdrawalSteps.SumOne(q, charge);
    hide Sum;
  }

  /**
   Settling a withdrawal moves the user's balance by estimate minus actual fee, whatever the balance is:
   it can end below zero, and does exactly when the overage is larger than what the user holds.
   */
  lemma SettlingIsUnchecked(chain: string -> Sighting, s: Snapshot, w: nat)
    requires Inv(chain, s) && w < |s.withdrawals|
    requires Withdrawals.NetworkBooked(s, w) == 0 && s.withdrawals[w].actualFee.Some?
    ensures var row, t := s.withdrawals[w], Withdrawals.AfterSettle(s, w, true);
            var overage := row.actualFee.value - row.networkFee;
            && Balance(t, row.user, row.asset) == Balance(s, row.user, row.asset) - overage
            && (Balance(t, row.user, row.asset) < 0.0 <==> overage > Balance(s, row.user, row.asset))
  {
    hide LedgerOk, DepositsOk, EscrowsOk, NoUncheckedDebit, WithdrawalOk, Withdrawals.AfterSettle;
    hide Withdrawals.NetworkBooked;
    assert WithdrawalOk(s, w);
    hide WithdrawalsOk, Withdrawals.NetworkEntries, Sum;
    var row := s.withdrawals[w];
    var delta := row.actualFee.value - row.networkFee;
    SettledLedger(s, w);
    UserPaysDifference(row, w, row.actualFee.value, delta);
    SumConcat(OfUser(row.user, row.asset), s.ledger, Withdrawals.NetworkEntries(row, w, row.actualFee.value, delta));
  }

  /**
   Resolving by a split checks no balance either: for every percentage the buyer's balance moves by what the
   seller's part leaves of the lock, and it would end below zero if a moderator could give more than all of it away;
   the one caller splits in halves.
   */
  lemma SplitIsUnchecked(cfg: Settings, chain: string -> Sighting, s: Snapshot, e: nat, admin: int, pct: real)
    requires Reachable(chain, s)
    requires EscrowService.AfterResolve(cfg, s, e, admin, Split(pct)).Ok?
    ensures var row, t := s.escrows[e], Step(cfg, s, Resolve(e, admin, Split(pct)));
            var taken := EscrowService.SellerPart(row.amount, pct) - row.amount;
            && Balance(t, row.buyer, row.asset) == Balance(s, row.buyer, row.asset) - taken
            && (Balance(t, row.buyer, row.asset) < 0.0 <==> taken > Balance(s, row.buyer, row.asset))
            && (taken > 0.0 <==> pct > 100.0)
  {
    hide Reachable, Inv, FeeService.CalculateTotalFees, EscrowService.SellerPart, EscrowService.Resolved;
    hide EscrowFootprint;
    ReachableInv(chain, s);
    CustodyEquation.LedgerFine(chain, s);
    assert EscrowOk(s, e);
    var row, es := s.escrows[e], EscrowService.SplitEntries(cfg, s, e, pct).value;
    CustodySteps.PartBelow(row.amount, pct);
    SumConcat(OfUser(row.buyer, row.asset), s.ledger, es);
    SumFew(OfUser(row.buyer, row.asset), es);
  }

  // ----- the same through the answers a row can get

  /** An answer that reports the row's withdrawal as confirmed, for a network fee of raw. */
  function ConfirmedAt(row: WithdrawalRow, ref: string, txid: string, raw: real): Body {
    Body(StConfirmed, KnownAsset(row.asset), ref, txid, ActualFee(raw))
  }

  /** Nothing about reference, txid or fee makes the wallet refuse such an answer. */
  predicate Acceptable(s: Snapshot, w: nat, ref: string, txid: string, raw: real)
    requires w < |s.withdrawals|
  {
    var row := s.withdrawals[w];
    && Text.Strip(ref) == ref != "" && (row.providerRef == "" || row.providerRef == ref) &&
       !Withdrawals.RefTaken(s, w, ref)
    && Text.Strip(txid) == txid != "" && Withdrawals.TxidSane(row.asset, txid)
    && raw >= 0.0
  }

  /** The operation that applies an answer to a row: execute while it is pending, reconcile afterwards. */
  function Answer(s: Snapshot, w: nat, reply: Body): Op
    requires w < |s.withdrawals|
  {
    if s.withdrawals[w].status == WPending then Execute(w, Some(reply)) else Reconcile(w, Some(reply))
  }

  lemma AcceptedAnswer(cfg: Settings, s: Snapshot, w: nat, ref: string, txid: string, raw: real)
    requires w < |s.withdrawals| && (s.withdrawals[w].status == WPending || Unresolved(s.withdrawals[w].status))
    requires Acceptable(s, w, ref, txid, raw) && s.withdrawals[w].key != ""
    ensures var row := s.withdrawals[w];
            var result := ExecutionResult(StConfirmed, Some(row.asset), ref, txid, ActualFee(raw));
            var recorded := Withdrawals.AfterRecordResult(s, w, row.key, result);
            && recorded.Ok?
            && recorded.value ==
               Withdrawals.WithRow(s, w, row.(providerRef := ref, actualFee := Some(QuantizeAsset(row.asset, raw))))
            && Step(cfg, s, Answer(s, w, ConfirmedAt(row, ref, txid, raw))) ==
               Withdrawals.AfterConfirmed(recorded.value, w, txid, ref)
  {
    hide QuantizeAsset, Withdrawals.TxidSane, Withdrawals.RefTaken, Withdrawals.AfterConfirmed;
    assert ParseResult(ConfirmedAt(s.withdrawals[w], ref, txid, raw)) ==
           Some(ExecutionResult(StConfirmed, Some(s.withdrawals[w].asset), ref, txid, ActualFee(raw)));
  }

  /** Booking the platform fee and relabelling the row leave the user's balance and the settlement alone. */
  lemma BookingKeepsBalance(s: Snapshot, w: nat, txid: string, ref: string)
    requires w < |s.withdrawals|
    ensures var row, t := s.withdrawals[w], WithdrawalSteps.Booking(s, w, txid, ref);
            && w < |t.withdrawals| && t.withdrawals[w].actualFee == row.actualFee &&
               t.withdrawals[w].networkFee == row.networkFee
            && Balance(t, row.user, row.asset) == Balance(s, row.user, row.asset)
            && Withdrawals.NetworkBooked(t, w) == Withdrawals.NetworkBooked(s, w)
  {
    hide Withdrawals.FeeBooked, Sum;
    var row := s.withdrawals[w];
    var entry := Entry(PlatformRevenue, row.asset, row.platformFee, WITHDRAWAL_PLATFORM_FEE, WithdrawalRef, w);
    SumConcat(OfUser(row.user, row.asset), s.ledger, [entry]);
    WithdrawalSteps.SumOne(OfUser(row.user, row.asset), entry);
    WithdrawalSteps.EntryCounts(s.ledger, entry, w);
  }

  /** Confirming an unsettled row charges the user what the recorded fee exceeds the estimate by, unchecked. */
  lemma ConfirmingIsUnchecked(chain: string -> Sighting, s: Snapshot, w: nat, txid: string, ref: string)
    requires Inv(chain, s) && w < |s.withdrawals| && Withdrawals.InFlight(s.withdrawals[w].status)
    requires Withdrawals.NetworkBooked(s, w) == 0 && s.withdrawals[w].actualFee.Some?
    ensures var row, t := s.withdrawals[w], Withdrawals.AfterConfirmed(s, w, txid, ref);
            && w < |t.withdrawals| && t.withdrawals[w].status == Confirmed
            && Balance(t, row.user, row.asset) ==
               Balance(s, row.user, row.asset) - (row.actualFee.value - row.networkFee)
  {
    hide Inv, Withdrawals.NetworkBooked, Withdrawals.AfterConfirmed, Withdrawals.AfterSettle;
    var booking := WithdrawalSteps.Booking(s, w, txid, ref);
    WithdrawalSteps.BookingKeeps(chain, s, w, txid, ref);
    BookingKeepsBalance(s, w, txid, ref);
    BookingKeepsUser(s, w, txid, ref);
    SettlingIsUnchecked(chain, booking, w);
    WithdrawalSteps.ConfirmedIsSettled(s, w, txid, ref);
  }

  lemma BookingKeepsUser(s: Snapshot, w: nat, txid: string, ref: string)
    requires w < |s.withdrawals|
    ensures var t := WithdrawalSteps.Booking(s, w, txid, ref);
            w < |t.withdrawals| && t.withdrawals[w].user == s.withdrawals[w].user &&
              t.withdrawals[w].asset == s.withdrawals[w].asset
  {
    hide Withdrawals.FeeBooked;
  }

  /**
   In every reachable state, an acceptable answer that confirms a row with nothing settled yet moves the user's
   balance by estimate minus reported fee; the operation ends below zero exactly when the overage exceeds the balance.
   */
  lemma AnswerOverdraws(cfg: Settings, chain: string -> Sighting, s: Snapshot, w: nat, ref: string, txid: string,
                        raw: real)
    requires Reachable(chain, s) && w < |s.withdrawals|
    requires s.withdrawals[w].status == WPending || Unresolved(s.withdrawals[w].status)
    requires Withdrawals.NetworkBooked(s, w) == 0 && Acceptable(s, w, ref, txid, raw)
    ensures var row := s.withdrawals[w];
            var t := Step(cfg, s, Answer(s, w, ConfirmedAt(row, ref, txid, raw)));
            var overage := QuantizeAsset(row.asset, raw) - row.networkFee;
            && w < |t.withdrawals| && t.withdrawals[w].status == Confirmed
            && Balance(t, row.user, row.asset) == Balance(s, row.user, row.asset) - overage
            && (Balance(t, row.user, row.asset) < 0.0 <==> overage > Balance(s, row.user, row.asset))
  {
    hide Reachable, Acceptable, Step, QuantizeAsset, LedgerOk, DepositsOk, EscrowsOk, NoUncheckedDebit, WithdrawalOk;
    ReachableInv(chain, s);
    var row := s.withdrawals[w];
    WithdrawalSteps.RowFine(s, w);
    hide WithdrawalsOk;
    AcceptedAnswer(cfg, s, w, ref, txid, raw);
    var result := ExecutionResult(StConfirmed, Some(row.asset), ref, txid, ActualFee(raw));
    hide Inv, Withdrawals.AfterRecordResult, Withdrawals.AfterConfirmed;
    WithdrawalSteps.RecordKeeps(chain, s, w, result);
    ConfirmingIsUnchecked(chain, Withdrawals.AfterRecordResult(s, w, row.key, result).value, w, txid, ref);
  }

  // ----- every unsettled row can overdraw

  function Repeated(c: char, n: nat): string {
    seq(n, i => c)
  }

  /** A text longer than every stored reference. */
  function FreshRef(rows: seq<WithdrawalRow>): (ref: string)
    ensures |ref| > 0 && ref == Repeated('r', |ref|)
    ensures forall w :: 0 <= w < |rows| ==> |rows[w].providerRef| < |ref|
  {
    if rows == [] then Repeated('r', 1)
    else
      var before, last := FreshRef(rows[..|rows| - 1]), rows[|rows| - 1].providerRef;
      if |last| < |before| then before else Repeated('r', |last| + 1)
  }

  function SomeTxid(asset: Asset): string {
    if asset == ETH || asset == USDT then "0x" + Repeated('0', 64) else Repeated('0', 64)
  }

  lemma SomeTxidSane(asset: Asset)
    requires asset != SOL
    ensures Withdrawals.TxidSane(asset, SomeTxid(asset)) && Text.Strip(SomeTxid(asset)) == SomeTxid(asset) != ""
  {
    var txid := SomeTxid(asset);
    assert !Text.IsSpace(txid[0]) && !Text.IsSpace(txid[|txid| - 1]);
  }

  /**
   In every reachable state, a row that is not in SOL, has no provider reference yet and nothing settled can get
   an answer that leaves its user with a negative balance.
   */
  lemma AnyRowOverdraws(cfg: Settings, chain: string -> Sighting, s: Snapshot, w: nat) returns (reply: Body)
    requires Reachable(chain, s) && w < |s.withdrawals|
    requires s.withdrawals[w].status == WPending || Unresolved(s.withdrawals[w].status)
    requires Withdrawals.NetworkBooked(s, w) == 0 && s.withdrawals[w].asset != SOL && s.withdrawals[w].providerRef == ""
    ensures Balance(Step(cfg, s, Answer(s, w, reply)), s.withdrawals[w].user, s.withdrawals[w].asset) < 0.0
  {
    hide Reachable, Step, QuantizeAsset, Withdrawals.NetworkBooked, Withdrawals.TxidSane;
    var row := s.withdrawals[w];
    var balance := Balance(s, row.user, row.asset);
    var ref, txid := FreshRef(s.withdrawals), SomeTxid(row.asset);
    var fee := if row.networkFee < 0.0 then 0.0 else row.networkFee;
    var raw := fee + (if balance < 0.0 then 0.0 else balance) + 1.0;
    SomeTxidSane(row.asset);
    assert Text.Strip(ref) == ref by {
      assert !Text.IsSpace(ref[0]) && !Text.IsSpace(ref[|ref| - 1]);
    }
    QuantizeWithin(row.asset, raw);
    reply := ConfirmedAt(row, ref, txid, raw);
    hide SomeTxid, Text.Strip;
    AnswerOverdraws(cfg, chain, s, w, ref, txid, raw);
  }

  // ----- runs in which no actual fee exceeds its estimate

  ghost predicate NoAdjustment(l: seq<Entry>) {
    forall i :: 0 <= i < |l| ==> l[i].entryType != WITHDRAWAL_NETWORK_FEE_ADJUSTMENT
  }

  /** No stored fee is above its estimate, and no adjustment was ever booked. */
  ghost predicate NoOverage(s: Snapshot) {
    (forall w :: 0 <= w < |s.withdrawals| ==> RowModest(s.withdrawals[w])) && NoAdjustment(s.ledger)
  }

  predicate RowModest(row: WithdrawalRow) {
    row.actualFee.Some? ==> row.actualFee.value <= row.networkFee
  }

  /** The answer an operation carries reports no fee above the estimate of the row it is about. */
  predicate Modest(s: Snapshot, op: Op) {
    match op
    case Execute(w, reply) => w < |s.withdrawals| && reply.Some? ==> ModestFee(s.withdrawals[w], reply.value.fee)
    case Reconcile(w, reply) => w < |s.withdrawals| && reply.Some? ==> ModestFee(s.withdrawals[w], reply.value.fee)
    case _ => true
  }

  predicate ModestFee(row: WithdrawalRow, fee: FeeField) {
    fee.ActualFee? ==> QuantizeAsset(row.asset, fee.raw) <= row.networkFee
  }

  ghost predicate ModestRun(plan: Plan, ops: seq<Op>) {
    forall i :: 0 <= i < |ops| ==> Modest(Run(plan, ops[..i]), ops[i])
  }

  lemma NoAdjustmentMore(l: seq<Entry>, es: seq<Entry>)
    requires NoAdjustment(l) && NoAdjustment(es)
    ensures NoAdjustment(l + es)
  {
  }

  lemma SettleModest(chain: string -> Sighting, s: Snapshot, w: nat, force: bool)
    requires Inv(chain, s) && w < |s.withdrawals| && NoOverage(s)
    ensures NoOverage(Withdrawals.AfterSettle(s, w, force))
  {
    hide LedgerOk, DepositsOk, EscrowsOk, NoUncheckedDebit, QuantizeAsset, Exact, WithdrawalTotalDebit;
    hide WithdrawalPlatformFee, WithdrawalNetworkFee, Withdrawals.ActualFeeOf, Withdrawals.EstimateOf;
    hide WithdrawalFootprint;
    assert WithdrawalOk(s, w);
    hide WithdrawalsOk;
    var row := s.withdrawals[w];
    WithdrawalSteps.SettleAmounts(row);
    hide WithdrawalOk;
    assert RowModest(row);
    var actual, estimate := Withdrawals.ActualFeeOf(row), Withdrawals.EstimateOf(row);
    var es := Withdrawals.NetworkEntries(row, w, actual, actual - estimate);
    assert NoAdjustment(es);
    NoAdjustmentMore(s.ledger, es);
  }

  lemma BookingModest(s: Snapshot, w: nat, txid: string, ref: string)
    requires w < |s.withdrawals| && NoOverage(s)
    ensures NoOverage(WithdrawalSteps.Booking(s, w, txid, ref))
  {
    hide Withdrawals.FeeBooked;
  }

  lemma RecordModest(s: Snapshot, w: nat, key: string, result: ExecutionResult)
    requires w < |s.withdrawals| && NoOverage(s) && ModestFee(s.withdrawals[w], result.fee)
    requires Withdrawals.AfterRecordResult(s, w, key, result).Ok?
    ensures NoOverage(Withdrawals.AfterRecordResult(s, w, key, result).value)
  {
    hide QuantizeAsset;
  }

  lemma ConfirmedModest(chain: string -> Sighting, s: Snapshot, w: nat, txid: string, ref: string)
    requires Inv(chain, s) && w < |s.withdrawals| && NoOverage(s) && Withdrawals.InFlight(s.withdrawals[w].status)
    ensures NoOverage(Withdrawals.AfterConfirmed(s, w, txid, ref)) &&
            NoOverage(Withdrawals.AfterBroadcasted(s, w, txid, ref))
  {
    hide Inv, NoOverage;
    var booking := WithdrawalSteps.Booking(s, w, txid, ref);
    WithdrawalSteps.BookingKeeps(chain, s, w, txid, ref);
    BookingModest(s, w, txid, ref);
    SettleModest(chain, booking, w, false);
    SettleModest(chain, booking, w, true);
    WithdrawalSteps.ConfirmedIsSettled(s, w, txid, ref);
    var settled := Withdrawals.AfterSettle(booking, w, true);
    hide Withdrawals.AfterConfirmed, Withdrawals.AfterSettle;
    StatusModest(settled, w, Confirmed);
  }

  lemma StatusModest(s: Snapshot, w: nat, status: WithdrawalStatus)
    requires w < |s.withdrawals| && NoOverage(s)
    ensures NoOverage(Withdrawals.WithRow(s, w, s.withdrawals[w].(status := status)))
  {
  }

  lemma AcceptedModest(chain: string -> Sighting, s: Snapshot, w: nat, result: ExecutionResult,
                       mapped: SignerRules.Mapped)
    requires Inv(chain, s) && w < |s.withdrawals| && Withdrawals.InFlight(s.withdrawals[w].status)
    requires mapped.Proceed?
    requires NoOverage(s) && ModestFee(s.withdrawals[w], result.fee)
    ensures NoOverage(SignerRules.AfterAccepted(s, w, result, mapped))
  {
    hide QuantizeAsset, Inv;
    var recorded := Withdrawals.AfterRecordResult(s, w, s.withdrawals[w].key, result);
    if recorded.Ok? {
      RecordModest(s, w, s.withdrawals[w].key, result);
      WithdrawalSteps.RecordKeeps(chain, s, w, result);
      hide Withdrawals.AfterRecordResult, Withdrawals.AfterConfirmed, Withdrawals.AfterBroadcasted;
      ConfirmedModest(chain, recorded.value, w, mapped.txid, result.providerRef);
    }
  }

  lemma SignerModest(chain: string -> Sighting, s: Snapshot, w: nat, reply: Option<Body>)
    requires Inv(chain, s) && w < |s.withdrawals| && Withdrawals.InFlight(s.withdrawals[w].status) && NoOverage(s)
    requires reply.Some? ==> ModestFee(s.withdrawals[w], reply.value.fee)
    ensures NoOverage(SignerRules.AfterExecute(s, w, reply)) && NoOverage(SignerRules.AfterReconcile(s, w, reply))
  {
    hide Inv, QuantizeAsset, SignerRules.AfterAccepted;
    if reply.Some? && ParseResult(reply.value).Some? {
      var result := ParseResult(reply.value).value;
      if SignerRules.MapResult(result).Proceed? {
        AcceptedModest(chain, s, w, result, SignerRules.MapResult(result));
      }
    }
  }

  lemma StepModest(cfg: Settings, chain: string -> Sighting, s: Snapshot, op: Op)
    requires Inv(chain, s) && NoOverage(s) && Modest(s, op)
    ensures NoOverage(Step(cfg, s, op))
  {
    hide Inv, ModestFee, Step, RowModest;
    var t := Step(cfg, s, op);
    match op {
      case Execute(w, reply) => SignerStepModest(cfg, chain, s, op);
      case Reconcile(w, reply) => SignerStepModest(cfg, chain, s, op);
      case AdminAction(w, requeue) => AdminModest(cfg, s, op);
      case Request(_, _, _, _, _, _) => RequestModest(cfg, s, op);
      case Accept(_, _) => Lifecycles.EscrowTalks(cfg, s, op);
      case Dispute(_, _) => Lifecycles.EscrowTalks(cfg, s, op);
      case RequestCancel(_, _) => Lifecycles.EscrowTalks(cfg, s, op);
      case RespondCancel(_, _, _) => Lifecycles.EscrowTalks(cfg, s, op);
      case Release(_, _) => Lifecycles.EscrowCloses(cfg, s, op);
      case Cancel(_, _) => Lifecycles.EscrowCloses(cfg, s, op);
      case Resolve(_, _, _) => Lifecycles.EscrowCloses(cfg, s, op);
      case _ => Lifecycles.OtherGrows(cfg, s, op);
    }
  }

  lemma SignerStepModest(cfg: Settings, chain: string -> Sighting, s: Snapshot, op: Op)
    requires Inv(chain, s) && NoOverage(s) && Modest(s, op) && (op.Execute? || op.Reconcile?)
    ensures NoOverage(Step(cfg, s, op))
  {
    hide Inv, ModestFee, NoOverage, SignerRules.AfterExecute, SignerRules.AfterReconcile;
    if op.w < |s.withdrawals| && Withdrawals.InFlight(s.withdrawals[op.w].status) {
      SignerModest(chain, s, op.w, op.reply);
    }
  }

  lemma AdminModest(cfg: Settings, s: Snapshot, op: Op)
    requires NoOverage(s) && op.AdminAction?
    ensures NoOverage(Step(cfg, s, op))
  {
  }

  lemma RequestModest(cfg: Settings, s: Snapshot, op: Op)
    requires NoOverage(s) && op.Request?
    ensures NoOverage(Step(cfg, s, op))
  {
    hide Withdrawals.Refusal, QuantizeAsset;
  }

  lemma NothingOver()
    ensures NoOverage(EMPTY)
  {
  }

  lemma {:induction false} ModestRunNoOverage(plan: Plan, chain: string -> Sighting, ops: seq<Op>)
    requires GoodPlan(plan) && GoodRun(chain, ops) && ModestRun(plan, ops)
    ensures NoOverage(Run(plan, ops))
  {
    hide Inv, Step, Modest, NoOverage, GoodSettings;
    if ops == [] {
      NothingOver();
    } else {
      var n := |ops| - 1;
      assert forall i :: 0 <= i < n ==> ops[..n][i] == ops[i] && ops[..n][..i] == ops[..i];
      ModestRunNoOverage(plan, chain, ops[..n]);
      RunInv(plan, chain, ops[..n]);
      assert Modest(Run(plan, ops[..n]), ops[n]);
      StepModest(plan(n), chain, Run(plan, ops[..n]), ops[n]);
    }
  }

  /** As long as no provider reports a fee above the estimate, no balance is ever negative. */
  lemma NoOverdraft(plan: Plan, chain: string -> Sighting, ops: seq<Op>, user: int, asset: Asset)
    requires GoodPlan(plan) && GoodRun(chain, ops) && ModestRun(plan, ops)
    ensures Balance(Run(plan, ops), user, asset) >= 0.0
  {
    hide Run, ModestRun, Reachable;
    RunReaches(plan, chain, ops);
    BoundedOverdraft(chain, Run(plan, ops), user, asset);
    ModestRunNoOverage(plan, chain, ops);
    SumNone(OfUserOverage(user, asset), Run(plan, ops).ledger);
  }
}
