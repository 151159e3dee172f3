/** Runs under the default settings in which something ends other than one would wish. */
module Witnesses {
  import opened Tables
  import opened LedgerService
  import opened WalletFees
  import opened ProviderReplies
  import opened Custody
  import opened CustodyRuns
  import CustodyEquation
  import Deposits
  import FeeService
  import Lifecycles
  import Overdrafts
  import Rounding
  import Text
  import WithdrawalSteps
  import Withdrawals

  function NetworkFee(asset: Asset): real {
    match asset
    case BTC => 0.00002
    case LTC => 0.0001
    case ETH => 0.0005
    case USDT => 3.0
    case SOL => 0.000005
  }

  function FallbackPrice(asset: Asset): real {
    match asset
    case BTC => 30000.0
    case LTC => 50.0
    case ETH => 1500.0
    case USDT => 1.0
    case SOL => 100.0
  }

  predicate AnyAddress(asset: Asset, address: string) {
    true
  }

  /** The defaults of config/settings.py and the fee tables, with withdrawals switched on. */
  const DEFAULTS :=
        Settings(3.0, 1.0, 1.0, NetworkFee, FallbackPrice, FallbackPrice, 10.0, 5000.0, 30, true, {}, AnyAddress)

  /** The chain shows one payment of 1 ETH to user 1 under every key. */
  function Paid(key: string): Sighting {
    Sighting(1, ETH, 1.0)
  }

  lemma DefaultsGood()
    ensures GoodSettings(DEFAULTS)
  {
  }

  lemma OnEthGrid(amount: real, n: int)
    requires amount == Rounding.Multiple(n, 0.00000001)
    ensures QuantizeAsset(ETH, amount) == amount
  {
    Rounding.RoundOnGrid(amount, 0.00000001);
  }

  // ----- one credited deposit and one tenant

  function Funded(): Snapshot {
    Step(DEFAULTS, Step(DEFAULTS, EMPTY, SetTenant(7, 9, 0.0)), Credit(Sighting(1, ETH, 1.0), "k", 12, true))
  }

  lemma NetDeposit()
    ensures QuantizeAsset(ETH, 1.0) == 1.0 && DepositNetCredit(DEFAULTS, ETH, 1.0) == 0.99
    ensures DepositPlatformFee(DEFAULTS, ETH, 1.0) == 0.01
  {
    OnEthGrid(1.0, 100000000);
    OnEthGrid(0.01, 1000000);
    OnEthGrid(0.99, 99000000);
  }

  lemma FundedState()
    ensures Reachable(Paid, Funded())
    ensures var s := Funded();
            && s.tenants == map[7 := Tenant(9, 0.0)] && Balance(s, 1, ETH) == 0.99
            && s.escrows == [] && s.locks == map[] && s.disputes == [] && s.withdrawals == [] && s.frozen == {}
  {
    hide QuantizeAsset, DepositNetCredit, DepositPlatformFee;
    NetDeposit();
    EmptyReachable(DEFAULTS, Paid);
    var s0 := Step(DEFAULTS, EMPTY, SetTenant(7, 9, 0.0));
    OneMoreOp(DEFAULTS, Paid, EMPTY, SetTenant(7, 9, 0.0));
    OneMoreOp(DEFAULTS, Paid, s0, Credit(Sighting(1, ETH, 1.0), "k", 12, true));
    var es := Deposits.CreditEntries(1, ETH, 0.99, 0.01, 0);
    assert Funded().ledger == es;
    SumFew(OfUser(1, ETH), es);
  }

  // ----- an escrow that pays out less than it locked

  const AMOUNT := 0.12345678

  function Released(): Snapshot {
    Step(DEFAULTS, Step(DEFAULTS, Step(DEFAULTS, Funded(), Create(7, 1, 2, ETH, AMOUNT, "goods")), Accept(0, 2)),
         Release(0, 1))
  }

  lemma CentsOfAmount()
    ensures FeeService.Money(AMOUNT) == 0.12
  {
    assert 0.12 == Rounding.Multiple(12, 0.01);
    Rounding.HalfUpIff(AMOUNT, 0.01, 0.12);
  }

  lemma ReleasedState()
    ensures Reachable(Paid, Released())
    ensures var s := Released();
            && |s.escrows| == 1 && s.escrows[0] == EscrowRow(7, 1, 2, ETH, AMOUNT, Completed) && s.disputes == []
  {
    hide FeeService.Money, FeeService.Share, Funded, Reachable, Sum;
    FundedState();
    assert Text.Strip("goods") == "goods";
    var s0, create := Funded(), Create(7, 1, 2, ETH, AMOUNT, "goods");
    var s1 := Step(DEFAULTS, s0, create);
    OneMoreOp(DEFAULTS, Paid, s0, create);
    OneMoreOp(DEFAULTS, Paid, s1, Accept(0, 2));
    OneMoreOp(DEFAULTS, Paid, Step(DEFAULTS, s1, Accept(0, 2)), Release(0, 1));
  }

  /** 0.12345678 ETH go into the escrow and 0.12 ETH come out. */
  lemma EscrowDrift()
    ensures Reachable(Paid, Released())
    ensures var s := Released();
            |s.escrows| == 1 && s.escrows[0].status == Completed && Sum(OfRow(EscrowRef, 0), s.ledger) == -0.00345678
  {
    hide Released, Reachable, FeeService.Money;
    ReleasedState();
    CentsOfAmount();
    CustodyEquation.EscrowConserves(Paid, Released(), 0);
  }

  // ----- a withdrawal that is requested

  function Requested(amount: real): Snapshot {
    Step(DEFAULTS, Funded(), Request(1, ETH, amount, "address", "d", 0))
  }

  lemma RequestedState(amount: real)
    requires 0.01 <= amount <= 0.5
    ensures Reachable(Paid, Requested(amount))
    ensures var s := Requested(amount);
            && |s.withdrawals| == 1 &&
               s.withdrawals[0] == Withdrawals.NewRow(DEFAULTS, 0, 1, ETH, amount, "address", "d", 0)
            && Withdrawals.NetworkBooked(s, 0) == 0
  {
    hide Funded, Reachable, Sum, Withdrawals.BuildIdempotencyKey, Withdrawals.NetworkBooked, QuantizeAsset;
    FundedState();
    var s0, request := Funded(), Request(1, ETH, amount, "address", "d", 0);
    QuantizeWithin(ETH, amount * 1.0 / 100.0);
    QuantizeWithin(ETH, 0.0005);
    QuantizeWithin(ETH, amount + WithdrawalPlatformFee(DEFAULTS, ETH, amount) + WithdrawalNetworkFee(DEFAULTS, ETH));
    assert 10.0 == Rounding.Multiple(1000, 0.01);
    Rounding.RoundOnGrid(10.0, 0.01);
    assert Withdrawals.Refusal(DEFAULTS, s0, 1, ETH, amount, "address", 0).None?;
    OneMoreOp(DEFAULTS, Paid, s0, request);
    NothingSettled(Requested(amount), 0);
  }

  /** A pending row without a recorded fee has nothing settled: settling needs an answer. */
  lemma NothingSettled(s: Snapshot, w: nat)
    requires Reachable(Paid, s) && w < |s.withdrawals| && !s.withdrawals[w].settled
    ensures Withdrawals.NetworkBooked(s, w) == 0
  {
    hide Reachable, LedgerOk, DepositsOk, EscrowsOk, NoUncheckedDebit, Withdrawals.NetworkBooked;
    DefaultsGood();
    ReachableInv(Paid, s);
    assert WithdrawalOk(s, w);
  }

  /** A withdrawal of 0.123456785 ETH is confirmed, and its entries do not add up to its amount. */
  lemma OffGridCost() returns (s: Snapshot)
    ensures Reachable(Paid, s)
    ensures |s.withdrawals| == 1 && s.withdrawals[0].status == Confirmed && s.withdrawals[0].amount == 0.123456785
    ensures Sum(OfRow(WithdrawalRef, 0), s.ledger) != -0.123456785
  {
    hide Requested, Reachable, Step, Overdrafts.SomeTxid, Withdrawals.NetworkBooked, Withdrawals.TxidSane;
    var asked, txid := Requested(0.123456785), Overdrafts.SomeTxid(ETH);
    DefaultsGood();
    RequestedState(0.123456785);
    Overdrafts.SomeTxidSane(ETH);
    assert Text.Strip("r") == "r";
    var op := Overdrafts.Answer(asked, 0, Overdrafts.ConfirmedAt(asked.withdrawals[0], "r", txid, 0.0005));
    Overdrafts.AnswerOverdraws(DEFAULTS, Paid, asked, 0, "r", txid, 0.0005);
    Lifecycles.WithdrawalGrows(DEFAULTS, asked, op);
    OneMoreOp(DEFAULTS, Paid, asked, op);
    s := Step(DEFAULTS, asked, op);
    CustodyEquation.WithdrawalConserves(Paid, s, 0);
    OffGrid();
  }

  lemma OffGrid()
    ensures !Exact(ETH, 0.123456785)
  {
    forall n: int ensures 0.123456785 != Rounding.Multiple(n, 0.00000001) {
    }
  }

  /** A first answer to a plain request can leave the user with a negative balance. */
  lemma NegativeBalance() returns (s: Snapshot)
    ensures Reachable(Paid, s) && Balance(s, 1, ETH) < 0.0
  {
    hide Requested, Reachable, Step, Withdrawals.NetworkBooked;
    var asked := Requested(0.1);
    DefaultsGood();
    RequestedState(0.1);
    var reply := Overdrafts.AnyRowOverdraws(DEFAULTS, Paid, asked, 0);
    OneMoreOp(DEFAULTS, Paid, asked, Overdrafts.Answer(asked, 0, reply));
    s := Step(DEFAULTS, asked, Overdrafts.Answer(asked, 0, reply));
  }

  // ----- a broadcast row that an admin fails

  function BroadcastAt(row: WithdrawalRow, ref: string, txid: string, raw: real): Body {
    Body(StBroadcasted, KnownAsset(row.asset), ref, txid, ActualFee(raw))
  }

  /** The answer says broadcasted, the next reconcile request is lost, and an admin fails the row. */
  function BroadcastRetryFail(cfg: Settings, s: Snapshot, w: nat, reply: Body): Snapshot {
    Step(cfg, Step(cfg, Step(cfg, s, Execute(w, Some(reply))), Reconcile(w, None)), AdminAction(w, false))
  }

  lemma BroadcastStep(cfg: Settings, s: Snapshot, w: nat, ref: string, txid: string, raw: real)
    requires w < |s.withdrawals| && s.withdrawals[w].status == WPending && s.withdrawals[w].key != ""
    requires Overdrafts.Acceptable(s, w, ref, txid, raw)
    ensures var row := s.withdrawals[w];
            var result := ExecutionResult(StBroadcasted, Some(row.asset), ref, txid, ActualFee(raw));
            var recorded := Withdrawals.AfterRecordResult(s, w, row.key, result);
            && recorded.Ok?
            && recorded.value ==
               Withdrawals.WithRow(s, w, row.(providerRef := ref, actualFee := Some(QuantizeAsset(row.asset, raw))))
            && Step(cfg, s, Execute(w, Some(BroadcastAt(row, ref, txid, raw)))) ==
               Withdrawals.AfterBroadcasted(recorded.value, w, txid, ref)
  {
    hide QuantizeAsset, Withdrawals.TxidSane, Withdrawals.RefTaken, Withdrawals.AfterBroadcasted;
    assert ParseResult(BroadcastAt(s.withdrawals[w], ref, txid, raw)) ==
           Some(ExecutionResult(StBroadcasted, Some(s.withdrawals[w].asset), ref, txid, ActualFee(raw)));
  }

  /** A broadcast with a reported fee books the platform fee and settles the network fee. */
  lemma BroadcastBooks(chain: string -> Sighting, s: Snapshot, w: nat, txid: string, ref: string)
    requires Inv(chain, s) && w < |s.withdrawals| && Withdrawals.InFlight(s.withdrawals[w].status)
    requires Withdrawals.NetworkBooked(s, w) == 0 && s.withdrawals[w].actualFee.Some?
    ensures var row, t := s.withdrawals[w], Withdrawals.AfterBroadcasted(s, w, txid, ref);
            && w < |t.withdrawals| && t.withdrawals[w].settled && t.withdrawals[w].status == Broadcasted
            && (Withdrawals.FeeBooked(t, w) || row.platformFee == 0.0)
  {
    hide Inv, Withdrawals.NetworkBooked, Withdrawals.FeeBooked, Withdrawals.AfterBookFee, QuantizeAsset;
    hide Withdrawals.NetworkEntries;
    var booking := WithdrawalSteps.Booking(s, w, txid, ref);
    WithdrawalSteps.BookFeeKeepsRows(s, w);
    WithdrawalSteps.BookingKeeps(chain, s, w, txid, ref);
    Overdrafts.BookingKeepsBalance(s, w, txid, ref);
    WithdrawalSteps.SettleKeepsFee(booking, w);
  }

  /** Retrying and failing a row releases the funds and leaves everything else booked for it in place. */
  lemma RetryFail(cfg: Settings, t: Snapshot, w: nat)
    requires w < |t.withdrawals| && t.withdrawals[w].status == Broadcasted
    ensures var row := t.withdrawals[w];
            var end := Step(cfg, Step(cfg, t, Reconcile(w, None)), AdminAction(w, false));
            && |end.withdrawals| == |t.withdrawals| && end.withdrawals[w] == row.(status := Failed, txid := None)
            && (Withdrawals.FeeBooked(t, w) ==> Withdrawals.FeeBooked(end, w))
  {
    hide Withdrawals.FeeBooked, Withdrawals.ReleaseTotal;
    var retried := Withdrawals.AfterSignerRetry(t, w);
    BookedAfterFailure(retried, w);
    assert Withdrawals.FeeBooked(retried, w) == Withdrawals.FeeBooked(t, w) by {
      SameLedgerSameFee(t, retried, w);
    }
  }

  lemma SameLedgerSameFee(s: Snapshot, t: Snapshot, w: nat)
    requires s.ledger == t.ledger
    ensures Withdrawals.FeeBooked(s, w) == Withdrawals.FeeBooked(t, w)
    ensures Withdrawals.NetworkBooked(s, w) == Withdrawals.NetworkBooked(t, w)
  {
  }

  lemma BookedAfterFailure(s: Snapshot, w: nat)
    requires w < |s.withdrawals|
    ensures Withdrawals.FeeBooked(s, w) ==> Withdrawals.FeeBooked(Withdrawals.AfterFailed(s, w), w)
  {
    var t := Withdrawals.AfterFailed(s, w);
    WithdrawalSteps.EntryCounts(s.ledger, t.ledger[|s.ledger|], w);
    hide Count;
  }

  /**
   In every reachable state: a pending row that is broadcast with a reported fee, sent to signer_retry and failed by
   an admin gives everything back to the user, and the platform and network fees stay booked on top of that.
   */
  lemma FailedKeepsFees(cfg: Settings, chain: string -> Sighting, s: Snapshot, w: nat, ref: string, txid: string,
                        raw: real)
    requires GoodSettings(cfg) && Reachable(chain, s) && w < |s.withdrawals|
    requires s.withdrawals[w].status == WPending && Withdrawals.NetworkBooked(s, w) == 0
    requires Overdrafts.Acceptable(s, w, ref, txid, raw)
    ensures var row := s.withdrawals[w];
            var end := BroadcastRetryFail(cfg, s, w, BroadcastAt(row, ref, txid, raw));
            var left := Sum(OfRow(WithdrawalRef, w), end.ledger) - (row.platformFee + row.networkFee);
            && Reachable(chain, end) && w < |end.withdrawals| && end.withdrawals[w].status == Failed
            && -Quantum(row.asset) / 2.0 <= left <= Quantum(row.asset) / 2.0
            && (left == 0.0 <==> Exact(row.asset, row.amount))
  {
    hide Reachable, Overdrafts.Acceptable, Step, QuantizeAsset, LedgerOk, DepositsOk, EscrowsOk, NoUncheckedDebit;
    hide WithdrawalOk, Withdrawals.AfterBroadcasted, Withdrawals.NetworkBooked, Withdrawals.FeeBooked, Exact, Quantum;
    ReachableInv(chain, s);
    WithdrawalSteps.RowFine(s, w);
    hide WithdrawalsOk;
    var row := s.withdrawals[w];
    var op := Execute(w, Some(BroadcastAt(row, ref, txid, raw)));
    BroadcastStep(cfg, s, w, ref, txid, raw);
    var result := ExecutionResult(StBroadcasted, Some(row.asset), ref, txid, ActualFee(raw));
    hide Inv, Withdrawals.AfterRecordResult;
    WithdrawalSteps.RecordKeeps(chain, s, w, result);
    SameLedgerSameFee(s, Withdrawals.AfterRecordResult(s, w, row.key, result).value, w);
    BroadcastBooks(chain, Withdrawals.AfterRecordResult(s, w, row.key, result).value, w, txid, ref);
    var t := Step(cfg, s, op);
    Lifecycles.WithdrawalGrows(cfg, s, op);
    RetryFail(cfg, t, w);
    OneMoreOp(cfg, chain, s, op);
    OneMoreOp(cfg, chain, t, Reconcile(w, None));
    OneMoreOp(cfg, chain, Step(cfg, t, Reconcile(w, None)), AdminAction(w, false));
    CustodyEquation.WithdrawalConserves(chain, BroadcastRetryFail(cfg, s, w, BroadcastAt(row, ref, txid, raw)), w);
  }

  /** Under the default settings: 0.1 ETH are given back, and 0.0015 ETH of fees stay booked from nowhere. */
  lemma FeesOfFailedRow() returns (s: Snapshot)
    ensures Reachable(Paid, s) && |s.withdrawals| == 1 && s.withdrawals[0].status == Failed
    ensures s.withdrawals[0].amount == 0.1 && Sum(OfRow(WithdrawalRef, 0), s.ledger) == 0.0015
  {
    hide Requested, Reachable, Step, Overdrafts.SomeTxid, Withdrawals.NetworkBooked, Withdrawals.TxidSane;
    hide QuantizeAsset;
    var asked, txid := Requested(0.1), Overdrafts.SomeTxid(ETH);
    DefaultsGood();
    RequestedState(0.1);
    Overdrafts.SomeTxidSane(ETH);
    assert Text.Strip("r") == "r";
    OnEthGrid(0.1, 10000000);
    OnEthGrid(0.001, 100000);
    OnEthGrid(0.0005, 50000);
    var row := asked.withdrawals[0];
    var reply := BroadcastAt(row, "r", txid, 0.0005);
    s := BroadcastRetryFail(DEFAULTS, asked, 0, reply);
    FailedKeepsFees(DEFAULTS, Paid, asked, 0, "r", txid, 0.0005);
    SameRows(DEFAULTS, asked, 0, reply);
    assert Exact(ETH, 0.1) by {
      assert 0.1 == Rounding.Multiple(10000000, 0.00000001);
    }
  }

  lemma SameRows(cfg: Settings, s: Snapshot, w: nat, reply: Body)
    requires w < |s.withdrawals|
    ensures var end := BroadcastRetryFail(cfg, s, w, reply);
            |end.withdrawals| == |s.withdrawals| && end.withdrawals[w].amount == s.withdrawals[w].amount
  {
    hide Step;
    var t := Step(cfg, s, Execute(w, Some(reply)));
    var retried := Step(cfg, t, Reconcile(w, None));
    Lifecycles.WithdrawalGrows(cfg, s, Execute(w, Some(reply)));
    Lifecycles.WithdrawalGrows(cfg, t, Reconcile(w, None));
    Lifecycles.WithdrawalGrows(cfg, retried, AdminAction(w, false));
  }
}
