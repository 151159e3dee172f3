/** Who may withdraw, over whole runs: which requests get a row, and what every row was granted for. */
module Requests {
  import opened Tables
  import opened LedgerService
  import opened WalletFees
  import opened Custody
  import DailyCap
  import EscrowTable
  import Lifecycles
  import Rounding
  import Withdrawals

  /** The user's account is frozen after these operations: the last word of an admin about it was to freeze it. */
  predicate FrozenBy(ops: seq<Op>, user: int) {
    if ops == [] then false
    else
      var n := |ops| - 1;
      if ops[n].SetFrozen? && ops[n].account == user then ops[n].isFrozen else FrozenBy(ops[..n], user)
  }

  /** v is the user's latest withdrawal. */
  predicate Latest(rows: seq<WithdrawalRow>, v: nat, user: int) {
    v < |rows| && rows[v].user == user && forall x :: v < x < |rows| ==> rows[x].user != user
  }

  function Usd(cfg: Settings, asset: Asset, amount: real): real {
    amount * cfg.price(asset)
  }

  /** What the user's withdrawals since a time are worth that are not confirmed and have not failed. */
  function Outstanding(cfg: Settings, rows: seq<WithdrawalRow>, user: int, since: int): real {
    if rows == [] then 0.0
    else
      var row := rows[|rows| - 1];
      Outstanding(cfg, rows[..|rows| - 1], user, since) +
      if row.user == user && row.status !in {Confirmed, Failed} && row.createdAt >= since
      then Usd(cfg, row.asset, row.amount) else 0.0
  }

  function AtLeastZero(x: real): real {
    if x < 0.0 then 0.0 else x
  }

  function PlatformFee(cfg: Settings, asset: Asset, amount: real): real {
    AtLeastZero(Rounding.RoundHalfUp(EscrowTable.Percent(amount, cfg.withdrawalPct), Quantum(asset)))
  }

  function NetworkFee(cfg: Settings, asset: Asset): real {
    Rounding.RoundHalfUp(AtLeastZero(cfg.networkFee(asset)), Quantum(asset))
  }

  /** What a request takes from the balance. */
  function Reserve(cfg: Settings, asset: Asset, amount: real): real {
    Rounding.RoundHalfUp(amount + PlatformFee(cfg, asset, amount) + NetworkFee(cfg, asset), Quantum(asset))
  }

  /** The user's latest withdrawal, if there is one, is at least the interval old. */
  predicate Rested(rows: seq<WithdrawalRow>, user: int, now: int, interval: int) {
    forall v :: 0 <= v < |rows| && Latest(rows, v, user) ==> now - rows[v].createdAt >= interval
  }

  /** Everything a request has to meet, after the operations before it. */
  predicate Allowed(cfg: Settings, before: seq<Op>, s: Snapshot, op: Op)
    requires op.Request?
  {
    var usd := Usd(cfg, op.asset, op.amount);
    && cfg.withdrawalsEnabled
    && op.amount > 0.0
    && cfg.validAddress(op.asset, op.destination)
    && !FrozenBy(before, op.user)
    && (cfg.minInterval > 0 ==> Rested(s.withdrawals, op.user, op.now, cfg.minInterval))
    && cfg.minWithdrawalUsd > 0.0 && usd >= EscrowTable.Cents(cfg.minWithdrawalUsd)
    && Outstanding(cfg, s.withdrawals, op.user, op.now - 24 * 60 * 60) + usd <= cfg.dailyLimit
    && EscrowTable.Held(s, User(op.user), op.asset) >= Reserve(cfg, op.asset, op.amount)
  }

  /** The row repeats the request, is pending and has its fees; nothing is known of it yet at the provider. */
  predicate RowFor(cfg: Settings, row: WithdrawalRow, op: Op)
    requires op.Request?
  {
    && row.user == op.user && row.asset == op.asset && row.amount == op.amount
    && row.destination == op.destination && row.createdAt == op.now
    && row.platformFee == PlatformFee(cfg, op.asset, op.amount) && row.networkFee == NetworkFee(cfg, op.asset)
    && row.status == WPending && row.txid.None? && row.providerRef == "" && row.actualFee.None? && !row.settled
  }

  // ----- the parts

  /** The stored set of frozen accounts is what the admins last said. */
  lemma {:induction false} FrozenIff(plan: Plan, ops: seq<Op>, user: int)
    ensures user in Run(plan, ops).frozen <==> FrozenBy(ops, user)
  {
    if ops != [] {
      var n := |ops| - 1;
      FrozenIff(plan, ops[..n], user);
      if !ops[n].SetFrozen? {
        Lifecycles.AdminTablesKept(plan(n), Run(plan, ops[..n]), ops[n]);
        hide Step;
      }
    }
  }

  lemma {:induction false} LatestIs(rows: seq<WithdrawalRow>, user: int)
    ensures var last := Withdrawals.LastRequestAt(rows, user);
            && (last.None? ==> forall v :: 0 <= v < |rows| ==> rows[v].user != user)
            && (last.Some? ==> exists v: nat :: Latest(rows, v, user) && rows[v].createdAt == last.value)
  {
    if rows != [] {
      var n := |rows| - 1;
      LatestIs(rows[..n], user);
      assert forall x :: 0 <= x < n ==> rows[..n][x] == rows[x];
      var last := Withdrawals.LastRequestAt(rows, user);
      if rows[n].user == user {
        assert Latest(rows, n, user);
      } else if last.Some? {
        var v: nat :| Latest(rows[..n], v, user) && rows[..n][v].createdAt == last.value;
        assert Latest(rows, v, user);
      }
    }
  }

  lemma LatestIff(rows: seq<WithdrawalRow>, user: int, now: int, interval: int)
    ensures var last := Withdrawals.LastRequestAt(rows, user);
            Rested(rows, user, now, interval) <==> !(last.Some? && now - last.value < interval)
  {
    hide Withdrawals.LastRequestAt;
    LatestIs(rows, user);
    var last := Withdrawals.LastRequestAt(rows, user);
    if last.Some? {
      var v: nat :| Latest(rows, v, user) && rows[v].createdAt == last.value;
      assert forall x :: 0 <= x < |rows| && Latest(rows, x, user) ==> x == v;
    }
  }

  lemma {:induction false} OutstandingIs(cfg: Settings, rows: seq<WithdrawalRow>, user: int, since: int)
    ensures Withdrawals.WithdrawnUsd(cfg, rows, user, since) == Outstanding(cfg, rows, user, since)
  {
    if rows != [] {
      OutstandingIs(cfg, rows[..|rows| - 1], user, since);
    }
  }

  lemma FeesAre(cfg: Settings, asset: Asset, amount: real)
    ensures WithdrawalPlatformFee(cfg, asset, amount) == PlatformFee(cfg, asset, amount)
    ensures WithdrawalNetworkFee(cfg, asset) == NetworkFee(cfg, asset)
    ensures WithdrawalTotalDebit(cfg, asset, amount) == Reserve(cfg, asset, amount)
  {
    hide Rounding.RoundHalfUp, Quantum;
  }

  lemma UsdIs(cfg: Settings, asset: Asset, amount: real)
    ensures Withdrawals.UsdValue(cfg, asset, amount) == Usd(cfg, asset, amount)
    ensures Withdrawals.MinimumUsd(cfg) == EscrowTable.Cents(cfg.minWithdrawalUsd)
  {
  }

  lemma RefusalIff(plan: Plan, cfg: Settings, ops: seq<Op>, op: Op)
    requires op.Request?
    ensures var s := Run(plan, ops);
            Withdrawals.Refusal(cfg, s, op.user, op.asset, op.amount, op.destination, op.now).None? <==>
            Allowed(cfg, ops, s, op)
  {
    hide Run, FrozenBy, Outstanding, Rested, Reserve, EscrowTable.Held, WithdrawalTotalDebit, Balance, Usd;
    hide Withdrawals.WithdrawnUsd, Withdrawals.LastRequestAt, Withdrawals.UsdValue, Withdrawals.MinimumUsd;
    hide EscrowTable.Cents;
    var s := Run(plan, ops);
    FrozenIff(plan, ops, op.user);
    LatestIff(s.withdrawals, op.user, op.now, cfg.minInterval);
    OutstandingIs(cfg, s.withdrawals, op.user, op.now - 24 * 60 * 60);
    FeesAre(cfg, op.asset, op.amount);
    UsdIs(cfg, op.asset, op.amount);
    EscrowTable.HeldIsBalance(s, op.user, op.asset);
  }

  // ----- one request

  /**
   After any run and under any settings, a request is granted exactly when it is allowed: then it gets a row with its
   fees and only the user's balance moves, by the reserve. A request that is not allowed changes nothing.
   */
  lemma RequestIff(plan: Plan, cfg: Settings, ops: seq<Op>, op: Op, account: Account, asset: Asset)
    requires op.Request?
    ensures var s, t := Run(plan, ops), Step(cfg, Run(plan, ops), op);
            if Allowed(cfg, ops, s, op)
            then
              && |t.withdrawals| == |s.withdrawals| + 1 && t.withdrawals[..|s.withdrawals|] == s.withdrawals
              && RowFor(cfg, t.withdrawals[|s.withdrawals|], op)
              && EscrowTable.Held(t, account, asset) == EscrowTable.Held(s, account, asset) -
                 if account == User(op.user) && asset == op.asset then Reserve(cfg, op.asset, op.amount) else 0.0
            else t == s
  {
    hide Run, Allowed, Withdrawals.Refusal, Sum, PlatformFee, NetworkFee, Reserve, Withdrawals.BuildIdempotencyKey;
    hide WithdrawalPlatformFee, WithdrawalNetworkFee, WithdrawalTotalDebit;
    var s, t := Run(plan, ops), Step(cfg, Run(plan, ops), op);
    RefusalIff(plan, cfg, ops, op);
    FeesAre(cfg, op.asset, op.amount);
    if Allowed(cfg, ops, s, op) {
      var entry := Withdrawals.ReserveEntry(cfg, |s.withdrawals|, op.user, op.asset, op.amount);
      EscrowTable.HeldAfter(s, t, [entry], account, asset);
      EscrowTable.LockGives(entry, account, asset);
    }
  }

  // ----- runs

  /** The operations of the run that were granted a row, in order. */
  function Grants(plan: Plan, ops: seq<Op>): seq<nat> {
    if ops == [] then []
    else
      var n := |ops| - 1;
      Grants(plan, ops[..n]) + if Granted(plan, ops, n) then [n] else []
  }

  predicate Granted(plan: Plan, ops: seq<Op>, i: nat) {
    i < |ops| && ops[i].Request? && Allowed(plan(i), ops[..i], Run(plan, ops[..i]), ops[i])
  }

  /** A row as it was requested; status, ids and fees change later. */
  predicate Ordered(row: WithdrawalRow, op: Op) {
    && op.Request? && row.user == op.user && row.asset == op.asset && row.amount == op.amount
    && row.destination == op.destination && row.createdAt == op.now
  }

  ghost predicate RowsMatch(plan: Plan, ops: seq<Op>, rows: seq<WithdrawalRow>) {
    var grants := Grants(plan, ops);
    && |rows| == |grants|
    && forall w :: 0 <= w < |rows| ==>
         grants[w] < |ops| && Granted(plan, ops, grants[w]) && Ordered(rows[w], ops[grants[w]])
  }

  lemma GrantedLonger(plan: Plan, ops: seq<Op>, i: nat)
    requires ops != [] && i < |ops| - 1
    ensures Granted(plan, ops[..|ops| - 1], i) <==> Granted(plan, ops, i)
    ensures ops[..|ops| - 1][i] == ops[i]
  {
    assert ops[..|ops| - 1][..i] == ops[..i];
  }

  lemma MatchOther(plan: Plan, ops: seq<Op>)
    requires ops != [] && !ops[|ops| - 1].Request?
    requires RowsMatch(plan, ops[..|ops| - 1], Run(plan, ops[..|ops| - 1]).withdrawals)
    ensures RowsMatch(plan, ops, Run(plan, ops).withdrawals)
  {
    hide Step, Allowed;
    var n := |ops| - 1;
    var s, t := Run(plan, ops[..n]), Run(plan, ops);
    DailyCap.OthersFade(plan(n), s, ops[n]);
    var grants := Grants(plan, ops[..n]);
    assert Grants(plan, ops) == grants;
    hide Run, Grants, Granted;
    forall w | 0 <= w < |t.withdrawals|
      ensures grants[w] < |ops| && Granted(plan, ops, grants[w]) && Ordered(t.withdrawals[w], ops[grants[w]])
    {
      GrantedLonger(plan, ops, grants[w]);
      assert DailyCap.Fades(s.withdrawals[w], t.withdrawals[w]);
    }
  }

  /** What a request does to the rows. */
  lemma RequestRows(plan: Plan, cfg: Settings, ops: seq<Op>, op: Op)
    requires op.Request?
    ensures var before, after := Run(plan, ops).withdrawals, Step(cfg, Run(plan, ops), op).withdrawals;
            if Allowed(cfg, ops, Run(plan, ops), op)
            then |after| == |before| + 1 && after == before + [after[|before|]] && Ordered(after[|before|], op)
            else after == before
    ensures Allowed(cfg, ops, Run(plan, ops), op) ==> !FrozenBy(ops, op.user)
    ensures Allowed(cfg, ops, Run(plan, ops), op) && cfg.minInterval > 0 ==>
              Rested(Run(plan, ops).withdrawals, op.user, op.now, cfg.minInterval)
  {
    RequestIff(plan, cfg, ops, op, PlatformRevenue, ETH);
    hide Run, Step, EscrowTable.Held, Rested, FrozenBy;
    if Allowed(cfg, ops, Run(plan, ops), op) {
      var before, after := Run(plan, ops).withdrawals, Step(cfg, Run(plan, ops), op).withdrawals;
      assert after == after[..|before|] + [after[|before|]];
    }
  }

  lemma MatchRequest(plan: Plan, ops: seq<Op>)
    requires ops != [] && ops[|ops| - 1].Request?
    requires RowsMatch(plan, ops[..|ops| - 1], Run(plan, ops[..|ops| - 1]).withdrawals)
    ensures RowsMatch(plan, ops, Run(plan, ops).withdrawals)
  {
    hide Step, Allowed, Ordered;
    var n := |ops| - 1;
    var s, t := Run(plan, ops[..n]), Run(plan, ops);
    RequestRows(plan, plan(n), ops[..n], ops[n]);
    var grants, all := Grants(plan, ops[..n]), Grants(plan, ops);
    assert all == grants + if Granted(plan, ops, n) then [n] else [];
    assert Granted(plan, ops, n) <==> Allowed(plan(n), ops[..n], s, ops[n]);
    hide Run, Grants, Granted;
    forall w | 0 <= w < |s.withdrawals|
      ensures grants[w] < |ops| && Granted(plan, ops, grants[w]) && Ordered(t.withdrawals[w], ops[grants[w]])
    {
      GrantedLonger(plan, ops, grants[w]);
      assert t.withdrawals[w] == s.withdrawals[w];
    }
  }

  /** The withdrawals of a run are its granted requests, one row each and in order. */
  lemma {:induction false} RowsGranted(plan: Plan, ops: seq<Op>)
    ensures RowsMatch(plan, ops, Run(plan, ops).withdrawals)
  {
    hide RowsMatch, Step;
    if ops == [] {
      NoRows(plan);
    } else {
      RowsGranted(plan, ops[..|ops| - 1]);
      if ops[|ops| - 1].Request? {
        MatchRequest(plan, ops);
      } else {
        MatchOther(plan, ops);
      }
    }
  }

  lemma NoRows(plan: Plan)
    ensures RowsMatch(plan, [], EMPTY.withdrawals)
  {
  }

  lemma {:induction false} StaysFrozen(ops: seq<Op>, more: seq<Op>, user: int)
    requires FrozenBy(ops, user) && forall i :: 0 <= i < |more| ==> more[i] != SetFrozen(user, false)
    ensures FrozenBy(ops + more, user)
  {
    if more == [] {
      assert ops + more == ops;
    } else {
      var n := |more| - 1;
      assert (ops + more)[..|ops| + n] == ops + more[..n];
      StaysFrozen(ops, more[..n], user);
    }
  }

  /** So no row of a user is added between freezing and unfreezing that user. */
  lemma {:induction false} NoneWhileFrozen(plan: Plan, ops: seq<Op>, more: seq<Op>, user: int)
    requires FrozenBy(ops, user)
    requires forall i :: 0 <= i < |more| ==> more[i] != SetFrozen(user, false)
    ensures var before, rows := Run(plan, ops).withdrawals, Run(plan, ops + more).withdrawals;
            |before| <= |rows| && forall w :: |before| <= w < |rows| ==> rows[w].user != user
  {
    hide Step, FrozenBy, Allowed;
    if more == [] {
      assert ops + more == ops;
    } else {
      var n := |more| - 1;
      var all, shorter := ops + more, ops + more[..n];
      assert all[..|all| - 1] == shorter && all[|all| - 1] == more[n];
      NoneWhileFrozen(plan, ops, more[..n], user);
      StaysFrozen(ops, more[..n], user);
      var s, t := Run(plan, shorter), Run(plan, all);
      assert t == Step(plan(|shorter|), s, more[n]);
      hide Run;
      if more[n].Request? {
        RequestRows(plan, plan(|shorter|), shorter, more[n]);
      } else {
        DailyCap.OthersFade(plan(|shorter|), s, more[n]);
        forall w | |Run(plan, ops).withdrawals| <= w < |t.withdrawals| ensures t.withdrawals[w].user != user {
          assert DailyCap.Fades(s.withdrawals[w], t.withdrawals[w]);
        }
      }
    }
  }

  /** Two consecutive withdrawals of one user. */
  predicate Consecutive(rows: seq<WithdrawalRow>, v: nat, x: nat) {
    v < x < |rows| && rows[v].user == rows[x].user && forall y :: v < y < x ==> rows[y].user != rows[x].user
  }

  ghost predicate Spaced(rows: seq<WithdrawalRow>, interval: int) {
    forall v: nat, x: nat :: Consecutive(rows, v, x) ==> rows[x].createdAt - rows[v].createdAt >= interval
  }

  lemma SpacedFades(earlier: seq<WithdrawalRow>, rows: seq<WithdrawalRow>, interval: int)
    requires |earlier| == |rows| && Spaced(earlier, interval)
    requires forall w :: 0 <= w < |rows| ==> DailyCap.Fades(earlier[w], rows[w])
    ensures Spaced(rows, interval)
  {
    forall v: nat, x: nat | Consecutive(rows, v, x) ensures rows[x].createdAt - rows[v].createdAt >= interval {
      assert DailyCap.Fades(earlier[v], rows[v]) && DailyCap.Fades(earlier[x], rows[x]);
      assert forall y :: v < y < x ==> DailyCap.Fades(earlier[y], rows[y]);
      assert Consecutive(earlier, v, x);
    }
  }

  lemma SpacedAppend(rows: seq<WithdrawalRow>, row: WithdrawalRow, interval: int)
    requires Spaced(rows, interval)
    requires Rested(rows, row.user, row.createdAt, interval)
    ensures Spaced(rows + [row], interval)
  {
    var all := rows + [row];
    forall v: nat, x: nat | Consecutive(all, v, x) ensures all[x].createdAt - all[v].createdAt >= interval {
      if x == |rows| {
        assert forall y :: v < y < |rows| ==> all[y] == rows[y];
        assert Latest(rows, v, row.user);
      } else {
        assert forall y :: v <= y <= x ==> all[y] == rows[y];
        assert Consecutive(rows, v, x);
      }
    }
  }

  /** With a fixed minimum interval, two consecutive withdrawals of one user are at least that far apart. */
  lemma {:induction false} IntervalKept(plan: Plan, ops: seq<Op>, interval: int)
    requires interval > 0 && forall i: nat :: plan(i).minInterval == interval
    ensures Spaced(Run(plan, ops).withdrawals, interval)
  {
    hide Step, Spaced;
    if ops == [] {
      NothingSpaced(interval);
    } else {
      var n := |ops| - 1;
      IntervalKept(plan, ops[..n], interval);
      var s, t := Run(plan, ops[..n]), Run(plan, ops);
      if ops[n].Request? {
        RequestRows(plan, plan(n), ops[..n], ops[n]);
        hide Run, Allowed, Rested;
        if Allowed(plan(n), ops[..n], s, ops[n]) {
          SpacedAppend(s.withdrawals, t.withdrawals[|s.withdrawals|], interval);
        }
      } else {
        DailyCap.OthersFade(plan(n), s, ops[n]);
        hide Run;
        SpacedFades(s.withdrawals, t.withdrawals, interval);
      }
    }
  }

  lemma NothingSpaced(interval: int)
    ensures Spaced(EMPTY.withdrawals, interval)
  {
  }
}
