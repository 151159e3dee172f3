/** The limit on what one user can have in flight, over whole runs. */
module DailyCap {
  import opened Tables
  import opened Custody
  import opened Withdrawals
  import CustodyRuns
  import CustodyEquation
  import Lifecycles

  /** Requests carry the time of a clock that does not run backwards. */
  ghost predicate ClockRuns(ops: seq<Op>) {
    forall i, j :: 0 <= i < j < |ops| && ops[i].Request? && ops[j].Request? ==> ops[i].now <= ops[j].now
  }

  /** The time is not before any request of the run. */
  ghost predicate NotBefore(ops: seq<Op>, time: int) {
    forall i :: 0 <= i < |ops| && ops[i].Request? ==> ops[i].now <= time
  }

  function Cap(cfg: Settings): real {
    if cfg.dailyLimit < 0.0 then 0.0 else cfg.dailyLimit
  }

  ghost predicate Priced(cfg: Settings, rows: seq<WithdrawalRow>) {
    forall w :: 0 <= w < |rows| ==> UsdValue(cfg, rows[w].asset, rows[w].amount) >= 0.0
  }

  /** A row counts less and less: it may stop being in flight, and only ages. */
  predicate Fades(earlier: WithdrawalRow, row: WithdrawalRow) {
    Lifecycles.SameOrder(earlier, row) && (InFlight(row.status) ==> InFlight(earlier.status))
  }

  lemma {:induction false} SumFades(cfg: Settings, earlier: seq<WithdrawalRow>, rows: seq<WithdrawalRow>, user: int,
                                    before: int, cutoff: int)
    requires |rows| == |earlier| && before <= cutoff && Priced(cfg, earlier)
    requires forall w :: 0 <= w < |rows| ==> Fades(earlier[w], rows[w])
    ensures 0.0 <= WithdrawnUsd(cfg, rows, user, cutoff) <= WithdrawnUsd(cfg, earlier, user, before)
  {
    hide UsdValue;
    if rows != [] {
      var n := |rows| - 1;
      SumFades(cfg, earlier[..n], rows[..n], user, before, cutoff);
      assert Fades(earlier[n], rows[n]);
    }
  }

  /** Nobody has more in flight since the cutoff than the cap allows. */
  ghost predicate Capped(cfg: Settings, rows: seq<WithdrawalRow>, cutoff: int) {
    forall user: int :: WithdrawnUsd(cfg, rows, user, cutoff) <= Cap(cfg)
  }

  lemma CappedFades(cfg: Settings, earlier: seq<WithdrawalRow>, rows: seq<WithdrawalRow>, before: int, cutoff: int)
    requires |rows| == |earlier| && before <= cutoff && Priced(cfg, earlier) && Capped(cfg, earlier, before)
    requires forall w :: 0 <= w < |rows| ==> Fades(earlier[w], rows[w])
    ensures Capped(cfg, rows, cutoff)
  {
    forall user: int
      ensures WithdrawnUsd(cfg, rows, user, cutoff) <= Cap(cfg)
    {
      SumFades(cfg, earlier, rows, user, before, cutoff);
    }
  }

  lemma AlwaysPriced(plan: Plan, cfg: Settings, chain: string -> Sighting, ops: seq<Op>)
    requires GoodPlan(plan) && GoodSettings(cfg) && CustodyRuns.GoodRun(chain, ops)
    ensures Priced(cfg, Run(plan, ops).withdrawals)
  {
    hide Inv, Run, GoodPlan;
    var s := Run(plan, ops);
    CustodyRuns.RunInv(plan, chain, ops);
    CustodyEquation.LedgerFine(chain, s);
    forall w | 0 <= w < |s.withdrawals|
      ensures UsdValue(cfg, s.withdrawals[w].asset, s.withdrawals[w].amount) >= 0.0
    {
      assert WithdrawalOk(s, w);
    }
  }

  /** The settings the limit depends on. */
  predicate SameLimit(cfg: Settings, other: Settings) {
    cfg.dailyLimit == other.dailyLimit && forall a: Asset :: cfg.price(a) == other.price(a)
  }

  lemma {:induction false} SameUsd(cfg: Settings, other: Settings, rows: seq<WithdrawalRow>, user: int, cutoff: int)
    requires SameLimit(cfg, other)
    ensures WithdrawnUsd(cfg, rows, user, cutoff) == WithdrawnUsd(other, rows, user, cutoff)
  {
    if rows != [] {
      SameUsd(cfg, other, rows[..|rows| - 1], user, cutoff);
    }
  }

  lemma SameCapped(cfg: Settings, other: Settings, rows: seq<WithdrawalRow>, cutoff: int)
    requires SameLimit(cfg, other)
    ensures Capped(cfg, rows, cutoff) <==> Capped(other, rows, cutoff)
  {
    forall user: int ensures WithdrawnUsd(cfg, rows, user, cutoff) == WithdrawnUsd(other, rows, user, cutoff) {
      SameUsd(cfg, other, rows, user, cutoff);
    }
  }

  /** Every other operation lets rows fade at most: none enters the counted set again. */
  lemma OthersFade(cfg: Settings, s: Snapshot, op: Op)
    requires !op.Request?
    ensures var t := Step(cfg, s, op);
            |t.withdrawals| == |s.withdrawals| && forall w :: 0 <= w < |s.withdrawals| ==>
              Fades(s.withdrawals[w], t.withdrawals[w])
  {
    hide Step;
    match op {
      case Execute(_, _) => Lifecycles.WithdrawalGrows(cfg, s, op);
      case Reconcile(_, _) => Lifecycles.WithdrawalGrows(cfg, s, op);
      case AdminAction(_, _) => Lifecycles.WithdrawalGrows(cfg, s, op);
      case Accept(_, _) => Lifecycles.EscrowTalks(cfg, s, op);
      case Dispute(_, _) => Lifecycles.EscrowTalks(cfg, s, op);
      case RequestCancel(_, _) => Lifecycles.EscrowTalks(cfg, s, op);
      case RespondCancel(_, _, _) => Lifecycles.EscrowTalks(cfg, s, op);
      case Release(_, _) => Lifecycles.EscrowCloses(cfg, s, op);
      case Cancel(_, _) => Lifecycles.EscrowCloses(cfg, s, op);
      case Resolve(_, _, _) => Lifecycles.EscrowCloses(cfg, s, op);
      case _ => Lifecycles.OtherGrows(cfg, s, op);
    }
  }

  /** A request that goes through was measured against the cap. */
  lemma RequestCapped(cfg: Settings, s: Snapshot, op: Op)
    requires op.Request? && Capped(cfg, s.withdrawals, op.now - DAY)
    ensures Capped(cfg, Step(cfg, s, op).withdrawals, op.now - DAY)
  {
    hide UsdValue, NewRow, ReserveEntry, MinimumUsd, LastRequestAt;
    var t := Step(cfg, s, op);
    if t != s {
      var row := NewRow(cfg, |s.withdrawals|, op.user, op.asset, op.amount, op.destination, op.digest, op.now);
      assert t.withdrawals == s.withdrawals + [row] && t.withdrawals[..|s.withdrawals|] == s.withdrawals;
      RowAsRequested(cfg, op, |s.withdrawals|);
      hide NewRow;
      var cutoff := op.now - DAY;
      forall user: int
        ensures WithdrawnUsd(cfg, t.withdrawals, user, cutoff) <= Cap(cfg)
      {
        assert WithdrawnUsd(cfg, s.withdrawals, user, cutoff) <= Cap(cfg);
      }
    }
  }

  lemma RowAsRequested(cfg: Settings, op: Op, w: nat)
    requires op.Request?
    ensures var row := NewRow(cfg, w, op.user, op.asset, op.amount, op.destination, op.digest, op.now);
            row.user == op.user && row.asset == op.asset && row.amount == op.amount
  {
  }

  /**
   In every reachable state, at any time not before its last request, the withdrawals each user has in
   flight and created in the trailing 24 hours are together worth no more than the daily limit.
   */
  lemma {:induction false} InFlightCapped(plan: Plan, cfg: Settings, chain: string -> Sighting, ops: seq<Op>, time: int)
    requires GoodPlan(plan) && GoodSettings(cfg) && forall i: nat :: SameLimit(plan(i), cfg)
    requires CustodyRuns.GoodRun(chain, ops) && ClockRuns(ops) && NotBefore(ops, time)
    ensures Capped(cfg, Run(plan, ops).withdrawals, time - DAY)
  {
    hide Step, GoodPlan;
    if ops != [] {
      var n := |ops| - 1;
      var s, op := Run(plan, ops[..n]), ops[n];
      assert forall i :: 0 <= i < n ==> ops[..n][i] == ops[i];
      var before := if op.Request? then op.now else time;
      InFlightCapped(plan, cfg, chain, ops[..n], before);
      AlwaysPriced(plan, cfg, chain, ops[..n]);
      hide Capped, Priced, SameLimit;
      var rows := Step(plan(n), s, op).withdrawals;
      if op.Request? {
        SameCapped(plan(n), cfg, s.withdrawals, op.now - DAY);
        RequestCapped(plan(n), s, op);
        SameCapped(plan(n), cfg, rows, op.now - DAY);
        AlwaysPriced(plan, cfg, chain, ops);
      } else {
        OthersFade(plan(n), s, op);
      }
      hide Run;
      CappedFades(cfg, if op.Request? then rows else s.withdrawals, rows, before - DAY, time - DAY);
    }
  }

  /** Confirmed rows no longer count: confirming one makes room for as much again within the same day. */
  lemma ConfirmingMakesRoom(cfg: Settings, rows: seq<WithdrawalRow>, w: nat, cutoff: int)
    requires w < |rows| && CountsSince(rows[w], rows[w].user, cutoff)
    ensures WithdrawnUsd(cfg, rows[w := rows[w].(status := Confirmed)], rows[w].user, cutoff) ==
            WithdrawnUsd(cfg, rows, rows[w].user, cutoff) - UsdValue(cfg, rows[w].asset, rows[w].amount)
  {
    hide UsdValue;
    var n := |rows| - 1;
    var confirmed := rows[w].(status := Confirmed);
    if w == n {
      assert rows[w := confirmed][..n] == rows[..n];
    } else {
      assert rows[w := confirmed][..n] == rows[..n][w := confirmed];
      ConfirmingMakesRoom(cfg, rows[..n], w, cutoff);
    }
  }
}
