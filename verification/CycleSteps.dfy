/** A whole signer cycle, loops included, is a sequence of protocol events. */
module CycleSteps {
  import opened Tables
  import opened SignerCycle
  import opened Custody
  import opened Protocol
  import P = ProviderService
  import Lifecycles
  import SignerRules

  function NextAll(plan: Plan, env: P.Env, sys: Sys, events: seq<Event>): Sys {
    if events == [] then sys
    else
      var n := |events| - 1;
      Next(plan(n), env, NextAll(plan, env, sys, events[..n]), events[n])
  }

  /** Settings that are only in force after the last event do not matter. */
  lemma {:induction false} SamePlan(plan: Plan, other: Plan, env: P.Env, sys: Sys, events: seq<Event>)
    requires forall i: nat :: i < |events| ==> plan(i) == other(i)
    ensures NextAll(plan, env, sys, events) == NextAll(other, env, sys, events)
  {
    hide Next;
    if events != [] {
      SamePlan(plan, other, env, sys, events[..|events| - 1]);
    }
  }

  lemma {:induction false} NextAllConcat(cfg: Settings, env: P.Env, sys: Sys, a: seq<Event>, b: seq<Event>)
    ensures NextAll(Fixed(cfg), env, sys, a + b) == NextAll(Fixed(cfg), env, NextAll(Fixed(cfg), env, sys, a), b)
  {
    hide Next;
    if b == [] {
      assert a + b == a;
    } else {
      var n := |b| - 1;
      assert (a + b)[..|a| + n] == a + b[..n];
      NextAllConcat(cfg, env, sys, a, b[..n]);
    }
  }

  function ExecuteEvents(ids: seq<nat>, deliveries: nat -> Delivery): seq<Event> {
    if ids == [] then []
    else ExecuteEvents(ids[..|ids| - 1], deliveries) + [ExecuteRow(ids[|ids| - 1], deliveries(ids[|ids| - 1]))]
  }

  function ReconcileEvents(ids: seq<nat>, deliveries: nat -> Delivery): seq<Event> {
    if ids == [] then []
    else ReconcileEvents(ids[..|ids| - 1], deliveries) + [ReconcileRow(ids[|ids| - 1], deliveries(ids[|ids| - 1]))]
  }

  /** Rows that are not among the ids are as they were. */
  ghost predicate OthersSame(s: Snapshot, t: Snapshot, ids: seq<nat>) {
    && |t.withdrawals| == |s.withdrawals|
    && forall v: nat :: v < |s.withdrawals| && v !in ids ==> t.withdrawals[v] == s.withdrawals[v]
  }

  lemma ExecuteOnly(env: P.Env, s: Snapshot, store: P.Store, w: nat, delivery: Delivery)
    ensures var t := AfterExecuteRow(env, s, store, w, delivery).0;
            |t.withdrawals| == |s.withdrawals| && forall v: nat :: v < |s.withdrawals| && v != w ==>
              t.withdrawals[v] == s.withdrawals[v]
  {
    hide SignerRules.AfterExecute, ExecuteExchange;
    if w < |s.withdrawals| {
      Lifecycles.ExecuteAdds(s, w, ExecuteExchange(env, store, s.withdrawals[w], w, delivery).1);
    }
  }

  lemma ReconcileOnly(s: Snapshot, store: P.Store, w: nat, delivery: Delivery)
    ensures var t := AfterReconcileRow(s, store, w, delivery);
            |t.withdrawals| == |s.withdrawals| && forall v: nat :: v < |s.withdrawals| && v != w ==>
              t.withdrawals[v] == s.withdrawals[v]
  {
    hide SignerRules.AfterReconcile, ReconcileReply;
    if w < |s.withdrawals| {
      Lifecycles.ReconcileNeverReleases(s, w, ReconcileReply(store, s.withdrawals[w], delivery));
    }
  }

  /** Each listed row is still pending when its turn comes, so the loop is a sequence of execute events. */
  lemma {:induction false} ExecutesAreEvents(cfg: Settings, env: P.Env, sys: Sys, ids: seq<nat>,
                                             deliveries: nat -> Delivery)
    requires sys.saved.Some? && forall i, j :: 0 <= i < j < |ids| ==> ids[i] < ids[j]
    requires forall i :: 0 <= i < |ids| ==>
             ids[i] < |sys.wallet.withdrawals| && sys.wallet.withdrawals[ids[i]].status == WPending
    ensures var after := AfterExecutes(env, sys.wallet, sys.store, ids, deliveries);
            && NextAll(Fixed(cfg), env, sys, ExecuteEvents(ids, deliveries)) ==
               sys.(wallet := after.0, store := after.1)
            && OthersSame(sys.wallet, after.0, ids)
  {
    hide AfterExecuteRow;
    if ids != [] {
      var n := |ids| - 1;
      var events := ExecuteEvents(ids, deliveries);
      assert events[..|events| - 1] == ExecuteEvents(ids[..n], deliveries);
      ExecutesAreEvents(cfg, env, sys, ids[..n], deliveries);
      var before := AfterExecutes(env, sys.wallet, sys.store, ids[..n], deliveries);
      ExecuteOnly(env, before.0, before.1, ids[n], deliveries(ids[n]));
      assert ids[n] !in ids[..n];
    }
  }

  lemma {:induction false} ReconcilesAreEvents(cfg: Settings, env: P.Env, sys: Sys, ids: seq<nat>,
                                               deliveries: nat -> Delivery)
    requires sys.saved.Some? && forall i, j :: 0 <= i < j < |ids| ==> ids[i] < ids[j]
    requires forall i :: 0 <= i < |ids| ==>
             ids[i] < |sys.wallet.withdrawals| && Unresolved(sys.wallet.withdrawals[ids[i]].status)
    ensures var after := AfterReconciles(sys.wallet, sys.store, ids, deliveries);
            && NextAll(Fixed(cfg), env, sys, ReconcileEvents(ids, deliveries)) == sys.(wallet := after)
            && OthersSame(sys.wallet, after, ids)
  {
    hide AfterReconcileRow;
    if ids != [] {
      var n := |ids| - 1;
      var events := ReconcileEvents(ids, deliveries);
      assert events[..|events| - 1] == ReconcileEvents(ids[..n], deliveries);
      ReconcilesAreEvents(cfg, env, sys, ids[..n], deliveries);
      ReconcileOnly(AfterReconciles(sys.wallet, sys.store, ids[..n], deliveries), sys.store, ids[n],
                    deliveries(ids[n]));
      assert ids[n] !in ids[..n];
    }
  }

  /**
   What process_withdrawals leaves behind is what the event model reaches by opening a cycle, executing
   the pending rows, reconciling the due rows and committing: the loops add no other behaviour.
   */
  lemma CycleIsEvents(cfg: Settings, env: P.Env, sys: Sys, deliveries: nat -> Delivery, due: nat -> bool,
                      answers: nat -> Delivery)
    requires sys.saved.None?
    ensures var executed := AfterExecutes(env, sys.wallet, sys.store, PendingIds(sys.wallet.withdrawals), deliveries);
            var ids := DueIds(executed.0.withdrawals, due);
            var events := [BeginCycle] + ExecuteEvents(PendingIds(sys.wallet.withdrawals), deliveries) +
                          ReconcileEvents(ids, answers) + [CommitCycle];
            NextAll(Fixed(cfg), env, sys, events) ==
              Sys(AfterReconciles(executed.0, executed.1, ids, answers), executed.1, None)
  {
    hide AfterExecutes, AfterReconciles, ExecuteEvents, ReconcileEvents, Ids;
    var pending := PendingIds(sys.wallet.withdrawals);
    var executed := AfterExecutes(env, sys.wallet, sys.store, pending, deliveries);
    var ids := DueIds(executed.0.withdrawals, due);
    var cycle := sys.(saved := Some(sys.wallet));
    var middle := cycle.(wallet := executed.0, store := executed.1);
    PendingInRange(sys.wallet.withdrawals);
    DueInRange(executed.0.withdrawals, due);
    ExecutesAreEvents(cfg, env, cycle, pending, deliveries);
    ReconcilesAreEvents(cfg, env, middle, ids, answers);
    var a, b := ExecuteEvents(pending, deliveries), ReconcileEvents(ids, answers);
    One(cfg, env, sys, BeginCycle);
    NextAllConcat(cfg, env, sys, [BeginCycle], a);
    NextAllConcat(cfg, env, sys, [BeginCycle] + a, b);
    NextAllConcat(cfg, env, sys, [BeginCycle] + a + b, [CommitCycle]);
    One(cfg, env, NextAll(Fixed(cfg), env, middle, b), CommitCycle);
  }

  lemma One(cfg: Settings, env: P.Env, sys: Sys, event: Event)
    ensures NextAll(Fixed(cfg), env, sys, [event]) == Next(cfg, env, sys, event)
  {
    hide Next;
    assert [event][..0] == [];
  }

  // ----- nothing stays in the queue

  lemma ExecutedRow(env: P.Env, s: Snapshot, store: P.Store, w: nat, delivery: Delivery)
    requires w < |s.withdrawals|
    ensures var t := AfterExecuteRow(env, s, store, w, delivery).0;
            |t.withdrawals| == |s.withdrawals| && t.withdrawals[w].status != WPending
  {
    hide SignerRules.AfterExecute, ExecuteExchange;
    ExecuteOnly(env, s, store, w, delivery);
    Protocol.AnsweredRow(s, w, ExecuteExchange(env, store, s.withdrawals[w], w, delivery).1);
  }

  lemma {:induction false} ExecutesAnswer(env: P.Env, s: Snapshot, store: P.Store, ids: seq<nat>,
                                          deliveries: nat -> Delivery)
    requires forall i :: 0 <= i < |ids| ==> ids[i] < |s.withdrawals|
    ensures var t := AfterExecutes(env, s, store, ids, deliveries).0;
            && OthersSame(s, t, ids)
            && forall w :: w in ids ==> t.withdrawals[w].status != WPending
  {
    hide AfterExecuteRow;
    if ids != [] {
      var n := |ids| - 1;
      ExecutesAnswer(env, s, store, ids[..n], deliveries);
      var before := AfterExecutes(env, s, store, ids[..n], deliveries);
      ExecuteOnly(env, before.0, before.1, ids[n], deliveries(ids[n]));
      ExecutedRow(env, before.0, before.1, ids[n], deliveries(ids[n]));
    }
  }

  ghost predicate NonePending(s: Snapshot) {
    forall w: nat :: w < |s.withdrawals| ==> s.withdrawals[w].status != WPending
  }

  lemma {:induction false} ReconcilesAnswer(s: Snapshot, store: P.Store, ids: seq<nat>, deliveries: nat -> Delivery)
    requires NonePending(s)
    ensures NonePending(AfterReconciles(s, store, ids, deliveries))
  {
    hide AfterReconcileRow;
    if ids != [] {
      var n := |ids| - 1;
      ReconcilesAnswer(s, store, ids[..n], deliveries);
      ReconciledRow(AfterReconciles(s, store, ids[..n], deliveries), store, ids[n], deliveries(ids[n]));
    }
  }

  lemma ReconciledRow(s: Snapshot, store: P.Store, w: nat, delivery: Delivery)
    ensures var t := AfterReconcileRow(s, store, w, delivery);
            && |t.withdrawals| == |s.withdrawals|
            && (forall v: nat :: v < |s.withdrawals| && v != w ==> t.withdrawals[v] == s.withdrawals[v])
            && (w < |s.withdrawals| ==> t.withdrawals[w].status != WPending)
  {
    hide SignerRules.AfterReconcile, ReconcileReply;
    ReconcileOnly(s, store, w, delivery);
    if w < |s.withdrawals| {
      AnsweredRow(s, w, ReconcileReply(store, s.withdrawals[w], delivery));
    }
  }

  lemma PendingListed(rows: seq<WithdrawalRow>)
    ensures forall w: nat :: w < |rows| && rows[w].status == WPending ==> w in PendingIds(rows)
  {
  }

  /** A cycle executes every pending row: none is left pending, whatever is delivered or lost. */
  lemma CycleEmptiesQueue(env: P.Env, s: Snapshot, store: P.Store, deliveries: nat -> Delivery, due: nat -> bool,
                          answers: nat -> Delivery)
    ensures var executed := AfterExecutes(env, s, store, PendingIds(s.withdrawals), deliveries);
            var t := AfterReconciles(executed.0, executed.1, DueIds(executed.0.withdrawals, due), answers);
            NonePending(t)
  {
    hide AfterExecutes, AfterReconciles;
    var ids := PendingIds(s.withdrawals);
    var executed := AfterExecutes(env, s, store, ids, deliveries);
    ExecutesAnswer(env, s, store, ids, deliveries);
    assert NonePending(executed.0) by {
      hide Ids;
      PendingListed(s.withdrawals);
    }
    ReconcilesAnswer(executed.0, executed.1, DueIds(executed.0.withdrawals, due), answers);
  }
}
