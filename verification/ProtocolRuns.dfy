/** What holds after every interleaving of wallet, signer, provider and operator. */
module ProtocolRuns {
  import opened Tables
  import opened ProviderReplies
  import opened SignerCycle
  import opened Custody
  import opened Protocol
  import P = ProviderService
  import CustodyRuns
  import Lifecycles
  import SignerRules
  import Withdrawals

  lemma SameOrdersStep(saved: Snapshot, s: Snapshot, t: Snapshot, w: nat)
    requires SameOrders(saved.withdrawals, s.withdrawals) && w < |s.withdrawals|
    requires Lifecycles.OnlyWithdrawal(s, t, w) && RefKept(s.withdrawals[w], t.withdrawals[w])
    ensures SameOrders(saved.withdrawals, t.withdrawals)
  {
    forall v | 0 <= v < |t.withdrawals|
      ensures Lifecycles.SameOrder(saved.withdrawals[v], t.withdrawals[v]) &&
              RefKept(saved.withdrawals[v], t.withdrawals[v])
    {
      assert Lifecycles.SameOrder(saved.withdrawals[v], s.withdrawals[v]) &&
             RefKept(saved.withdrawals[v], s.withdrawals[v]);
    }
  }

  /** The saved tables differ only in what signers write, so they stay linked to whatever the provider holds now. */
  lemma SavedFits(env: P.Env, earlier: P.Store, store: P.Store, saved: Snapshot, s: Snapshot)
    requires Fits(env, earlier, saved) && Fits(env, store, s) && P.Later(earlier, store)
    requires SameOrders(saved.withdrawals, s.withdrawals)
    ensures Fits(env, store, saved)
  {
    hide P.StoreOk, RowFits;
    RowsFitLater(earlier, store, saved.withdrawals);
    forall i | 0 <= i < |store.records|
      ensures store.records[i].withdrawalId < |saved.withdrawals|
      ensures OrderMatches(store.records[i], saved.withdrawals[store.records[i].withdrawalId])
    {
      assert OrderMatches(store.records[i], s.withdrawals[store.records[i].withdrawalId]);
      assert Lifecycles.SameOrder(saved.withdrawals[store.records[i].withdrawalId],
                                  s.withdrawals[store.records[i].withdrawalId]);
    }
  }

  lemma SignerSteps(cfg: Settings, env: P.Env, sys: Sys, event: Event)
    requires GoodEnv(env) && Sound(env, sys) && (event.ExecuteRow? || event.ReconcileRow?)
    ensures Sound(env, Next(cfg, env, sys, event))
  {
    hide Fits, AfterExecuteRow, AfterReconcileRow, SameOrders, P.Later, RefKept, Lifecycles.OnlyWithdrawal;
    var s := sys.wallet;
    if sys.saved.Some? && event.w < |s.withdrawals| {
      LaterSelf(sys.store);
      if event.ExecuteRow? {
        ExecuteRowFits(env, sys.store, s, event.w, event.delivery);
        var after := AfterExecuteRow(env, s, sys.store, event.w, event.delivery);
        SameOrdersStep(sys.saved.value, s, after.0, event.w);
        SavedFits(env, sys.store, after.1, sys.saved.value, after.0);
      } else {
        ReconcileRowFits(env, sys.store, s, event.w, event.delivery);
        SameOrdersStep(sys.saved.value, s, AfterReconcileRow(s, sys.store, event.w, event.delivery), event.w);
      }
    }
  }

  lemma OtherSteps(cfg: Settings, env: P.Env, chain: string -> Sighting, sys: Sys, event: Event)
    requires GoodEnv(env) && Sound(env, sys) && GoodEvent(chain, event) && !event.ExecuteRow? && !event.ReconcileRow?
    ensures Sound(env, Next(cfg, env, sys, event))
  {
    hide Fits, Step, P.AfterUpdate;
    match event {
      case WalletOp(op) =>
        if sys.saved.None? && !op.Execute? && !op.Reconcile? {
          WalletOpFits(cfg, env, sys.store, sys.wallet, op);
        }
      case Operator(ref, status, txid, fee) =>
        if P.AfterUpdate(sys.store, ref, status, txid, fee).Ok? {
          OperatorFits(env, sys.store, sys.wallet, ref, status, txid, fee);
          if sys.saved.Some? {
            OperatorFits(env, sys.store, sys.saved.value, ref, status, txid, fee);
          }
        }
      case _ =>
    }
  }

  lemma StartSound(env: P.Env)
    ensures Sound(env, START)
  {
  }

  lemma {:induction false} AlwaysSound(plan: Plan, env: P.Env, chain: string -> Sighting, events: seq<Event>)
    requires GoodEnv(env) && GoodEvents(chain, events)
    ensures Sound(env, History(plan, env, events))
  {
    hide Sound, Next;
    if events == [] {
      StartSound(env);
    } else {
      var n := |events| - 1;
      assert forall i :: 0 <= i < n ==> events[..n][i] == events[i];
      AlwaysSound(plan, env, chain, events[..n]);
      var sys := History(plan, env, events[..n]);
      if events[n].ExecuteRow? || events[n].ReconcileRow? {
        SignerSteps(plan(n), env, sys, events[n]);
      } else {
        OtherSteps(plan(n), env, chain, sys, events[n]);
      }
    }
  }

  // ----- the wallet side is always a run of the custody system

  ghost predicate RunsBehind(chain: string -> Sighting, sys: Sys) {
    CustodyRuns.Reachable(chain, sys.wallet) &&
      (sys.saved.Some? ==> CustodyRuns.Reachable(chain, sys.saved.value))
  }

  lemma NextRuns(cfg: Settings, env: P.Env, chain: string -> Sighting, sys: Sys, event: Event)
    requires GoodSettings(cfg) && RunsBehind(chain, sys) && GoodEvent(chain, event)
    ensures RunsBehind(chain, Next(cfg, env, sys, event))
  {
    hide CustodyRuns.Reachable, P.AfterUpdate, SignerRules.AfterExecute, SignerRules.AfterReconcile;
    match event {
      case WalletOp(op) => CustodyRuns.OneMoreOp(cfg, chain, sys.wallet, op);
      case ExecuteRow(w, delivery) =>
        if w < |sys.wallet.withdrawals| {
          CustodyRuns.OneMoreOp(cfg, chain, sys.wallet,
                                Execute(w, ExecuteExchange(env, sys.store, sys.wallet.withdrawals[w], w, delivery).1));
        }
      case ReconcileRow(w, delivery) =>
        if w < |sys.wallet.withdrawals| {
          CustodyRuns.OneMoreOp(cfg, chain, sys.wallet,
                                Reconcile(w, ReconcileReply(sys.store, sys.wallet.withdrawals[w], delivery)));
        }
      case _ =>
    }
  }

  lemma StartRuns(cfg: Settings, chain: string -> Sighting)
    requires GoodSettings(cfg)
    ensures RunsBehind(chain, START)
  {
    CustodyRuns.EmptyReachable(cfg, chain);
  }

  /** Rollbacks included, the tables are always those of some run of custody operations. */
  lemma {:induction false} AlwaysARun(plan: Plan, env: P.Env, chain: string -> Sighting, events: seq<Event>)
    requires GoodPlan(plan) && GoodEvents(chain, events)
    ensures RunsBehind(chain, History(plan, env, events))
  {
    hide RunsBehind, Next, GoodSettings;
    if events == [] {
      StartRuns(plan(0), chain);
    } else {
      var n := |events| - 1;
      assert forall i :: 0 <= i < n ==> events[..n][i] == events[i];
      AlwaysARun(plan, env, chain, events[..n]);
      NextRuns(plan(n), env, chain, History(plan, env, events[..n]), events[n]);
    }
  }

  /** sys is the state after some sequence of events, whatever the settings were at each of them. */
  ghost predicate Reachable(env: P.Env, chain: string -> Sighting, sys: Sys) {
    exists plan: Plan, events: seq<Event> :: GoodEvents(chain, events) && History(plan, env, events) == sys
  }

  lemma ReachableSound(env: P.Env, chain: string -> Sighting, sys: Sys)
    requires GoodEnv(env) && Reachable(env, chain, sys)
    ensures Sound(env, sys)
  {
    hide History, Sound;
    var plan: Plan, events: seq<Event> :| GoodEvents(chain, events) && History(plan, env, events) == sys;
    AlwaysSound(plan, env, chain, events);
  }

  /** So the custody invariant holds in the middle of every cycle and after every rollback. */
  lemma AlwaysInv(plan: Plan, env: P.Env, chain: string -> Sighting, events: seq<Event>)
    requires GoodPlan(plan) && GoodEvents(chain, events)
    ensures Inv(chain, History(plan, env, events).wallet)
  {
    hide Inv, History, CustodyRuns.Reachable;
    AlwaysARun(plan, env, chain, events);
    CustodyRuns.ReachableInv(chain, History(plan, env, events).wallet);
  }

  /** Settings that are only in force after the last event do not matter. */
  lemma {:induction false} SamePlan(plan: Plan, other: Plan, env: P.Env, events: seq<Event>)
    requires forall i: nat :: i < |events| ==> plan(i) == other(i)
    ensures History(plan, env, events) == History(other, env, events)
  {
    hide Next;
    if events != [] {
      SamePlan(plan, other, env, events[..|events| - 1]);
    }
  }

  // ----- the theorems

  /** However often requests are lost, rolled back, requeued and sent again: one record per withdrawal. */
  lemma OneRecordPerWithdrawal(env: P.Env, chain: string -> Sighting, sys: Sys, i: nat, j: nat)
    requires GoodEnv(env) && Reachable(env, chain, sys)
    requires i < |sys.store.records| && j < |sys.store.records|
    requires sys.store.records[i].withdrawalId == sys.store.records[j].withdrawalId
    ensures i == j
  {
    hide Reachable, P.TxidSane, P.ProviderRef;
    ReachableSound(env, chain, sys);
    assert OrderMatches(sys.store.records[i], sys.wallet.withdrawals[sys.store.records[i].withdrawalId]);
    assert OrderMatches(sys.store.records[j], sys.wallet.withdrawals[sys.store.records[j].withdrawalId]);
  }

  /**
   A request that finds a record is never a mismatch: it is answered from the row's own record. A reconcile
   answer is likewise about the row's own record or about none.
   */
  lemma ResendMatches(env: P.Env, chain: string -> Sighting, sys: Sys, w: nat)
    requires GoodEnv(env) && Reachable(env, chain, sys) && w < |sys.wallet.withdrawals|
    ensures var row := sys.wallet.withdrawals[w];
            var asked, told :=
              P.AfterExecute(env, sys.store, RequestOf(row, w)), P.ReconcileAnswer(sys.store, row.key, row.providerRef);
            && (asked.1.Some? ==> asked.1.value == P.RejectedBody(row.asset) || FromOwn(asked.0, row, asked.1.value))
            && (told == P.NOT_FOUND || FromOwn(sys.store, row, told))
  {
    hide Reachable, P.AfterExecute, P.ReconcileAnswer, P.StoreOk, RowFits;
    ReachableSound(env, chain, sys);
    AskedOwn(env, sys.store, sys.wallet, w);
    ReconciledOwn(env, sys.store, sys.wallet, w);
  }

  /**
   A row that is confirmed (or broadcasted) with a txid: an operator gave exactly that status and that
   txid to the record under the row's own key, which is for the same asset and amount. SOL never gets there.
   */
  lemma OnChainAgrees(env: P.Env, chain: string -> Sighting, sys: Sys, w: nat)
    requires GoodEnv(env) && Reachable(env, chain, sys) && w < |sys.wallet.withdrawals|
    requires sys.wallet.withdrawals[w].status in {Broadcasted, Confirmed}
    ensures var row := sys.wallet.withdrawals[w];
            && row.asset != SOL && row.txid.Some? && Withdrawals.TxidSane(row.asset, row.txid.value)
            && Reported(sys.store, row, if row.status == Confirmed then StConfirmed else StBroadcasted, row.txid.value)
  {
    hide Reachable, Reported, RefKnown;
    ReachableSound(env, chain, sys);
    assert RowFits(sys.store, sys.wallet.withdrawals[w], w);
  }

  /** The tables as they would be found after a crash. */
  function Committed(sys: Sys): Snapshot {
    if sys.saved.Some? then sys.saved.value else sys.wallet
  }

  lemma CommittedRefStep(cfg: Settings, env: P.Env, chain: string -> Sighting, sys: Sys, event: Event, w: nat)
    requires Sound(env, sys) && GoodEvent(chain, event)
    requires w < |Committed(sys).withdrawals| && Committed(sys).withdrawals[w].providerRef != ""
    ensures var next := Committed(Next(cfg, env, sys, event));
            w < |next.withdrawals| && next.withdrawals[w].providerRef == Committed(sys).withdrawals[w].providerRef
  {
    hide Fits, Step, AfterExecuteRow, AfterReconcileRow, P.AfterUpdate;
    match event {
      case WalletOp(op) =>
        if sys.saved.None? && !op.Execute? && !op.Reconcile? {
          if op.Request? {
            RequestFits(cfg, env, sys.store, sys.wallet, op);
          } else if op.AdminAction? && op.w < |sys.wallet.withdrawals| {
            AdminFits(cfg, env, sys.store, sys.wallet, op);
          } else if op.AdminAction? {
            AdminMissing(cfg, sys.wallet, op);
          } else {
            WalletOpRows(cfg, sys.wallet, op);
          }
        }
      case CommitCycle =>
        if sys.saved.Some? {
          assert RefKept(sys.saved.value.withdrawals[w], sys.wallet.withdrawals[w]);
        }
      case _ =>
    }
  }

  lemma GoodSoFar(chain: string -> Sighting, events: seq<Event>)
    requires GoodEvents(chain, events) && events != []
    ensures GoodEvents(chain, events[..|events| - 1]) && GoodEvent(chain, events[|events| - 1])
  {
  }

  /** Once a provider_ref is committed, no later event changes or clears it. */
  lemma {:induction false} RefNeverChanges(plan: Plan, env: P.Env, chain: string -> Sighting, events: seq<Event>,
                                           more: seq<Event>, w: nat)
    requires GoodEnv(env) && GoodEvents(chain, events + more)
    requires w < |Committed(History(plan, env, events)).withdrawals|
    requires Committed(History(plan, env, events)).withdrawals[w].providerRef != ""
    ensures var now := Committed(History(plan, env, events + more));
            w < |now.withdrawals| &&
              now.withdrawals[w].providerRef == Committed(History(plan, env, events)).withdrawals[w].providerRef
  {
    hide Next, Sound, GoodEvent, GoodEvents, GoodEnv, Committed;
    if more == [] {
      assert events + more == events;
    } else {
      var n := |more| - 1;
      var before, all := events + more[..n], events + more;
      assert all[..|all| - 1] == before && all[|all| - 1] == more[n];
      GoodSoFar(chain, all);
      RefNeverChanges(plan, env, chain, events, more[..n], w);
      AlwaysSound(plan, env, chain, before);
      CommittedRefStep(plan(|events| + n), env, chain, History(plan, env, before), more[n], w);
    }
  }

  /**
   Executing a pending row releases its reserve only on a rejection: either the request was turned down
   before it was recorded, or an operator marked the row's own record as rejected or failed for good.
   */
  lemma ReleasedOnlyIfRejected(env: P.Env, chain: string -> Sighting, sys: Sys, w: nat, delivery: Delivery)
    requires GoodEnv(env) && Reachable(env, chain, sys) && w < |sys.wallet.withdrawals|
    requires sys.wallet.withdrawals[w].status == WPending
    ensures var row := sys.wallet.withdrawals[w];
            var after := AfterExecuteRow(env, sys.wallet, sys.store, w, delivery);
            && w < |after.0.withdrawals|
            && (after.0.withdrawals[w].status == Failed ==>
                  || P.AfterExecute(env, sys.store, RequestOf(row, w)).1 == Some(P.RejectedBody(row.asset))
                  || exists i: nat ::
                     OwnRecord(after.1, row, i) && after.1.records[i].status in {StRejected, StPermanentFailure})
  {
    hide Reachable, P.AfterExecute, P.StoreOk, RowFits, SignerRules.AfterExecute, RowsFit, RecordsFit;
    ReachableSound(env, chain, sys);
    AskedOwn(env, sys.store, sys.wallet, w);
    FailedByRejection(sys.wallet, w, ExecuteExchange(env, sys.store, sys.wallet.withdrawals[w], w, delivery).1);
  }

  lemma FailedByRejection(s: Snapshot, w: nat, reply: Option<Body>)
    requires w < |s.withdrawals| && s.withdrawals[w].status == WPending
    ensures var t := SignerRules.AfterExecute(s, w, reply);
            && w < |t.withdrawals|
            && (t.withdrawals[w].status == Failed ==>
                reply.Some? && reply.value.status in {StRejected, StPermanentFailure})
  {
    hide SignerRules.AfterAccepted;
    if reply.Some? && ParseResult(reply.value).Some? && SignerRules.MapResult(ParseResult(reply.value).value).Proceed? {
      var result := ParseResult(reply.value).value;
      Lifecycles.AcceptedAdds(s, w, result, SignerRules.MapResult(result));
    }
  }
}
