/** When a withdrawal can end up both released to the user and reported as confirmed by the provider. */
module ReleasedRows {
  import opened Tables
  import opened ProviderReplies
  import opened SignerCycle
  import opened Custody
  import opened Protocol
  import P = ProviderService
  import Base58
  import CycleSteps
  import Lifecycles
  import Overdrafts
  import ProtocolRuns
  import SignerRules
  import Text
  import Withdrawals

  /** The row failed, so its reserve was given back, although an operator set its own record to confirmed. */
  ghost predicate BothWays(sys: Sys, w: nat) {
    && w < |sys.wallet.withdrawals| && sys.wallet.withdrawals[w].status == Failed
    && exists txid: string :: Reported(sys.store, sys.wallet.withdrawals[w], StConfirmed, txid)
  }

  /** Some continuation of the history leads there. */
  ghost predicate CanEndBothWays(env: P.Env, chain: string -> Sighting, sys: Sys, w: nat) {
    exists plan: Plan, more: seq<Event> ::
      GoodEvents(chain, more) && BothWays(CycleSteps.NextAll(plan, env, sys, more), w)
  }

  ghost predicate Leads(env: P.Env, chain: string -> Sighting, sys: Sys, end: Sys) {
    exists plan: Plan, more: seq<Event> :: GoodEvents(chain, more) && CycleSteps.NextAll(plan, env, sys, more) == end
  }

  predicate HasOwn(store: P.Store, row: WithdrawalRow) {
    exists i :: 0 <= i < |store.records| && store.records[i].key == row.key
  }

  // ----- every record passed the provider's validation

  ghost predicate AllValid(env: P.Env, store: P.Store) {
    forall i :: 0 <= i < |store.records| ==> ValidRecord(env, store.records[i])
  }

  predicate ValidRecord(env: P.Env, r: P.Record) {
    r.amount > 0.0 && r.destination != "" && env.validDestination(r.asset, r.destination) && r.key != ""
  }

  lemma NextValid(cfg: Settings, env: P.Env, sys: Sys, event: Event)
    requires AllValid(env, sys.store)
    ensures AllValid(env, Next(cfg, env, sys, event).store)
  {
    hide Step, SignerRules.AfterExecute, AfterReconcileRow, P.ProviderRef, P.TxidSane, Text.Strip;
  }

  lemma {:induction false} AlwaysValid(plan: Plan, env: P.Env, events: seq<Event>)
    ensures AllValid(env, History(plan, env, events).store)
  {
    hide Next, AllValid;
    if events == [] {
      assert AllValid(env, START.store) by {
        NoRecords(env);
      }
    } else {
      AlwaysValid(plan, env, events[..|events| - 1]);
      NextValid(plan(|events| - 1), env, History(plan, env, events[..|events| - 1]), events[|events| - 1]);
    }
  }

  lemma NoRecords(env: P.Env)
    ensures AllValid(env, START.store)
  {
  }

  /** So a row with a record of its own is one the provider would accept. */
  lemma OwnIsValid(env: P.Env, sys: Sys, w: nat)
    requires Sound(env, sys) && AllValid(env, sys.store) && w < |sys.wallet.withdrawals|
    requires HasOwn(sys.store, sys.wallet.withdrawals[w])
    ensures P.Validated(env, RequestOf(sys.wallet.withdrawals[w], w)).Some?
  {
    hide P.StoreOk, RowsFit, Text.Strip;
    var row := sys.wallet.withdrawals[w];
    var i :| 0 <= i < |sys.store.records| && sys.store.records[i].key == row.key;
    FoundIsOwn(sys.store, sys.wallet, w, i);
    KeyOfRow(env, sys, w);
    KeyClean(row, w);
    assert ValidRecord(env, sys.store.records[i]);
  }

  lemma KeyOfRow(env: P.Env, sys: Sys, w: nat)
    requires Sound(env, sys) && w < |sys.wallet.withdrawals|
    ensures KeyOf(sys.wallet.withdrawals[w], w)
  {
    hide P.StoreOk, RecordsFit;
    assert RowFits(sys.store, sys.wallet.withdrawals[w], w);
  }

  // ----- what later events leave of a row

  /** The order is the same, and a row that was finished is the same altogether. */
  ghost predicate Tracks(row: WithdrawalRow, rows: seq<WithdrawalRow>, w: nat) {
    w < |rows| && Lifecycles.SameOrder(row, rows[w]) && (!Withdrawals.InFlight(row.status) ==> rows[w] == row)
  }

  ghost predicate TracksAll(row: WithdrawalRow, sys: Sys, w: nat) {
    Tracks(row, sys.wallet.withdrawals, w) && (sys.saved.Some? ==> Tracks(row, sys.saved.value.withdrawals, w))
  }

  lemma OpTracks(cfg: Settings, s: Snapshot, op: Op, row: WithdrawalRow, w: nat)
    requires Tracks(row, s.withdrawals, w)
    ensures Tracks(row, Step(cfg, s, op).withdrawals, w)
  {
    hide Step;
    if op.Execute? || op.Reconcile? || op.AdminAction? {
      Lifecycles.WithdrawalGrows(cfg, s, op);
    } else if op.Request? {
      Lifecycles.OtherGrows(cfg, s, op);
    } else {
      WalletOpRows(cfg, s, op);
    }
  }

  lemma NextTracks(cfg: Settings, env: P.Env, sys: Sys, event: Event, row: WithdrawalRow, w: nat)
    requires TracksAll(row, sys, w)
    ensures TracksAll(row, Next(cfg, env, sys, event), w)
  {
    hide Tracks, P.AfterUpdate, P.AfterExecute, SignerRules.AfterExecute, SignerRules.AfterReconcile;
    match event {
      case WalletOp(op) => OpTracks(cfg, sys.wallet, op, row, w);
      case ExecuteRow(v, delivery) =>
        if v < |sys.wallet.withdrawals| {
          OpTracks(cfg, sys.wallet,
                   Execute(v, ExecuteExchange(env, sys.store, sys.wallet.withdrawals[v], v, delivery).1), row, w);
        }
      case ReconcileRow(v, delivery) =>
        if v < |sys.wallet.withdrawals| {
          OpTracks(cfg, sys.wallet, Reconcile(v, ReconcileReply(sys.store, sys.wallet.withdrawals[v], delivery)), row,
                   w);
        }
      case _ =>
    }
  }

  // ----- rows for which no record can appear any more

  /** The provider turns the request down, or the wallet never sends it again. */
  predicate Barred(env: P.Env, row: WithdrawalRow, w: nat) {
    P.Validated(env, RequestOf(row, w)).None? || !Withdrawals.InFlight(row.status)
  }

  /** Executing another row creates no record under this row's key. */
  lemma OtherKey(env: P.Env, sys: Sys, w: nat, v: nat)
    requires Sound(env, sys) && w < |sys.wallet.withdrawals| && v < |sys.wallet.withdrawals| && v != w
    requires !HasOwn(sys.store, sys.wallet.withdrawals[w])
    ensures !HasOwn(P.AfterExecute(env, sys.store, RequestOf(sys.wallet.withdrawals[v], v)).0,
                    sys.wallet.withdrawals[w])
  {
    hide Fits, P.ProviderRef;
    var row, other := sys.wallet.withdrawals[w], sys.wallet.withdrawals[v];
    KeyOfRow(env, sys, w);
    KeyOfRow(env, sys, v);
    KeyClean(other, v);
    if row.key == other.key {
      KeyNames(row, w, other, v);
    }
  }

  lemma NextBarred(cfg: Settings, env: P.Env, sys: Sys, event: Event, row: WithdrawalRow, w: nat)
    requires Sound(env, sys) && TracksAll(row, sys, w) && Barred(env, row, w) && !HasOwn(sys.store, row)
    ensures !HasOwn(Next(cfg, env, sys, event).store, row)
  {
    hide Sound, Step, SignerRules.AfterExecute, AfterReconcileRow, P.TxidSane, P.ProviderRef, Text.Strip;
    if event.ExecuteRow? && event.w != w && event.w < |sys.wallet.withdrawals| {
      hide P.AfterExecute;
      OtherKey(env, sys, w, event.w);
    } else if event.Operator? {
      assert forall i :: 0 <= i < |sys.store.records| ==> sys.store.records[i].key != row.key;
    }
  }

  lemma {:induction false} StaysBarred(plan: Plan, env: P.Env, chain: string -> Sighting, sys: Sys, more: seq<Event>,
                                       w: nat)
    requires GoodEnv(env) && ProtocolRuns.Reachable(env, chain, sys) && sys.saved.None? && GoodEvents(chain, more)
    requires w < |sys.wallet.withdrawals|
    ensures var row, end := sys.wallet.withdrawals[w], CycleSteps.NextAll(plan, env, sys, more);
            && ProtocolRuns.Reachable(env, chain, end)
            && TracksAll(row, end, w)
            && (Barred(env, row, w) && !HasOwn(sys.store, row) ==> !HasOwn(end.store, row))
  {
    hide Next, Sound, TracksAll, Barred, HasOwn, ProtocolRuns.Reachable;
    var row := sys.wallet.withdrawals[w];
    if more == [] {
      assert TracksAll(row, sys, w) by {
        TracksSelf(sys, w);
      }
    } else {
      var n := |more| - 1;
      assert forall i :: 0 <= i < n ==> more[..n][i] == more[i];
      StaysBarred(plan, env, chain, sys, more[..n], w);
      var before := CycleSteps.NextAll(plan, env, sys, more[..n]);
      ProtocolRuns.ReachableSound(env, chain, before);
      OneMoreEvent(plan(n), env, chain, before, more[n]);
      NextTracks(plan(n), env, before, more[n], row, w);
      if Barred(env, row, w) && !HasOwn(sys.store, row) {
        NextBarred(plan(n), env, before, more[n], row, w);
      }
    }
  }

  lemma TracksSelf(sys: Sys, w: nat)
    requires w < |sys.wallet.withdrawals| && sys.saved.None?
    ensures TracksAll(sys.wallet.withdrawals[w], sys, w)
  {
  }

  lemma OneMoreEvent(cfg: Settings, env: P.Env, chain: string -> Sighting, sys: Sys, event: Event)
    requires ProtocolRuns.Reachable(env, chain, sys) && GoodEvent(chain, event)
    ensures ProtocolRuns.Reachable(env, chain, Next(cfg, env, sys, event))
  {
    hide Next;
    var plan: Plan, events: seq<Event> :| GoodEvents(chain, events) && History(plan, env, events) == sys;
    var more, next: Plan := events + [event], (i: nat) => if i == |events| then cfg else plan(i);
    assert more[..|events|] == events;
    ProtocolRuns.SamePlan(plan, next, env, events);
    assert GoodEvents(chain, more) && History(next, env, more) == Next(cfg, env, sys, event);
  }

  // ----- the history that does both

  lemma LeadsOn(cfg: Settings, env: P.Env, chain: string -> Sighting, sys: Sys, middle: Sys, event: Event)
    requires Leads(env, chain, sys, middle) && GoodEvent(chain, event)
    ensures Leads(env, chain, sys, Next(cfg, env, middle, event))
  {
    hide Next;
    var plan: Plan, events: seq<Event> :|
      GoodEvents(chain, events) && CycleSteps.NextAll(plan, env, sys, events) == middle;
    var more, next: Plan := events + [event], (i: nat) => if i == |events| then cfg else plan(i);
    assert more[..|events|] == events;
    CycleSteps.SamePlan(plan, next, env, sys, events);
    assert GoodEvents(chain, more) && CycleSteps.NextAll(next, env, sys, more) == Next(cfg, env, middle, event);
  }

  lemma LeadsSelf(cfg: Settings, env: P.Env, chain: string -> Sighting, sys: Sys)
    ensures Leads(env, chain, sys, sys)
  {
    assert GoodEvents(chain, []) && CycleSteps.NextAll(Fixed(cfg), env, sys, []) == sys;
  }

  function OperatorTxid(asset: Asset): string {
    if asset == SOL then Overdrafts.Repeated('1', 64) else Overdrafts.SomeTxid(asset)
  }

  lemma {:induction false} OnesDecode(n: nat)
    ensures Base58.Number(Overdrafts.Repeated('1', n)) == Some(0)
    ensures Base58.LeadingOnes(Overdrafts.Repeated('1', n)) == n
  {
    var ones := Overdrafts.Repeated('1', n);
    if n > 0 {
      assert ones[..n - 1] == ones[1..] == Overdrafts.Repeated('1', n - 1);
      OnesDecode(n - 1);
    }
  }

  lemma OperatorTxidSane(asset: Asset)
    ensures P.TxidSane(asset, OperatorTxid(asset)) && OperatorTxid(asset) != ""
  {
    if asset == SOL {
      NotStripped(OperatorTxid(asset));
      OnesDecode(64);
    } else {
      Overdrafts.SomeTxidSane(asset);
    }
  }

  /** An operator can set any existing record to confirmed. */
  lemma OperatorConfirms(env: P.Env, store: P.Store, row: WithdrawalRow, i: nat)
    requires P.StoreOk(env, store) && OwnRecord(store, row, i)
    ensures var updated := P.AfterUpdate(store, store.records[i].ref, StConfirmed, Some(OperatorTxid(row.asset)), None);
            updated.Ok? && Reported(updated.value, row, StConfirmed, Text.Strip(OperatorTxid(row.asset)))
  {
    hide P.TxidSane, OperatorTxid, P.ProviderRef;
    OperatorTxidSane(row.asset);
    var ref, txid := store.records[i].ref, OperatorTxid(row.asset);
    var f := P.Find(store.records, P.ByRef, ref);
    assert f.Some?;
    assert f.value == i;
    var t := P.AfterUpdate(store, ref, StConfirmed, Some(txid), None).value;
    assert t.audit[|store.audit|] == P.StatusSet(ref, StConfirmed, txid);
    assert OwnRecord(t, row, i) && P.Logged(t, t.records[i].ref, StConfirmed, txid);
  }

  /** A released row that has a record of its own can still be reported as confirmed. */
  lemma FailedThenConfirmed(cfg: Settings, env: P.Env, chain: string -> Sighting, start: Sys, sys: Sys, w: nat)
    requires Leads(env, chain, start, sys) && Sound(env, sys) && sys.saved.None?
    requires w < |sys.wallet.withdrawals| && sys.wallet.withdrawals[w].status == Failed
    requires HasOwn(sys.store, sys.wallet.withdrawals[w])
    ensures CanEndBothWays(env, chain, start, w)
  {
    hide RowsFit, P.StoreOk, P.AfterUpdate, Reported, OperatorTxid;
    var row := sys.wallet.withdrawals[w];
    var i :| 0 <= i < |sys.store.records| && sys.store.records[i].key == row.key;
    FoundIsOwn(sys.store, sys.wallet, w, i);
    OperatorConfirms(env, sys.store, row, i);
    var event := Operator(sys.store.records[i].ref, StConfirmed, Some(OperatorTxid(row.asset)), None);
    LeadsOn(cfg, env, chain, start, sys, event);
    assert BothWays(Next(cfg, env, sys, event), w);
  }

  /** A request the provider accepts leaves a record under the row's key, also when the answer is lost. */
  lemma AcceptedHasRecord(env: P.Env, sys: Sys, w: nat)
    requires GoodEnv(env) && Sound(env, sys) && w < |sys.wallet.withdrawals|
    requires P.Validated(env, RequestOf(sys.wallet.withdrawals[w], w)).Some?
    ensures HasOwn(P.AfterExecute(env, sys.store, RequestOf(sys.wallet.withdrawals[w], w)).0, sys.wallet.withdrawals[w])
  {
    hide RowsFit, P.TxidSane;
    var row, store := sys.wallet.withdrawals[w], sys.store;
    KeyOfRow(env, sys, w);
    KeyClean(row, w);
    var req := P.Validated(env, RequestOf(row, w)).value;
    var taken := P.Find(store.records, P.ByRef, P.ProviderRef(env, w, row.key));
    if P.Find(store.records, P.ByKey, row.key).None? {
      if taken.Some? {
        var r := store.records[taken.value];
        assert P.RecordOk(env, store, r);
        RefNames(env, r.withdrawalId, r.key, w, row.key);
      }
      var t := P.AfterCreate(env, store, req).value;
      assert t.records[|store.records|].key == row.key;
    }
  }

  lemma RefNames(env: P.Env, w: nat, key: string, v: nat, other: string)
    requires P.ProviderRef(env, w, key) == P.ProviderRef(env, v, other)
    ensures w == v
  {
    var rest := (i: nat, x: string) => Text.NatText(i) + ":" + x;
    assert P.ProviderRef(env, w, key)[6..] == rest(w, env.digest(key));
    assert P.ProviderRef(env, v, other)[6..] == rest(v, env.digest(other));
    Text.NumberThenColon(w, v, env.digest(key), env.digest(other));
  }

  /** Reachable, and by a continuation of the start. */
  ghost predicate After(env: P.Env, chain: string -> Sighting, start: Sys, sys: Sys) {
    Leads(env, chain, start, sys) && ProtocolRuns.Reachable(env, chain, sys)
  }

  lemma AfterNext(cfg: Settings, env: P.Env, chain: string -> Sighting, start: Sys, sys: Sys, event: Event)
    requires After(env, chain, start, sys) && GoodEvent(chain, event)
    ensures After(env, chain, start, Next(cfg, env, sys, event))
  {
    hide Leads, ProtocolRuns.Reachable, Next;
    LeadsOn(cfg, env, chain, start, sys, event);
    OneMoreEvent(cfg, env, chain, sys, event);
  }

  /** A committed cycle that handles one row. */
  function OneRowCycle(cfg: Settings, env: P.Env, sys: Sys, event: Event): Sys {
    Next(cfg, env, Next(cfg, env, Next(cfg, env, sys, BeginCycle), event), CommitCycle)
  }

  lemma AfterCycle(cfg: Settings, env: P.Env, chain: string -> Sighting, start: Sys, sys: Sys, event: Event)
    requires After(env, chain, start, sys) && GoodEvent(chain, event)
    ensures After(env, chain, start, OneRowCycle(cfg, env, sys, event))
  {
    hide After, Next;
    AfterNext(cfg, env, chain, start, sys, BeginCycle);
    AfterNext(cfg, env, chain, start, Next(cfg, env, sys, BeginCycle), event);
    AfterNext(cfg, env, chain, start, Next(cfg, env, Next(cfg, env, sys, BeginCycle), event), CommitCycle);
  }

  /** The request arrives, its answer does not: the provider has a record and the row waits for an admin. */
  lemma LostAnswer(cfg: Settings, env: P.Env, sys: Sys, w: nat)
    requires GoodEnv(env) && Sound(env, sys) && sys.saved.None?
    requires w < |sys.wallet.withdrawals| && sys.wallet.withdrawals[w].status == WPending
    requires P.Validated(env, RequestOf(sys.wallet.withdrawals[w], w)).Some?
    ensures var end, row := OneRowCycle(cfg, env, sys, ExecuteRow(w, ReplyLost)), sys.wallet.withdrawals[w];
            && end.saved.None? && HasOwn(end.store, row)
            && end.wallet.withdrawals == sys.wallet.withdrawals[w := row.(status := SignerRetry, txid := None)]
  {
    hide Sound, P.AfterExecute, HasOwn, P.Validated;
    AcceptedHasRecord(env, sys, w);
    KeyOfRow(env, sys, w);
    KeyClean(sys.wallet.withdrawals[w], w);
  }

  lemma AdminFails(cfg: Settings, env: P.Env, sys: Sys, w: nat)
    requires sys.saved.None? && w < |sys.wallet.withdrawals| && sys.wallet.withdrawals[w].status == SignerRetry
    ensures var end, row := Next(cfg, env, sys, WalletOp(AdminAction(w, false))), sys.wallet.withdrawals[w];
            && end.saved.None? && end.store == sys.store
            && end.wallet.withdrawals == sys.wallet.withdrawals[w := row.(status := Failed, txid := None)]
  {
  }

  /** A pending row the provider would accept: its answer is lost, an admin fails it, an operator confirms it. */
  lemma PendingThenBoth(cfg: Settings, env: P.Env, chain: string -> Sighting, start: Sys, sys: Sys, w: nat)
    requires GoodEnv(env) && After(env, chain, start, sys) && sys.saved.None?
    requires w < |sys.wallet.withdrawals| && sys.wallet.withdrawals[w].status == WPending
    requires P.Validated(env, RequestOf(sys.wallet.withdrawals[w], w)).Some?
    ensures CanEndBothWays(env, chain, start, w)
  {
    hide Sound, Leads, ProtocolRuns.Reachable, Next, OneRowCycle, P.Validated, CanEndBothWays;
    ProtocolRuns.ReachableSound(env, chain, sys);
    LostAnswer(cfg, env, sys, w);
    var lost := OneRowCycle(cfg, env, sys, ExecuteRow(w, ReplyLost));
    AfterCycle(cfg, env, chain, start, sys, ExecuteRow(w, ReplyLost));
    AdminFails(cfg, env, lost, w);
    AfterNext(cfg, env, chain, start, lost, WalletOp(AdminAction(w, false)));
    var failed := Next(cfg, env, lost, WalletOp(AdminAction(w, false)));
    ProtocolRuns.ReachableSound(env, chain, failed);
    FailedThenConfirmed(cfg, env, chain, start, failed, w);
  }

  /** Any unresolved row can be made pending again: one lost reconcile request and an admin. */
  lemma BackToPending(cfg: Settings, env: P.Env, sys: Sys, w: nat)
    requires sys.saved.None? && w < |sys.wallet.withdrawals| && Unresolved(sys.wallet.withdrawals[w].status)
    ensures var retried := OneRowCycle(cfg, env, sys, ReconcileRow(w, NotSent));
            var end, row := Next(cfg, env, retried, WalletOp(AdminAction(w, true))), sys.wallet.withdrawals[w];
            && end.saved.None? && end.store == sys.store
            && end.wallet.withdrawals == sys.wallet.withdrawals[w := row.(status := WPending, txid := None)]
  {
  }

  lemma InFlightThenBoth(cfg: Settings, env: P.Env, chain: string -> Sighting, sys: Sys, w: nat)
    requires GoodEnv(env) && ProtocolRuns.Reachable(env, chain, sys) && sys.saved.None?
    requires w < |sys.wallet.withdrawals| && Withdrawals.InFlight(sys.wallet.withdrawals[w].status)
    requires P.Validated(env, RequestOf(sys.wallet.withdrawals[w], w)).Some?
    ensures CanEndBothWays(env, chain, sys, w)
  {
    hide Leads, ProtocolRuns.Reachable, Next, OneRowCycle, P.Validated, CanEndBothWays;
    LeadsSelf(cfg, env, chain, sys);
    if sys.wallet.withdrawals[w].status == WPending {
      PendingThenBoth(cfg, env, chain, sys, sys, w);
    } else {
      var retried := OneRowCycle(cfg, env, sys, ReconcileRow(w, NotSent));
      BackToPending(cfg, env, sys, w);
      AfterCycle(cfg, env, chain, sys, sys, ReconcileRow(w, NotSent));
      AfterNext(cfg, env, chain, sys, retried, WalletOp(AdminAction(w, true)));
      PendingThenBoth(cfg, env, chain, sys, Next(cfg, env, retried, WalletOp(AdminAction(w, true))), w);
    }
  }

  /**
   Between cycles, in every reachable state: a row can still end up released to the user and reported as confirmed
   for its own record exactly when it is in flight and the provider would accept its request, or it has failed and
   its record exists. A confirmed row never can.
   */
  lemma BothWaysIff(env: P.Env, chain: string -> Sighting, sys: Sys, w: nat)
    requires GoodEnv(env) && ProtocolRuns.Reachable(env, chain, sys) && sys.saved.None?
    requires w < |sys.wallet.withdrawals|
    ensures var row := sys.wallet.withdrawals[w];
            CanEndBothWays(env, chain, sys, w) <==>
              || (Withdrawals.InFlight(row.status) && P.Validated(env, RequestOf(row, w)).Some?)
              || (row.status == Failed && HasOwn(sys.store, row))
  {
    hide P.Validated, HasOwn, BothWays, Sound, History;
    var row := sys.wallet.withdrawals[w];
    var before: Plan, events: seq<Event> :| GoodEvents(chain, events) && History(before, env, events) == sys;
    var cfg := before(0);
    hide ProtocolRuns.Reachable;
    ProtocolRuns.ReachableSound(env, chain, sys);
    if Withdrawals.InFlight(row.status) && P.Validated(env, RequestOf(row, w)).Some? {
      InFlightThenBoth(cfg, env, chain, sys, w);
    } else if row.status == Failed && HasOwn(sys.store, row) {
      LeadsSelf(cfg, env, chain, sys);
      FailedThenConfirmed(cfg, env, chain, sys, sys, w);
    } else {
      NoOwnNow(env, chain, sys, w);
      forall plan: Plan, more: seq<Event> | GoodEvents(chain, more)
        ensures !BothWays(CycleSteps.NextAll(plan, env, sys, more), w)
      {
        StaysBarred(plan, env, chain, sys, more, w);
        NotBoth(row, CycleSteps.NextAll(plan, env, sys, more), w);
      }
    }
  }

  /** An in-flight row the provider would turn down has no record. */
  lemma NoOwnNow(env: P.Env, chain: string -> Sighting, sys: Sys, w: nat)
    requires GoodEnv(env) && ProtocolRuns.Reachable(env, chain, sys) && w < |sys.wallet.withdrawals|
    ensures HasOwn(sys.store, sys.wallet.withdrawals[w]) ==>
              P.Validated(env, RequestOf(sys.wallet.withdrawals[w], w)).Some?
  {
    hide History, P.Validated, HasOwn, AllValid, Sound;
    ProtocolRuns.ReachableSound(env, chain, sys);
    var plan: Plan, events: seq<Event> :| GoodEvents(chain, events) && History(plan, env, events) == sys;
    AlwaysValid(plan, env, events);
    if HasOwn(sys.store, sys.wallet.withdrawals[w]) {
      OwnIsValid(env, sys, w);
    }
  }

  lemma NotBoth(row: WithdrawalRow, end: Sys, w: nat)
    requires TracksAll(row, end, w)
    requires HasOwn(end.store, row) ==> row.status == Confirmed
    ensures !BothWays(end, w)
  {
  }
}
