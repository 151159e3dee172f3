/** signer/signer_service.py: one signer cycle over the wallet tables and the provider's store. */
module SignerCycle {
  import opened Tables
  import opened ProviderReplies
  import opened SignerRules
  import P = ProviderService
  import Custody
  import Lifecycles
  import Withdrawals

  /** How far a request and its answer get through the network. */
  datatype Delivery = NotSent | ReplyLost | Delivered

  function RequestOf(row: WithdrawalRow, w: nat): P.Request {
    P.Request(w, row.user, row.asset, row.amount, row.destination, row.key)
  }

  function Heard<T>(delivery: Delivery, answer: Option<T>): Option<T> {
    if delivery.Delivered? then answer else None
  }

  function ExecuteExchange(env: P.Env, store: P.Store, row: WithdrawalRow, w: nat, delivery: Delivery)
    : (P.Store, Option<Body>)
  {
    if row.key == "" || delivery.NotSent? then (store, None)
    else
      var answered := P.AfterExecute(env, store, RequestOf(row, w));
      (answered.0, Heard(delivery, answered.1))
  }

  function AfterExecuteRow(env: P.Env, s: Snapshot, store: P.Store, w: nat, delivery: Delivery): (Snapshot, P.Store) {
    if w >= |s.withdrawals| then (s, store)
    else
      var exchange := ExecuteExchange(env, store, s.withdrawals[w], w, delivery);
      (AfterExecute(s, w, exchange.1), exchange.0)
  }

  function ReconcileReply(store: P.Store, row: WithdrawalRow, delivery: Delivery): Option<Body> {
    Heard(delivery, Some(P.ReconcileAnswer(store, row.key, row.providerRef)))
  }

  function AfterReconcileRow(s: Snapshot, store: P.Store, w: nat, delivery: Delivery): Snapshot {
    if w >= |s.withdrawals| then s else AfterReconcile(s, w, ReconcileReply(store, s.withdrawals[w], delivery))
  }

  /** Ids of the rows in the given status class, in id order. */
  function Ids(rows: seq<WithdrawalRow>, wanted: (nat, WithdrawalStatus) -> bool): (ids: seq<nat>)
    ensures forall i :: 0 <= i < |ids| ==> ids[i] < |rows| && wanted(ids[i], rows[ids[i]].status)
    ensures forall i, j :: 0 <= i < j < |ids| ==> ids[i] < ids[j]
    ensures forall w: nat :: w < |rows| && wanted(w, rows[w].status) ==> w in ids
  {
    if rows == [] then []
    else
      var n := |rows| - 1;
      Ids(rows[..n], wanted) + if wanted(n, rows[n].status) then [n] else []
  }

  function PendingIds(rows: seq<WithdrawalRow>): seq<nat> {
    Ids(rows, (w: nat, status: WithdrawalStatus) => status == WPending)
  }

  /** The rows whose reconcile interval is over; due stands for the time stamps. */
  function DueIds(rows: seq<WithdrawalRow>, due: nat -> bool): seq<nat> {
    Ids(rows, (w: nat, status: WithdrawalStatus) => Custody.Unresolved(status) && due(w))
  }

  function AfterExecutes(env: P.Env, s: Snapshot, store: P.Store, ids: seq<nat>,
                         deliveries: nat -> Delivery): (Snapshot, P.Store)
  {
    if ids == [] then (s, store)
    else
      var n := |ids| - 1;
      var before := AfterExecutes(env, s, store, ids[..n], deliveries);
      AfterExecuteRow(env, before.0, before.1, ids[n], deliveries(ids[n]))
  }

  function AfterReconciles(s: Snapshot, store: P.Store, ids: seq<nat>, deliveries: nat -> Delivery): Snapshot {
    if ids == [] then s
    else
      var n := |ids| - 1;
      AfterReconcileRow(AfterReconciles(s, store, ids[..n], deliveries), store, ids[n], deliveries(ids[n]))
  }

  method Finish(db: Database, w: nat, result: ExecutionResult, mapped: Mapped)
    requires w < |db.withdrawals| && mapped.Proceed?
    modifies db
    ensures db.Now() == AfterAccepted(old(db.Now()), w, result, mapped)
  {
    hide Withdrawals.AfterRecordResult, Withdrawals.AfterSubmitted, Withdrawals.AfterBroadcasted;
    hide Withdrawals.AfterConfirmed;
    var recorded := Withdrawals.RecordProviderResult(db, w, db.withdrawals[w].key, result);
    if recorded.Err? {
      Withdrawals.MarkSignerRetry(db, w);
      return;
    }
    RecordKeepsCount(old(db.Now()), w, old(db.withdrawals[w].key), result);
    match mapped.status {
      case StSubmitted => Withdrawals.MarkSubmitted(db, w, result.providerRef);
      case StBroadcasted => Withdrawals.MarkBroadcasted(db, w, mapped.txid, result.providerRef);
      case StConfirmed => Withdrawals.MarkConfirmed(db, w, mapped.txid, result.providerRef);
      case _ =>
    }
  }

  lemma RecordKeepsCount(s: Snapshot, w: nat, key: string, result: ExecutionResult)
    requires w < |s.withdrawals| && Withdrawals.AfterRecordResult(s, w, key, result).Ok?
    ensures |Withdrawals.AfterRecordResult(s, w, key, result).value.withdrawals| == |s.withdrawals|
  {
  }

  method ExecuteSingle(env: P.Env, db: Database, provider: P.ProviderStore, w: nat, delivery: Delivery)
    requires w < |db.withdrawals|
    modifies db, provider
    ensures (db.Now(), provider.Now()) == AfterExecuteRow(env, old(db.Now()), old(provider.Now()), w, delivery)
  {
    hide AfterAccepted, P.AfterExecute, Withdrawals.AfterFailed, ParseResult;
    var row := db.withdrawals[w];
    if row.key == "" || delivery.NotSent? {
      Withdrawals.MarkSignerRetry(db, w);
      return;
    }
    var answer := provider.HandleExecute(env, RequestOf(row, w));
    if answer.None? || delivery.ReplyLost? || ParseResult(answer.value).None? {
      Withdrawals.MarkSignerRetry(db, w);
      return;
    }
    var result := ParseResult(answer.value).value;
    match MapResult(result) {
      case Deterministic => Withdrawals.MarkFailed(db, w);
      case Retryable => Withdrawals.MarkSignerRetry(db, w);
      case Proceed(status, txid) =>
        if result.asset.Some? && result.asset.value != row.asset {
          Withdrawals.MarkSignerRetry(db, w);
        } else {
          Finish(db, w, result, Proceed(status, txid));
        }
    }
  }

  method ReconcileSingle(db: Database, provider: P.ProviderStore, w: nat, delivery: Delivery)
    requires w < |db.withdrawals|
    modifies db
    ensures db.Now() == AfterReconcileRow(old(db.Now()), provider.Now(), w, delivery)
  {
    hide AfterAccepted, P.ReconcileAnswer, ParseResult;
    var row := db.withdrawals[w];
    var answer := provider.HandleReconcile(row.key, row.providerRef);
    if !delivery.Delivered? || ParseResult(answer).None? {
      Withdrawals.MarkSignerRetry(db, w);
      return;
    }
    var result := ParseResult(answer).value;
    if row.providerRef != "" && result.providerRef != "" && row.providerRef != result.providerRef {
      Withdrawals.MarkSignerRetry(db, w);
      return;
    }
    if result.asset.Some? && result.asset.value != row.asset {
      Withdrawals.MarkSignerRetry(db, w);
      return;
    }
    match MapResult(result) {
      case Proceed(status, txid) => Finish(db, w, result, Proceed(status, txid));
      case _ => Withdrawals.MarkSignerRetry(db, w);
    }
  }

  lemma ExecuteKeepsCount(env: P.Env, s: Snapshot, store: P.Store, w: nat, delivery: Delivery)
    ensures |AfterExecuteRow(env, s, store, w, delivery).0.withdrawals| == |s.withdrawals|
  {
    hide AfterExecute, ExecuteExchange;
    if w < |s.withdrawals| {
      Lifecycles.ExecuteAdds(s, w, ExecuteExchange(env, store, s.withdrawals[w], w, delivery).1);
    }
  }

  lemma ReconcileKeepsCount(s: Snapshot, store: P.Store, w: nat, delivery: Delivery)
    ensures |AfterReconcileRow(s, store, w, delivery).withdrawals| == |s.withdrawals|
  {
    hide AfterReconcile, ReconcileReply;
    if w < |s.withdrawals| {
      Lifecycles.ReconcileNeverReleases(s, w, ReconcileReply(store, s.withdrawals[w], delivery));
    }
  }

  /** process_withdrawals: first every pending row, then every unresolved row that is due. */
  method ProcessWithdrawals(env: P.Env, db: Database, provider: P.ProviderStore, deliveries: nat -> Delivery,
                            due: nat -> bool, answers: nat -> Delivery)
    modifies db, provider
    ensures var executed :=
            AfterExecutes(env, old(db.Now()), old(provider.Now()), PendingIds(old(db.withdrawals)), deliveries);
            && provider.Now() == executed.1
            && db.Now() == AfterReconciles(executed.0, executed.1, DueIds(executed.0.withdrawals, due), answers)
  {
    hide AfterExecuteRow, AfterReconcileRow, Ids;
    hide P.AfterExecute, ExecuteExchange, ReconcileReply, PendingIds, DueIds;
    var pending := PendingIds(db.withdrawals);
    PendingInRange(db.withdrawals);
    ghost var s, store := db.Now(), provider.Now();
    for i := 0 to |pending|
      invariant |db.withdrawals| == |s.withdrawals|
      invariant (db.Now(), provider.Now()) == AfterExecutes(env, s, store, pending[..i], deliveries)
    {
      ExecuteKeepsCount(env, db.Now(), provider.Now(), pending[i], deliveries(pending[i]));
      ExecuteSingle(env, db, provider, pending[i], deliveries(pending[i]));
      assert pending[..i + 1][..i] == pending[..i];
    }
    assert pending[..|pending|] == pending;
    ghost var executed := db.Now();
    var unresolved := DueIds(db.withdrawals, due);
    DueInRange(db.withdrawals, due);
    for i := 0 to |unresolved|
      invariant |db.withdrawals| == |executed.withdrawals|
      invariant db.Now() == AfterReconciles(executed, provider.Now(), unresolved[..i], answers)
      invariant provider.Now() == AfterExecutes(env, s, store, pending, deliveries).1
    {
      ReconcileKeepsCount(db.Now(), provider.Now(), unresolved[i], answers(unresolved[i]));
      ReconcileSingle(db, provider, unresolved[i], answers(unresolved[i]));
      assert unresolved[..i + 1][..i] == unresolved[..i];
    }
    assert unresolved[..|unresolved|] == unresolved;
  }

  lemma PendingInRange(rows: seq<WithdrawalRow>)
    ensures forall i :: 0 <= i < |PendingIds(rows)| ==>
            PendingIds(rows)[i] < |rows| && rows[PendingIds(rows)[i]].status == WPending
  {
  }

  lemma DueInRange(rows: seq<WithdrawalRow>, due: nat -> bool)
    ensures forall i :: 0 <= i < |DueIds(rows, due)| ==>
            DueIds(rows, due)[i] < |rows| && Custody.Unresolved(rows[DueIds(rows, due)[i]].status)
  {
  }
}
