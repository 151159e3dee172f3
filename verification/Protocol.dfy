/**
 The wallet and the withdrawal provider together: replies get lost, a signer cycle can be rolled back
 after the provider has acted, admins requeue rows and operators set any provider status at any time.
 */
module Protocol {
  import opened Tables
  import opened ProviderReplies
  import opened SignerCycle
  import opened Custody
  import P = ProviderService
  import Lifecycles
  import SignerRules
  import Text
  import WalletFees
  import Withdrawals

  /** saved holds the committed tables while a signer cycle is open. */
  datatype Sys = Sys(wallet: Snapshot, store: P.Store, saved: Option<Snapshot>)

  datatype Event =
    | WalletOp(op: Op)
    | BeginCycle
    | ExecuteRow(w: nat, delivery: Delivery)
    | ReconcileRow(w: nat, delivery: Delivery)
    | CommitCycle
    | RollbackCycle
    | Operator(ref: string, status: ReplyStatus, txid: Option<string>, fee: Option<FeeField>)

  const START := Sys(EMPTY, P.Store([], []), None)

  function Next(cfg: Settings, env: P.Env, sys: Sys, event: Event): Sys {
    match event
    case WalletOp(op) =>
      if sys.saved.None? && !op.Execute? && !op.Reconcile? then sys.(wallet := Step(cfg, sys.wallet, op)) else sys
    case BeginCycle => if sys.saved.None? then sys.(saved := Some(sys.wallet)) else sys
    case ExecuteRow(w, delivery) =>
      if sys.saved.Some? && w < |sys.wallet.withdrawals| && sys.wallet.withdrawals[w].status == WPending
      then
        var after := AfterExecuteRow(env, sys.wallet, sys.store, w, delivery);
        sys.(wallet := after.0, store := after.1)
      else sys
    case ReconcileRow(w, delivery) =>
      if sys.saved.Some? && w < |sys.wallet.withdrawals| && Unresolved(sys.wallet.withdrawals[w].status)
      then sys.(wallet := AfterReconcileRow(sys.wallet, sys.store, w, delivery))
      else sys
    case CommitCycle => sys.(saved := None)
    case RollbackCycle => if sys.saved.Some? then sys.(wallet := sys.saved.value, saved := None) else sys
    case Operator(ref, status, txid, fee) =>
      var updated := P.AfterUpdate(sys.store, ref, status, txid, fee);
      if updated.Ok? then sys.(store := updated.value) else sys
  }

  function History(plan: Plan, env: P.Env, events: seq<Event>): Sys {
    if events == [] then START
    else
      var n := |events| - 1;
      Next(plan(n), env, History(plan, env, events[..n]), events[n])
  }

  /** Digests are hexadecimal. */
  predicate HexText(s: string) {
    |s| > 0 && forall i :: 0 <= i < |s| ==> Withdrawals.HexDigit(s[i])
  }

  ghost predicate GoodEnv(env: P.Env) {
    forall key: string :: HexText(env.digest(key))
  }

  ghost predicate GoodEvents(chain: string -> Sighting, events: seq<Event>) {
    forall i :: 0 <= i < |events| ==> GoodEvent(chain, events[i])
  }

  predicate GoodEvent(chain: string -> Sighting, event: Event) {
    event.WalletOp? ==> Admissible(chain, event.op) && (event.op.Request? ==> HexText(event.op.digest))
  }

  // ----- what links a withdrawal to the provider's record

  /** The key was built for this row when it was created. */
  ghost predicate KeyOf(row: WithdrawalRow, w: nat) {
    exists digest: string :: HexText(digest) && row.key == Withdrawals.BuildIdempotencyKey(w, digest)
  }

  /** A record with the row's key, for the row's asset and amount. */
  predicate OwnRecord(store: P.Store, row: WithdrawalRow, i: nat) {
    i < |store.records| && store.records[i].key == row.key && store.records[i].asset == row.asset &&
      store.records[i].amount == row.amount
  }

  /** At some point an operator gave the row's own record this status with this txid. */
  ghost predicate Reported(store: P.Store, row: WithdrawalRow, status: ReplyStatus, txid: string) {
    exists i: nat, raw: string ::
      OwnRecord(store, row, i) && P.Logged(store, store.records[i].ref, status, raw) && Text.Strip(raw) == txid
  }

  ghost predicate RefKnown(store: P.Store, row: WithdrawalRow) {
    exists i: nat :: OwnRecord(store, row, i) && store.records[i].ref == row.providerRef
  }

  ghost predicate OnChainOk(store: P.Store, row: WithdrawalRow) {
    && (row.status == Broadcasted ==>
          row.txid.Some? && Withdrawals.TxidSane(row.asset, row.txid.value) &&
            Reported(store, row, StBroadcasted, row.txid.value))
    && (row.status == Confirmed ==>
          row.txid.Some? && Withdrawals.TxidSane(row.asset, row.txid.value) &&
            Reported(store, row, StConfirmed, row.txid.value))
  }

  ghost predicate RowFits(store: P.Store, row: WithdrawalRow, w: nat) {
    KeyOf(row, w) && (row.providerRef != "" ==> RefKnown(store, row)) && OnChainOk(store, row)
  }

  ghost predicate RowsFit(store: P.Store, rows: seq<WithdrawalRow>) {
    forall w: nat :: w < |rows| ==> RowFits(store, rows[w], w)
  }

  predicate OrderMatches(r: P.Record, row: WithdrawalRow) {
    && r.key == row.key && r.user == row.user && r.asset == row.asset && r.amount == row.amount
    && r.destination == Text.Strip(row.destination)
  }

  /** Every record belongs to an existing withdrawal and repeats what it asks for. */
  ghost predicate RecordsFit(store: P.Store, rows: seq<WithdrawalRow>) {
    forall i :: 0 <= i < |store.records| ==>
      store.records[i].withdrawalId < |rows| && OrderMatches(store.records[i], rows[store.records[i].withdrawalId])
  }

  ghost predicate SameOrders(earlier: seq<WithdrawalRow>, rows: seq<WithdrawalRow>) {
    |earlier| == |rows| && forall w :: 0 <= w < |rows| ==>
      Lifecycles.SameOrder(earlier[w], rows[w]) && RefKept(earlier[w], rows[w])
  }

  predicate RefKept(earlier: WithdrawalRow, row: WithdrawalRow) {
    earlier.providerRef != "" ==> row.providerRef == earlier.providerRef
  }

  ghost predicate Fits(env: P.Env, store: P.Store, s: Snapshot) {
    P.StoreOk(env, store) && RowsFit(store, s.withdrawals) && RecordsFit(store, s.withdrawals)
  }

  ghost predicate Sound(env: P.Env, sys: Sys) {
    && Fits(env, sys.store, sys.wallet)
    && (sys.saved.Some? ==>
        Fits(env, sys.store, sys.saved.value) && SameOrders(sys.saved.value.withdrawals, sys.wallet.withdrawals))
  }

  // ----- texts

  lemma HexNoSpace(s: string)
    requires HexText(s)
    ensures !Text.IsSpace(s[|s| - 1])
  {
  }

  lemma NotStripped(s: string)
    requires s != [] && !Text.IsSpace(s[0]) && !Text.IsSpace(s[|s| - 1])
    ensures Text.Strip(s) == s
  {
  }

  lemma KeyClean(row: WithdrawalRow, w: nat)
    requires KeyOf(row, w)
    ensures Text.Strip(row.key) == row.key != ""
  {
    var digest: string :| HexText(digest) && row.key == Withdrawals.BuildIdempotencyKey(w, digest);
    HexNoSpace(digest);
    assert row.key[0] == 'w' && row.key[|row.key| - 1] == digest[|digest| - 1];
    NotStripped(row.key);
  }

  lemma RefClean(env: P.Env, w: nat, key: string)
    requires GoodEnv(env)
    ensures Text.Strip(P.ProviderRef(env, w, key)) == P.ProviderRef(env, w, key) != ""
  {
    var ref, digest := P.ProviderRef(env, w, key), env.digest(key);
    HexNoSpace(digest);
    assert ref[0] == 'm' && ref[|ref| - 1] == digest[|digest| - 1];
    NotStripped(ref);
  }

  lemma KeyNames(row: WithdrawalRow, w: nat, other: WithdrawalRow, v: nat)
    requires KeyOf(row, w) && KeyOf(other, v) && row.key == other.key
    ensures w == v
  {
    var d: string :| HexText(d) && row.key == Withdrawals.BuildIdempotencyKey(w, d);
    var e: string :| HexText(e) && other.key == Withdrawals.BuildIdempotencyKey(v, e);
    Withdrawals.KeyNamesRow(w, v, d, e);
  }

  // ----- a later store

  lemma RowFitsLater(earlier: P.Store, store: P.Store, row: WithdrawalRow, w: nat)
    requires P.Later(earlier, store) && RowFits(earlier, row, w)
    ensures RowFits(store, row, w)
  {
    forall i: nat | OwnRecord(earlier, row, i)
      ensures OwnRecord(store, row, i) && store.records[i].ref == earlier.records[i].ref {
    }
    forall status: ReplyStatus, txid: string | Reported(earlier, row, status, txid)
      ensures Reported(store, row, status, txid) {
      var i: nat, raw: string :| OwnRecord(earlier, row, i) && P.Logged(earlier, earlier.records[i].ref, status, raw) &&
        Text.Strip(raw) == txid;
      P.LogKept(earlier, store, earlier.records[i].ref, status, raw);
      assert OwnRecord(store, row, i);
    }
    if row.providerRef != "" {
      var i: nat :| OwnRecord(earlier, row, i) && earlier.records[i].ref == row.providerRef;
      assert OwnRecord(store, row, i);
    }
  }

  lemma RowsFitLater(earlier: P.Store, store: P.Store, rows: seq<WithdrawalRow>)
    requires P.Later(earlier, store) && RowsFit(earlier, rows)
    ensures RowsFit(store, rows)
  {
    forall w: nat | w < |rows| ensures RowFits(store, rows[w], w) {
      RowFitsLater(earlier, store, rows[w], w);
    }
  }

  lemma OperatorFits(env: P.Env, store: P.Store, s: Snapshot, ref: string, status: ReplyStatus, txid: Option<string>,
                     fee: Option<FeeField>)
    requires Fits(env, store, s) && P.AfterUpdate(store, ref, status, txid, fee).Ok?
    ensures Fits(env, P.AfterUpdate(store, ref, status, txid, fee).value, s)
  {
    hide RowFits, P.AfterUpdate, P.StoreOk;
    var t := P.AfterUpdate(store, ref, status, txid, fee).value;
    P.UpdateKeepsStore(env, store, ref, status, txid, fee);
    RowsFitLater(store, t, s.withdrawals);
    assert forall i :: 0 <= i < |store.records| ==> P.SameIdentity(store.records[i], t.records[i]);
  }

  // ----- answers are about the row's own record

  ghost predicate FromOwn(store: P.Store, row: WithdrawalRow, body: Body) {
    exists i: nat :: OwnRecord(store, row, i) && body == P.Response(store.records[i])
  }

  ghost predicate AboutOwn(store: P.Store, row: WithdrawalRow, reply: Option<Body>) {
    reply.Some? ==>
      reply.value == P.RejectedBody(row.asset) || reply.value == P.NOT_FOUND || FromOwn(store, row, reply.value)
  }

  /** A record that carries the key of row w was made for row w. */
  lemma FoundIsOwn(store: P.Store, s: Snapshot, w: nat, i: nat)
    requires RowsFit(store, s.withdrawals) && RecordsFit(store, s.withdrawals) && w < |s.withdrawals|
    requires i < |store.records|
    requires store.records[i].key == s.withdrawals[w].key
    ensures store.records[i].withdrawalId == w && OrderMatches(store.records[i], s.withdrawals[w]) &&
            OwnRecord(store, s.withdrawals[w], i)
  {
    var v := store.records[i].withdrawalId;
    assert RowFits(store, s.withdrawals[w], w) && RowFits(store, s.withdrawals[v], v);
    KeyNames(s.withdrawals[w], w, s.withdrawals[v], v);
  }

  /** A request, first or repeated, is answered from the row's own record; a repeated one always matches it. */
  lemma AskedOwn(env: P.Env, store: P.Store, s: Snapshot, w: nat)
    requires Fits(env, store, s) && w < |s.withdrawals|
    ensures var e := P.AfterExecute(env, store, RequestOf(s.withdrawals[w], w));
            && RecordsFit(e.0, s.withdrawals)
            && (e.1.Some? ==>
                e.1.value == P.RejectedBody(s.withdrawals[w].asset) || FromOwn(e.0, s.withdrawals[w], e.1.value))
  {
    hide P.StoreOk, P.ProviderRef;
    var row := s.withdrawals[w];
    assert RowFits(store, row, w);
    KeyClean(row, w);
    var req := P.Validated(env, RequestOf(row, w));
    if req.Some? {
      var found := P.Find(store.records, P.ByKey, row.key);
      if found.Some? {
        FoundIsOwn(store, s, w, found.value);
      } else {
        hide RowsFit, RowFits;
        var created := P.AfterCreate(env, store, req.value);
        assert created.Ok? ==> OwnRecord(created.value, row, |store.records|);
      }
    }
  }

  lemma ExecuteFits(env: P.Env, store: P.Store, s: Snapshot, w: nat)
    requires Fits(env, store, s) && w < |s.withdrawals|
    ensures var t := P.AfterExecute(env, store, RequestOf(s.withdrawals[w], w)).0; Fits(env, t, s) && P.Later(store, t)
  {
    hide P.StoreOk, RowsFit, RecordsFit, P.Later, P.AfterExecute;
    var t := P.AfterExecute(env, store, RequestOf(s.withdrawals[w], w)).0;
    P.ExecuteKeepsStore(env, store, RequestOf(s.withdrawals[w], w));
    AskedOwn(env, store, s, w);
    RowsFitLater(store, t, s.withdrawals);
  }

  /** A reconcile answer is never about another key. */
  lemma ReconciledOwn(env: P.Env, store: P.Store, s: Snapshot, w: nat)
    requires GoodEnv(env) && Fits(env, store, s) && w < |s.withdrawals|
    ensures var answer := P.ReconcileAnswer(store, s.withdrawals[w].key, s.withdrawals[w].providerRef);
            answer == P.NOT_FOUND || FromOwn(store, s.withdrawals[w], answer)
  {
    hide P.ProviderRef, P.TxidSane, P.Logged, P.Find;
    var row := s.withdrawals[w];
    assert RowFits(store, row, w);
    KeyClean(row, w);
    var byKey := P.Find(store.records, P.ByKey, row.key);
    if byKey.Some? {
      FoundIsOwn(store, s, w, byKey.value);
    }
    if row.providerRef != "" {
      var i: nat :| OwnRecord(store, row, i) && store.records[i].ref == row.providerRef;
      assert P.RecordOk(env, store, store.records[i]);
      RefClean(env, store.records[i].withdrawalId, store.records[i].key);
    } else {
      assert Text.Strip(row.providerRef) == "";
    }
  }

  // ----- what an answer does to a row

  /** The row after an accepted on-chain or submitted answer. */
  predicate Accepted(earlier: WithdrawalRow, row: WithdrawalRow, result: ExecutionResult) {
    && row.providerRef == Withdrawals.Coalesce(earlier.providerRef, result.providerRef)
    && (earlier.providerRef != "" && result.providerRef != "" ==> earlier.providerRef == result.providerRef)
    && (row.status == Broadcasted ==> result.status == StBroadcasted)
    && (row.status == Confirmed ==> result.status == StConfirmed)
    && (row.status == Broadcasted || row.status == Confirmed ==>
          row.txid == Some(Text.Strip(result.txid)) && Withdrawals.TxidSane(earlier.asset, result.txid))
    && row.status in {Submitted, Broadcasted, Confirmed}
  }

  predicate GivenUp(earlier: WithdrawalRow, row: WithdrawalRow) {
    row.providerRef == earlier.providerRef && row.status in {SignerRetry, Failed}
  }

  lemma MarkedRow(s: Snapshot, w: nat, mapped: SignerRules.Mapped, ref: string)
    requires w < |s.withdrawals| && mapped.Proceed? && mapped.status in {StSubmitted, StBroadcasted, StConfirmed}
    ensures var t := SignerRules.AfterMark(s, w, mapped, ref);
            && w < |t.withdrawals| &&
               t.withdrawals[w].providerRef == Withdrawals.Coalesce(s.withdrawals[w].providerRef, ref)
            && t.withdrawals[w].status ==
               (if mapped.status == StSubmitted then Submitted else if mapped.status == StBroadcasted then Broadcasted
                else Confirmed)
            && (mapped.status != StSubmitted ==> t.withdrawals[w].txid == Some(mapped.txid))
  {
    hide WalletFees.QuantizeAsset;
  }

  lemma RecordedRow(s: Snapshot, w: nat, result: ExecutionResult)
    requires w < |s.withdrawals| && Withdrawals.AfterRecordResult(s, w, s.withdrawals[w].key, result).Ok?
    ensures var t, row := Withdrawals.AfterRecordResult(s, w, s.withdrawals[w].key, result).value, s.withdrawals[w];
            && w < |t.withdrawals| &&
               t.withdrawals[w].providerRef == Withdrawals.Coalesce(row.providerRef, result.providerRef)
            && (row.providerRef != "" && result.providerRef != "" ==> row.providerRef == result.providerRef)
            && (OnChain(result.status) ==> Withdrawals.TxidSane(row.asset, result.txid))
  {
    hide WalletFees.QuantizeAsset, Withdrawals.TxidSane, Withdrawals.RefTaken;
  }

  lemma AcceptedRow(s: Snapshot, w: nat, result: ExecutionResult)
    requires w < |s.withdrawals| && SignerRules.MapResult(result).Proceed?
    ensures var t := SignerRules.AfterAccepted(s, w, result, SignerRules.MapResult(result));
            w < |t.withdrawals| &&
              (GivenUp(s.withdrawals[w], t.withdrawals[w]) || Accepted(s.withdrawals[w], t.withdrawals[w], result))
  {
    hide Withdrawals.AfterRecordResult, Withdrawals.TxidSane, SignerRules.AfterMark;
    var recorded := Withdrawals.AfterRecordResult(s, w, s.withdrawals[w].key, result);
    if recorded.Ok? {
      RecordedRow(s, w, result);
      MarkedRow(recorded.value, w, SignerRules.MapResult(result), result.providerRef);
    }
  }

  /** A given-up row, or one that accepted the answer it got. */
  predicate RowAnswered(earlier: WithdrawalRow, row: WithdrawalRow, reply: Option<Body>) {
    || GivenUp(earlier, row)
    || (&& reply.Some? && ParseResult(reply.value).Some? &&
        SignerRules.MapResult(ParseResult(reply.value).value).Proceed?
        && Accepted(earlier, row, ParseResult(reply.value).value))
  }

  lemma AnsweredRow(s: Snapshot, w: nat, reply: Option<Body>)
    requires w < |s.withdrawals|
    ensures var t := SignerRules.AfterExecute(s, w, reply);
            w < |t.withdrawals| && RowAnswered(s.withdrawals[w], t.withdrawals[w], reply)
    ensures var t := SignerRules.AfterReconcile(s, w, reply);
            w < |t.withdrawals| && RowAnswered(s.withdrawals[w], t.withdrawals[w], reply)
  {
    hide ParseResult, SignerRules.AfterAccepted, Accepted;
    if reply.Some? && ParseResult(reply.value).Some? && SignerRules.MapResult(ParseResult(reply.value).value).Proceed? {
      AcceptedRow(s, w, ParseResult(reply.value).value);
    }
  }

  /** A row stays fit under an answer about its own record. */
  lemma AnswerFits(env: P.Env, store: P.Store, earlier: WithdrawalRow, row: WithdrawalRow, w: nat, body: Body)
    requires GoodEnv(env) && P.StoreOk(env, store) && RowFits(store, earlier, w) && Lifecycles.SameOrder(earlier, row)
    requires AboutOwn(store, earlier, Some(body)) && ParseResult(body).Some?
    requires SignerRules.MapResult(ParseResult(body).value).Proceed?
    requires Accepted(earlier, row, ParseResult(body).value)
    ensures RowFits(store, row, w) && RefKept(earlier, row)
  {
    hide Withdrawals.TxidSane, P.TxidSane, P.ProviderRef;
    var result := ParseResult(body).value;
    var i: nat :| OwnRecord(store, earlier, i) && body == P.Response(store.records[i]);
    var r := store.records[i];
    assert P.RecordOk(env, store, r);
    RefClean(env, r.withdrawalId, r.key);
    assert result.providerRef == r.ref;
    assert OwnRecord(store, row, i);
    Text.StripIdempotent(r.txid);
    assert OnChain(r.status) ==> Reported(store, row, r.status, Text.Strip(r.txid));
    if earlier.providerRef != "" {
      assert RefKnown(store, earlier);
    }
    assert RefKnown(store, row);
  }

  lemma GivenUpFits(store: P.Store, earlier: WithdrawalRow, row: WithdrawalRow, w: nat)
    requires RowFits(store, earlier, w) && Lifecycles.SameOrder(earlier, row) && GivenUp(earlier, row)
    ensures RowFits(store, row, w) && RefKept(earlier, row)
  {
    if row.providerRef != "" {
      var i: nat :| OwnRecord(store, earlier, i) && store.records[i].ref == row.providerRef;
      assert OwnRecord(store, row, i);
    }
  }

  /** Changing one row keeps everything linked when that row stays linked. */
  lemma OneRowFits(env: P.Env, store: P.Store, s: Snapshot, t: Snapshot, w: nat)
    requires Fits(env, store, s) && w < |s.withdrawals| && Lifecycles.OnlyWithdrawal(s, t, w)
    requires RowFits(store, t.withdrawals[w], w)
    ensures Fits(env, store, t)
  {
    hide P.StoreOk, RowFits;
    assert forall v: nat :: v < |s.withdrawals| ==> RowFits(store, s.withdrawals[v], v);
    assert forall i :: 0 <= i < |store.records| ==>
           OrderMatches(store.records[i], s.withdrawals[store.records[i].withdrawalId]);
  }

  lemma ReplyFits(env: P.Env, store: P.Store, s: Snapshot, t: Snapshot, w: nat, reply: Option<Body>)
    requires GoodEnv(env) && Fits(env, store, s) && w < |s.withdrawals| && Lifecycles.OnlyWithdrawal(s, t, w)
    requires AboutOwn(store, s.withdrawals[w], reply) && RowAnswered(s.withdrawals[w], t.withdrawals[w], reply)
    ensures Fits(env, store, t) && RefKept(s.withdrawals[w], t.withdrawals[w])
  {
    hide P.StoreOk, AboutOwn, RecordsFit, GivenUp, Accepted, ParseResult, SignerRules.MapResult;
    assert RowFits(store, s.withdrawals[w], w);
    hide RowFits, RowsFit;
    if GivenUp(s.withdrawals[w], t.withdrawals[w]) {
      GivenUpFits(store, s.withdrawals[w], t.withdrawals[w], w);
    } else {
      AnswerFits(env, store, s.withdrawals[w], t.withdrawals[w], w, reply.value);
    }
    hide Fits;
    OneRowFits(env, store, s, t, w);
  }

  lemma ExecuteRowFits(env: P.Env, store: P.Store, s: Snapshot, w: nat, delivery: Delivery)
    requires GoodEnv(env) && Fits(env, store, s) && w < |s.withdrawals|
    ensures var after := AfterExecuteRow(env, s, store, w, delivery);
            && Fits(env, after.1, after.0) && P.Later(store, after.1)
            && Lifecycles.OnlyWithdrawal(s, after.0, w) && RefKept(s.withdrawals[w], after.0.withdrawals[w])
  {
    hide Fits, P.AfterExecute, SignerRules.AfterExecute, RowAnswered, RefKept;
    var row := s.withdrawals[w];
    var exchange := ExecuteExchange(env, store, row, w, delivery);
    ExecuteFits(env, store, s, w);
    AskedIsOwn(env, store, s, w);
    hide P.Later;
    LaterSelf(store);
    Lifecycles.ExecuteAdds(s, w, exchange.1);
    AnsweredRow(s, w, exchange.1);
    hide Lifecycles.OnlyWithdrawal, Lifecycles.Added;
    ReplyFits(env, exchange.0, s, SignerRules.AfterExecute(s, w, exchange.1), w, exchange.1);
  }

  lemma LaterSelf(store: P.Store)
    ensures P.Later(store, store)
  {
  }

  lemma AskedIsOwn(env: P.Env, store: P.Store, s: Snapshot, w: nat)
    requires Fits(env, store, s) && w < |s.withdrawals|
    ensures var e := P.AfterExecute(env, store, RequestOf(s.withdrawals[w], w)); AboutOwn(e.0, s.withdrawals[w], e.1)
  {
    hide P.StoreOk, RowsFit, RecordsFit, P.AfterExecute;
    AskedOwn(env, store, s, w);
  }

  lemma ReconcileRowFits(env: P.Env, store: P.Store, s: Snapshot, w: nat, delivery: Delivery)
    requires GoodEnv(env) && Fits(env, store, s) && w < |s.withdrawals|
    ensures var t := AfterReconcileRow(s, store, w, delivery);
            Fits(env, store, t) && Lifecycles.OnlyWithdrawal(s, t, w) && RefKept(s.withdrawals[w], t.withdrawals[w])
  {
    hide Fits, P.ReconcileAnswer, SignerRules.AfterReconcile, RowAnswered, RefKept;
    var reply := ReconcileReply(store, s.withdrawals[w], delivery);
    ReconciledOwn(env, store, s, w);
    Lifecycles.ReconcileNeverReleases(s, w, reply);
    AnsweredRow(s, w, reply);
    hide Lifecycles.OnlyWithdrawal, Lifecycles.Added;
    ReplyFits(env, store, s, SignerRules.AfterReconcile(s, w, reply), w, reply);
  }

  // ----- the wallet's own operations

  lemma NewRowFits(cfg: Settings, store: P.Store, w: nat, op: Op)
    requires op.Request? && HexText(op.digest)
    ensures RowFits(store, Withdrawals.NewRow(cfg, w, op.user, op.asset, op.amount, op.destination, op.digest, op.now),
                    w)
  {
  }

  lemma WalletOpRows(cfg: Settings, s: Snapshot, op: Op)
    requires !op.Execute? && !op.Reconcile? && !op.AdminAction? && !op.Request?
    ensures Step(cfg, s, op).withdrawals == s.withdrawals
  {
    hide Step;
    match op {
      case Accept(_, _) => Lifecycles.EscrowTalks(cfg, s, op);
      case Dispute(_, _) => Lifecycles.EscrowTalks(cfg, s, op);
      case RequestCancel(_, _) => Lifecycles.EscrowTalks(cfg, s, op);
      case RespondCancel(_, _, _) => Lifecycles.EscrowTalks(cfg, s, op);
      case Release(_, _) => Lifecycles.EscrowCloses(cfg, s, op);
      case Cancel(_, _) => Lifecycles.EscrowCloses(cfg, s, op);
      case Resolve(_, _, _) => Lifecycles.EscrowCloses(cfg, s, op);
      case _ => Lifecycles.OtherGrows(cfg, s, op);
    }
  }

  lemma AdminRow(cfg: Settings, s: Snapshot, op: Op)
    requires op.AdminAction? && op.w < |s.withdrawals|
    ensures var t := Step(cfg, s, op);
            && op.w < |t.withdrawals|
            && (t == s || (t.withdrawals[op.w].providerRef == s.withdrawals[op.w].providerRef &&
                           t.withdrawals[op.w].status in {WPending, Failed}))
  {
  }

  lemma RequestFits(cfg: Settings, env: P.Env, store: P.Store, s: Snapshot, op: Op)
    requires Fits(env, store, s) && op.Request? && HexText(op.digest)
    ensures Fits(env, store, Step(cfg, s, op)) && s.withdrawals <= Step(cfg, s, op).withdrawals
  {
    hide P.StoreOk, RowFits, Withdrawals.Refusal, Withdrawals.NewRow;
    var t := Step(cfg, s, op);
    NewRowFits(cfg, store, |s.withdrawals|, op);
    assert forall v: nat :: v < |s.withdrawals| ==> RowFits(store, s.withdrawals[v], v);
    assert forall i :: 0 <= i < |store.records| ==>
           OrderMatches(store.records[i], s.withdrawals[store.records[i].withdrawalId]);
  }

  lemma AdminFits(cfg: Settings, env: P.Env, store: P.Store, s: Snapshot, op: Op)
    requires Fits(env, store, s) && op.AdminAction? && op.w < |s.withdrawals|
    ensures Fits(env, store, Step(cfg, s, op))
    ensures SameOrders(s.withdrawals, Step(cfg, s, op).withdrawals)
  {
    hide P.StoreOk, Step, P.Logged;
    var t := Step(cfg, s, op);
    AdminRow(cfg, s, op);
    Lifecycles.WithdrawalGrows(cfg, s, op);
    assert RowFits(store, s.withdrawals[op.w], op.w);
    var earlier, row := s.withdrawals[op.w], t.withdrawals[op.w];
    if t != s && row.providerRef != "" {
      var i: nat :| OwnRecord(store, earlier, i) && store.records[i].ref == row.providerRef;
      assert OwnRecord(store, row, i);
    }
    assert t != s ==> RowFits(store, row, op.w);
    hide Fits, RowFits;
    if t != s {
      OneRowFits(env, store, s, t, op.w);
    }
  }

  lemma WalletOpFits(cfg: Settings, env: P.Env, store: P.Store, s: Snapshot, op: Op)
    requires Fits(env, store, s) && !op.Execute? && !op.Reconcile? && (op.Request? ==> HexText(op.digest))
    ensures Fits(env, store, Step(cfg, s, op))
  {
    hide P.StoreOk, RowsFit, RecordsFit, Step;
    if op.Request? {
      RequestFits(cfg, env, store, s, op);
    } else if op.AdminAction? {
      if op.w < |s.withdrawals| {
        AdminFits(cfg, env, store, s, op);
      } else {
        Lifecycles.WithdrawalGrows(cfg, s, op);
        AdminMissing(cfg, s, op);
      }
    } else {
      WalletOpRows(cfg, s, op);
    }
  }

  lemma AdminMissing(cfg: Settings, s: Snapshot, op: Op)
    requires op.AdminAction? && op.w >= |s.withdrawals|
    ensures Step(cfg, s, op) == s
  {
  }
}
