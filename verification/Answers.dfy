/** What every possible answer of the provider makes of a withdrawal, and when one gives the money back. */
module Answers {
  import opened Tables
  import opened ProviderReplies
  import opened SignerCycle
  import opened Custody
  import opened Protocol
  import P = ProviderService
  import LedgerService
  import ProtocolRuns
  import SignerRules
  import Text
  import TotalBalances
  import WalletFees
  import Withdrawals
  import WithdrawalSteps

  predicate Rejection(status: ReplyStatus) {
    status == StRejected || status == StPermanentFailure
  }

  /** No other withdrawal has this reference. */
  predicate RefFree(s: Snapshot, w: nat, ref: string) {
    forall v :: 0 <= v < |s.withdrawals| && v != w ==> s.withdrawals[v].providerRef != ref
  }

  /** The answer names the row's reference and asset, a usable fee and, if it is on chain, a well-formed txid. */
  predicate Usable(s: Snapshot, w: nat, body: Body)
    requires w < |s.withdrawals|
  {
    var row, ref, txid := s.withdrawals[w], Text.Strip(body.providerRef), Text.Strip(body.txid);
    && ref != "" && (row.providerRef == "" || row.providerRef == ref) && RefFree(s, w, ref)
    && (body.asset == NoAsset || body.asset == KnownAsset(row.asset))
    && !body.fee.BadFee? && (body.fee.ActualFee? ==> body.fee.raw >= 0.0)
    && (OnChain(body.status) ==> txid != "" && Withdrawals.TxidSane(row.asset, txid))
  }

  /** The status a usable answer of each kind leads to; None for the kinds that never say where the money is. */
  function StatusOf(status: ReplyStatus): Option<WithdrawalStatus> {
    match status
    case StSubmitted => Some(Submitted)
    case StBroadcasted => Some(Broadcasted)
    case StConfirmed => Some(Confirmed)
    case _ => None
  }

  /** The status of a row after an answer to execute (first) or to reconcile. */
  function AnsweredStatus(s: Snapshot, w: nat, body: Body, first: bool): WithdrawalStatus
    requires w < |s.withdrawals|
  {
    if first && Rejection(body.status) && !body.asset.UnsupportedAsset? then Failed
    else if StatusOf(body.status).Some? && Usable(s, w, body) then StatusOf(body.status).value
    else SignerRetry
  }

  /** The row after an answer: its status, and what the answer left in it. */
  predicate RowAfter(s: Snapshot, t: Snapshot, w: nat, body: Body, first: bool) {
    && w < |s.withdrawals| && |t.withdrawals| == |s.withdrawals|
    && var row, now := s.withdrawals[w], t.withdrawals[w];
       && now.status == AnsweredStatus(s, w, body, first)
       && now.user == row.user && now.asset == row.asset && now.amount == row.amount
       && now.txid == (if now.status in {Broadcasted, Confirmed} then Some(Text.Strip(body.txid))
                       else if now.status == Submitted then row.txid else None)
       && now.providerRef ==
          (if now.status in {Submitted, Broadcasted, Confirmed} then Text.Strip(body.providerRef) else row.providerRef)
       && now.actualFee ==
          (if now.status in {Submitted, Broadcasted, Confirmed} && body.fee.ActualFee?
           then Some(WalletFees.QuantizeAsset(row.asset, body.fee.raw)) else row.actualFee)
  }

  lemma FreeIff(s: Snapshot, w: nat, ref: string)
    ensures RefFree(s, w, ref) <==> !Withdrawals.RefTaken(s, w, ref)
  {
  }

  function ResultOf(body: Body): ExecutionResult {
    ExecutionResult(body.status, if body.asset.KnownAsset? then Some(body.asset.asset) else None,
                    Text.Strip(body.providerRef), Text.Strip(body.txid), body.fee)
  }

  /** An answer of one of the three kinds that name a place is recorded exactly when it is usable. */
  lemma RecordedIff(s: Snapshot, w: nat, body: Body)
    requires w < |s.withdrawals| && StatusOf(body.status).Some? && !body.asset.UnsupportedAsset?
    requires Text.Strip(body.providerRef) != "" && (OnChain(body.status) ==> Text.Strip(body.txid) != "")
    ensures Withdrawals.AfterRecordResult(s, w, s.withdrawals[w].key, ResultOf(body)).Ok? <==> Usable(s, w, body)
    ensures Usable(s, w, body) ==>
              Withdrawals.AfterRecordResult(s, w, s.withdrawals[w].key, ResultOf(body)).value ==
              Withdrawals.WithRow(s, w, s.withdrawals[w].(
                providerRef := Text.Strip(body.providerRef),
                actualFee := if body.fee.ActualFee?
                             then Some(WalletFees.QuantizeAsset(s.withdrawals[w].asset, body.fee.raw))
                             else s.withdrawals[w].actualFee))
  {
    hide WalletFees.QuantizeAsset, Withdrawals.TxidSane, Text.Strip;
    FreeIff(s, w, Text.Strip(body.providerRef));
    hide RefFree, Withdrawals.RefTaken;
  }

  lemma SettledFields(s: Snapshot, w: nat, force: bool)
    requires w < |s.withdrawals|
    ensures var t := Withdrawals.AfterSettle(s, w, force);
            && |t.withdrawals| == |s.withdrawals|
            && t.withdrawals[w] == s.withdrawals[w].(settled := t.withdrawals[w].settled)
  {
    hide WalletFees.QuantizeAsset, Withdrawals.NetworkBooked, Withdrawals.NetworkEntries;
  }

  lemma MarkedFields(s: Snapshot, w: nat, mapped: SignerRules.Mapped, ref: string)
    requires w < |s.withdrawals| && mapped.Proceed? && StatusOf(mapped.status).Some?
    ensures var t, row := SignerRules.AfterMark(s, w, mapped, ref), s.withdrawals[w];
            && |t.withdrawals| == |s.withdrawals|
            && var now := t.withdrawals[w];
               && now.status == StatusOf(mapped.status).value
               && now.user == row.user && now.asset == row.asset && now.amount == row.amount
               && now.actualFee == row.actualFee && now.providerRef == Withdrawals.Coalesce(row.providerRef, ref)
               && now.txid == if mapped.status == StSubmitted then row.txid else Some(mapped.txid)
  {
    hide Withdrawals.AfterSettle, Withdrawals.AfterBookFee;
    WithdrawalSteps.BookFeeKeepsRows(s, w);
    if mapped.status != StSubmitted {
      var booked := Withdrawals.AfterBookFee(s, w);
      var row := s.withdrawals[w].(txid := Some(mapped.txid),
                                   providerRef := Withdrawals.Coalesce(s.withdrawals[w].providerRef, ref));
      SettledFields(Withdrawals.WithRow(booked, w, row.(status := Broadcasted)), w, false);
      SettledFields(Withdrawals.WithRow(booked, w, row.(status := Confirmed)), w, true);
    }
  }

  lemma ResultStripped(body: Body)
    ensures Text.Strip(ResultOf(body).txid) == ResultOf(body).txid
  {
    Text.StripIdempotent(body.txid);
  }

  /** A usable answer is recorded and marked; any other answer of these kinds sends the row to signer_retry. */
  lemma PlacedRow(s: Snapshot, w: nat, body: Body)
    requires w < |s.withdrawals| && StatusOf(body.status).Some? && !body.asset.UnsupportedAsset?
    requires ParseResult(body) == Some(ResultOf(body)) && Text.Strip(body.providerRef) != ""
    requires OnChain(body.status) ==> Text.Strip(body.txid) != ""
    ensures SignerRules.MapResult(ResultOf(body)).Proceed?
    ensures RowAfter(s, SignerRules.AfterAccepted(s, w, ResultOf(body), SignerRules.MapResult(ResultOf(body))), w, body,
                     false)
  {
    hide WalletFees.QuantizeAsset, Withdrawals.AfterRecordResult, SignerRules.AfterMark, Text.Strip;
    ResultStripped(body);
    RecordedIff(s, w, body);
    var mapped := SignerRules.MapResult(ResultOf(body));
    if Usable(s, w, body) {
      var recorded := Withdrawals.AfterRecordResult(s, w, s.withdrawals[w].key, ResultOf(body)).value;
      MarkedFields(recorded, w, mapped, ResultOf(body).providerRef);
    }
    hide Usable;
  }

  lemma ParsedIff(body: Body)
    requires StatusOf(body.status).Some?
    ensures ParseResult(body).Some? <==>
              && !body.asset.UnsupportedAsset? && Text.Strip(body.providerRef) != ""
              && (OnChain(body.status) ==> Text.Strip(body.txid) != "")
    ensures ParseResult(body).Some? ==> ParseResult(body) == Some(ResultOf(body))
  {
    hide Text.Strip;
  }

  lemma RetryRow(s: Snapshot, w: nat, body: Body, first: bool)
    requires w < |s.withdrawals| && AnsweredStatus(s, w, body, first) == SignerRetry
    ensures RowAfter(s, Withdrawals.AfterSignerRetry(s, w), w, body, first)
  {
    hide Usable;
  }

  /** The kinds that name a place lead to the same row whether they answer execute or reconcile. */
  lemma FirstOrNot(s: Snapshot, t: Snapshot, w: nat, body: Body)
    requires w < |s.withdrawals| && !Rejection(body.status)
    ensures RowAfter(s, t, w, body, true) <==> RowAfter(s, t, w, body, false)
  {
    hide Usable, WalletFees.QuantizeAsset;
  }

  lemma UsableParses(s: Snapshot, w: nat, body: Body)
    requires w < |s.withdrawals| && Usable(s, w, body) && StatusOf(body.status).Some?
    ensures ParseResult(body).Some? && (body.asset.KnownAsset? ==> body.asset.asset == s.withdrawals[w].asset)
  {
    hide Text.Strip;
  }

  lemma FailedRow(s: Snapshot, w: nat, body: Body)
    requires w < |s.withdrawals| && Rejection(body.status) && !body.asset.UnsupportedAsset?
    ensures RowAfter(s, Withdrawals.AfterFailed(s, w), w, body, true)
  {
    hide Usable;
  }

  /** An answer of a kind that names a place, whichever request it answers. */
  lemma PlaceTable(s: Snapshot, w: nat, body: Body)
    requires w < |s.withdrawals| && s.withdrawals[w].key != "" && StatusOf(body.status).Some?
    ensures RowAfter(s, SignerRules.AfterExecute(s, w, Some(body)), w, body, false)
    ensures RowAfter(s, SignerRules.AfterReconcile(s, w, Some(body)), w, body, false)
  {
    hide Usable, Text.Strip, SignerRules.AfterAccepted, RowAfter, RefFree;
    ParsedIff(body);
    if Usable(s, w, body) {
      UsableParses(s, w, body);
      UsableRef(s, w, body);
    } else {
      RetryRow(s, w, body, false);
    }
    if ParseResult(body).Some? {
      PlacedRow(s, w, body);
    }
  }

  lemma UsableRef(s: Snapshot, w: nat, body: Body)
    requires w < |s.withdrawals| && Usable(s, w, body)
    ensures s.withdrawals[w].providerRef == "" || s.withdrawals[w].providerRef == Text.Strip(body.providerRef)
  {
  }

  /** Every answer to a pending row, kind by kind. */
  lemma ExecuteTable(s: Snapshot, w: nat, body: Body)
    requires w < |s.withdrawals| && s.withdrawals[w].key != ""
    ensures RowAfter(s, SignerRules.AfterExecute(s, w, Some(body)), w, body, true)
  {
    if StatusOf(body.status).Some? {
      PlaceTable(s, w, body);
      FirstOrNot(s, SignerRules.AfterExecute(s, w, Some(body)), w, body);
    } else if Rejection(body.status) && !body.asset.UnsupportedAsset? {
      hide Text.Strip, RowAfter;
      FailedRow(s, w, body);
    } else {
      hide Text.Strip, RowAfter, Usable;
      RetryRow(s, w, body, true);
    }
  }

  /** Every answer to a reconcile request; here a rejection only sends the row back to signer_retry. */
  lemma ReconcileTable(s: Snapshot, w: nat, body: Body)
    requires w < |s.withdrawals| && s.withdrawals[w].key != ""
    ensures RowAfter(s, SignerRules.AfterReconcile(s, w, Some(body)), w, body, false)
  {
    if StatusOf(body.status).Some? {
      PlaceTable(s, w, body);
    } else {
      hide Text.Strip, RowAfter, Usable;
      RetryRow(s, w, body, false);
    }
  }

  // ----- when the money comes back

  /** The provider's validation: amount, destination and the destination's address format. */
  predicate TurnedDown(env: P.Env, row: WithdrawalRow) {
    var destination := Text.Strip(row.destination);
    row.amount <= 0.0 || destination == "" || !env.validDestination(row.asset, destination)
  }

  /** The row's own record is one that the operator rejected or failed for good. */
  ghost predicate OwnRejected(store: P.Store, row: WithdrawalRow) {
    exists i: nat :: OwnRecord(store, row, i) && Rejection(store.records[i].status)
  }

  /** The provider's answer to a row's request is a rejection in exactly these cases. */
  lemma RejectedIff(env: P.Env, sys: Sys, w: nat)
    requires GoodEnv(env) && Sound(env, sys) && w < |sys.wallet.withdrawals|
    ensures var row := sys.wallet.withdrawals[w];
            var answer := P.AfterExecute(env, sys.store, RequestOf(row, w)).1;
            && (answer.Some? && Rejection(answer.value.status) <==> TurnedDown(env, row) || OwnRejected(sys.store, row))
            && (answer.Some? ==> !answer.value.asset.UnsupportedAsset?)
  {
    hide P.StoreOk, RowsFit, P.ProviderRef, P.TxidSane;
    var row, store := sys.wallet.withdrawals[w], sys.store;
    RowKey(env, sys, w);
    KeyClean(row, w);
    var found := P.Find(store.records, P.ByKey, row.key);
    if found.Some? {
      FoundIsOwn(store, sys.wallet, w, found.value);
      OnlyOwn(env, store, row, found.value);
      if Rejection(store.records[found.value].status) {
        assert OwnRejected(store, row);
      }
    }
  }

  lemma RowKey(env: P.Env, sys: Sys, w: nat)
    requires Sound(env, sys) && w < |sys.wallet.withdrawals|
    ensures KeyOf(sys.wallet.withdrawals[w], w)
  {
    hide P.StoreOk, RecordsFit;
    assert RowFits(sys.store, sys.wallet.withdrawals[w], w);
  }

  lemma OnlyOwn(env: P.Env, store: P.Store, row: WithdrawalRow, i: nat)
    requires P.StoreOk(env, store) && OwnRecord(store, row, i)
    ensures OwnRejected(store, row) <==> Rejection(store.records[i].status)
  {
    hide P.RecordOk;
  }

  // ----- transaction ids

  predicate AllHex(s: string) {
    forall i :: 0 <= i < |s| ==> s[i] in "0123456789abcdef" || s[i] in "ABCDEF"
  }

  lemma HexIs(c: char)
    ensures Withdrawals.HexDigit(c) <==> c in "0123456789abcdef" || c in "ABCDEF"
  {
    if '0' <= c <= '9' {
      assert "0123456789abcdef"[c as int - '0' as int] == c;
    } else if 'a' <= c <= 'f' {
      assert "0123456789abcdef"[10 + (c as int - 'a' as int)] == c;
    } else if 'A' <= c <= 'F' {
      assert "ABCDEF"[c as int - 'A' as int] == c;
    }
  }

  /** 64 hexadecimal digits, on Ethereum behind 0x; the wallet accepts no Solana signature. */
  lemma TxidFormats(asset: Asset, txid: string)
    ensures Withdrawals.TxidSane(asset, txid) <==>
            match asset
            case BTC => |txid| == 64 && AllHex(txid)
            case LTC => |txid| == 64 && AllHex(txid)
            case ETH => |txid| == 66 && txid[..2] in ["0x", "0X"] && AllHex(txid[2..])
            case USDT => |txid| == 66 && txid[..2] in ["0x", "0X"] && AllHex(txid[2..])
            case SOL => false
  {
    forall c ensures Withdrawals.HexDigit(c) <==> c in "0123456789abcdef" || c in "ABCDEF" {
      HexIs(c);
    }
    if |txid| == 66 {
      assert forall i :: 2 <= i < 66 ==> txid[i] == txid[2..][i - 2];
      assert txid[..2] == [txid[0], txid[1]];
    }
    hide Withdrawals.HexDigit;
  }

  // ----- what the provider answers

  /** The answer is this row's record in the store. */
  ghost predicate Names(store: P.Store, row: WithdrawalRow, body: Body) {
    exists i: nat ::
      && OwnRecord(store, row, i)
      && body == Body(store.records[i].status, KnownAsset(row.asset), store.records[i].ref, store.records[i].txid,
                      store.records[i].fee)
  }

  lemma FoundNames(env: P.Env, store: P.Store, s: Snapshot, w: nat)
    requires Fits(env, store, s) && w < |s.withdrawals|
    ensures var row := s.withdrawals[w];
            var found := P.Find(store.records, P.ByKey, row.key);
            && (found.Some? <==> exists i: nat :: OwnRecord(store, row, i))
            && (found.Some? ==> P.RecordMatches(store.records[found.value], RequestOf(row, w).(
                                  destination := Text.Strip(row.destination))))
            && (found.Some? ==> Names(store, row, P.Response(store.records[found.value])))
  {
    hide P.StoreOk, RowsFit;
    var row := s.withdrawals[w];
    var found := P.Find(store.records, P.ByKey, row.key);
    if found.Some? {
      FoundIsOwn(store, s, w, found.value);
      assert OwnRecord(store, row, found.value);
    }
  }

  /** A reference belongs to one withdrawal: if no record has the row's key, none has the reference it would get. */
  lemma RefFreeToo(env: P.Env, store: P.Store, s: Snapshot, w: nat)
    requires Fits(env, store, s) && w < |s.withdrawals|
    requires P.Find(store.records, P.ByKey, s.withdrawals[w].key).None?
    ensures P.Find(store.records, P.ByRef, P.ProviderRef(env, w, s.withdrawals[w].key)).None?
  {
    hide RowsFit;
    var key := s.withdrawals[w].key;
    var found := P.Find(store.records, P.ByRef, P.ProviderRef(env, w, key));
    if found.Some? {
      var r := store.records[found.value];
      assert P.RecordOk(env, store, r);
      SameRef(env, w, key, r.withdrawalId, r.key);
    }
  }

  lemma SameRef(env: P.Env, w: nat, key: string, v: nat, other: string)
    requires P.ProviderRef(env, w, key) == P.ProviderRef(env, v, other)
    ensures w == v
  {
    assert P.ProviderRef(env, w, key)[6..] == Text.NatText(w) + ":" + env.digest(key);
    assert P.ProviderRef(env, v, other)[6..] == Text.NatText(v) + ":" + env.digest(other);
    Text.NumberThenColon(w, v, env.digest(key), env.digest(other));
  }

  /**
   The provider turns a request down and stores nothing, or it answers from the row's one record; a row without a
   record gets a new one, in status submitted.
   */
  lemma RequestAnswered(env: P.Env, sys: Sys, w: nat)
    requires Sound(env, sys) && w < |sys.wallet.withdrawals|
    ensures var row, store := sys.wallet.withdrawals[w], sys.store;
            var (after, answer) := P.AfterExecute(env, store, RequestOf(row, w));
            if TurnedDown(env, row) then after == store && answer == Some(P.RejectedBody(row.asset))
            else
              && answer.Some? && Names(after, row, answer.value)
              && if exists i: nat :: OwnRecord(store, row, i) then after == store
                 else
                   && |after.records| == |store.records| + 1 && after.records[..|store.records|] == store.records
                   && answer.value.status == StSubmitted && answer.value.txid == "" && answer.value.fee == NoFee
  {
    hide P.StoreOk, RowsFit, RecordsFit, P.ProviderRef;
    var row, store := sys.wallet.withdrawals[w], sys.store;
    RowKey(env, sys, w);
    KeyClean(row, w);
    FoundNames(env, store, sys.wallet, w);
    var found := P.Find(store.records, P.ByKey, row.key);
    if !TurnedDown(env, row) && found.None? {
      RefFreeToo(env, store, sys.wallet, w);
      var after := P.AfterExecute(env, store, RequestOf(row, w)).0;
      assert OwnRecord(after, row, |store.records|);
    }
  }

  /** A reconcile request is answered from the row's record if there is one, and as unknown if there is none. */
  lemma ReconcileAnswered(env: P.Env, sys: Sys, w: nat)
    requires GoodEnv(env) && Sound(env, sys) && w < |sys.wallet.withdrawals|
    ensures var row, store := sys.wallet.withdrawals[w], sys.store;
            var answer := P.ReconcileAnswer(store, row.key, row.providerRef);
            if exists i: nat :: OwnRecord(store, row, i) then Names(store, row, answer)
            else answer == Body(StUnknown, NoAsset, "", "", NoFee)
  {
    hide P.StoreOk, RowsFit, RecordsFit, P.ProviderRef;
    var row, store := sys.wallet.withdrawals[w], sys.store;
    RowKey(env, sys, w);
    KeyClean(row, w);
    FoundNames(env, store, sys.wallet, w);
    ReconciledOwn(env, store, sys.wallet, w);
  }

  lemma FailedWhen(s: Snapshot, w: nat, reply: Option<Body>)
    requires w < |s.withdrawals| && s.withdrawals[w].status == WPending && s.withdrawals[w].key != ""
    ensures var row, t := s.withdrawals[w], SignerRules.AfterExecute(s, w, reply);
            && w < |t.withdrawals|
            && (t.withdrawals[w].status == Failed <==>
                  reply.Some? && Rejection(reply.value.status) && !reply.value.asset.UnsupportedAsset?)
            && (t.withdrawals[w].status == Failed ==>
                  && |t.ledger| == |s.ledger| + 1
                  && LedgerService.Balance(t, row.user, row.asset) ==
                     LedgerService.Balance(s, row.user, row.asset) + (row.amount + row.platformFee + row.networkFee))
  {
    hide SignerRules.AfterExecute, LedgerService.Balance, Usable;
    var row, t := s.withdrawals[w], SignerRules.AfterExecute(s, w, reply);
    if reply.Some? {
      ExecuteTable(s, w, reply.value);
    } else {
      NoAnswer(s, w);
    }
    TotalBalances.AnsweredRow(s, w, reply);
    if t.withdrawals[w].status == Failed {
      TotalBalances.BalanceAfter(s, t, t.ledger[|s.ledger|], row.user, row.asset);
    }
  }

  /**
   In every reachable state of the protocol: executing a pending row fails it exactly when the exchange is delivered
   and the provider turns the request down or has the row's own record as rejected or permanently failed; then the one
   entry that is booked gives amount and both fees back to the user.
   */
  lemma FailsIff(cfg: Settings, env: P.Env, chain: string -> Sighting, sys: Sys, w: nat, delivery: Delivery)
    requires GoodEnv(env) && ProtocolRuns.Reachable(env, chain, sys) && sys.saved.Some?
    requires w < |sys.wallet.withdrawals| && sys.wallet.withdrawals[w].status == WPending
    ensures var row, t := sys.wallet.withdrawals[w], Next(cfg, env, sys, ExecuteRow(w, delivery)).wallet;
            && w < |t.withdrawals|
            && (t.withdrawals[w].status == Failed <==>
                  delivery.Delivered? && (TurnedDown(env, row) || OwnRejected(sys.store, row)))
            && (t.withdrawals[w].status == Failed ==>
                  && |t.ledger| == |sys.wallet.ledger| + 1
                  && LedgerService.Balance(t, row.user, row.asset) ==
                     LedgerService.Balance(sys.wallet, row.user, row.asset) +
                     (row.amount + row.platformFee + row.networkFee))
  {
    hide ProtocolRuns.Reachable, P.AfterExecute, SignerRules.AfterExecute, OwnRejected, TurnedDown, Sound;
    hide LedgerService.Balance, Rejection;
    ProtocolRuns.ReachableSound(env, chain, sys);
    var row := sys.wallet.withdrawals[w];
    RowKey(env, sys, w);
    KeyClean(row, w);
    hide KeyOf;
    RejectedIff(env, sys, w);
    FailedWhen(sys.wallet, w, ExecuteExchange(env, sys.store, row, w, delivery).1);
  }

  lemma NoAnswer(s: Snapshot, w: nat)
    requires w < |s.withdrawals|
    ensures SignerRules.AfterExecute(s, w, None) == Withdrawals.AfterSignerRetry(s, w)
    ensures SignerRules.AfterReconcile(s, w, None) == Withdrawals.AfterSignerRetry(s, w)
  {
  }
}
