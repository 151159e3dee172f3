/**
 Reconciling with what was read earlier: the due rows are read before the first write opens a transaction,
 and a mark never looks at the status again, so an admin can act on a row in between.
 */
module StaleReads {
  import opened Tables
  import opened LedgerService
  import opened ProviderReplies
  import opened Custody
  import CustodyEquation
  import CustodyRuns
  import Lifecycles
  import Overdrafts
  import Protocol
  import SignerRules
  import WalletFees
  import Withdrawals
  import WithdrawalSteps

  /** The tables, the rows a signer has read and not yet marked, and the tables before its open write transaction. */
  datatype View = View(s: Snapshot, read: set<nat>, saved: Option<Snapshot>)

  datatype Event =
    | Do(op: Op)
    | ExecuteOne(w: nat, reply: Option<Body>)
    | ReadDue(ids: set<nat>)
    | Mark(w: nat, reply: Option<Body>)
    | Commit
    | Rollback

  const START := View(EMPTY, {}, None)

  function Due(s: Snapshot, ids: set<nat>): (due: set<nat>)
    ensures forall w: nat :: w in due ==> w < |s.withdrawals| && Unresolved(s.withdrawals[w].status)
  {
    set w: nat | w in ids && w < |s.withdrawals| && Unresolved(s.withdrawals[w].status)
  }

  /** The first write opens the transaction. */
  function Opened(v: View): Option<Snapshot> {
    if v.saved.Some? then v.saved else Some(v.s)
  }

  /**
   A mark compares reference and key with the stored row again; only the status is taken from the earlier read.
   While the write transaction is open nobody else can write.
   */
  function Next(cfg: Settings, v: View, event: Event): View {
    match event
    case Do(op) => if v.saved.Some? || op.Execute? || op.Reconcile? then v else v.(s := Step(cfg, v.s, op))
    case ExecuteOne(w, reply) =>
      if v.read == {} then v.(s := Step(cfg, v.s, Execute(w, reply)), saved := Opened(v)) else v
    case ReadDue(ids) => if v.read == {} then v.(read := Due(v.s, ids)) else v
    case Mark(w, reply) =>
      if w in v.read && w < |v.s.withdrawals|
      then View(SignerRules.AfterReconcile(v.s, w, reply), v.read - {w}, Opened(v))
      else v
    case Commit => v.(read := {}, saved := None)
    case Rollback => View(if v.saved.Some? then v.saved.value else v.s, {}, None)
  }

  function Go(plan: Plan, events: seq<Event>): View {
    if events == [] then START
    else
      var n := |events| - 1;
      Next(plan(n), Go(plan, events[..n]), events[n])
  }

  predicate StillOpen(status: WithdrawalStatus) {
    Unresolved(status) || status == WPending
  }

  /** A row that was read is still open, or has been failed since. */
  ghost predicate ReadFits(v: View) {
    forall w: nat :: w in v.read ==>
      w < |v.s.withdrawals| && (StillOpen(v.s.withdrawals[w].status) || v.s.withdrawals[w].status == Failed)
  }

  predicate FailedNow(v: View, w: nat) {
    w < |v.s.withdrawals| && v.s.withdrawals[w].status == Failed
  }

  /** An admin fails a row that a signer has read but not marked. */
  predicate Fails(v: View, event: Event, w: nat) {
    && event == Do(AdminAction(w, false)) && v.saved.None? && w in v.read
    && w < |v.s.withdrawals| && v.s.withdrawals[w].status == SignerRetry
  }

  // ----- one event

  lemma MarkTouchesOne(s: Snapshot, w: nat, reply: Option<Body>)
    requires w < |s.withdrawals|
    ensures var t := SignerRules.AfterReconcile(s, w, reply);
            && Lifecycles.OnlyWithdrawal(s, t, w)
            && forall table: RefType, id: nat :: Lifecycles.Final(s, table, id) && (table, id) != (WithdrawalRef, w) ==>
                 Lifecycles.Untouched(s, t, table, id)
  {
    hide SignerRules.AfterReconcile;
    Lifecycles.ReconcileNeverReleases(s, w, reply);
  }

  /** Whatever the answer, a marked row is not failed afterwards, also when it was failed before. */
  lemma MarkRevives(s: Snapshot, w: nat, reply: Option<Body>)
    requires w < |s.withdrawals|
    ensures var t := SignerRules.AfterReconcile(s, w, reply);
            && w < |t.withdrawals| && t.withdrawals[w].status in {SignerRetry, Submitted, Broadcasted, Confirmed}
            && s.ledger <= t.ledger
  {
    hide ParseResult, Withdrawals.AfterRecordResult, SignerRules.AfterMark;
    Lifecycles.ReconcileNeverReleases(s, w, reply);
    if reply.Some? && ParseResult(reply.value).Some? {
      var result := ParseResult(reply.value).value;
      var recorded := Withdrawals.AfterRecordResult(s, w, s.withdrawals[w].key, result);
      if SignerRules.MapResult(result).Proceed? && recorded.Ok? {
        Protocol.RecordedRow(s, w, result);
        Protocol.MarkedRow(recorded.value, w, SignerRules.MapResult(result), result.providerRef);
      }
    }
  }

  lemma OpRows(cfg: Settings, s: Snapshot, op: Op, w: nat)
    requires w < |s.withdrawals| && !op.Execute? && !op.Reconcile?
    ensures var t := Step(cfg, s, op);
            && w < |t.withdrawals|
            && (t.withdrawals[w].status == s.withdrawals[w].status
                || (op == AdminAction(w, true) && t.withdrawals[w].status == WPending)
                || (op == AdminAction(w, false) && s.withdrawals[w].status == SignerRetry &&
                    t.withdrawals[w].status == Failed))
            && (op == AdminAction(w, false) && s.withdrawals[w].status == SignerRetry ==>
                t.withdrawals[w].status == Failed)
            && (s.withdrawals[w].status == Failed ==> t.withdrawals[w].status == Failed)
  {
    hide Step;
    if op.Request? {
      Lifecycles.OtherGrows(cfg, s, op);
    } else if op.AdminAction? {
      Lifecycles.WithdrawalGrows(cfg, s, op);
      if op.w == w {
        AdminRow(cfg, s, op);
      }
    } else {
      Protocol.WalletOpRows(cfg, s, op);
    }
  }

  lemma AdminRow(cfg: Settings, s: Snapshot, op: Op)
    requires op.AdminAction? && op.w < |s.withdrawals|
    ensures var t := Step(cfg, s, op);
            if s.withdrawals[op.w].status == SignerRetry
            then op.w < |t.withdrawals| && t.withdrawals[op.w].status == (if op.requeue then WPending else Failed)
            else t == s
  {
  }

  /** How the status of a row that stays read can change. */
  lemma NextRead(cfg: Settings, v: View, event: Event, w: nat)
    requires ReadFits(v)
    ensures ReadFits(Next(cfg, v, event))
    ensures w in Next(cfg, v, event).read ==>
              if w in v.read then FailedNow(Next(cfg, v, event), w) <==> FailedNow(v, w) || Fails(v, event, w)
              else !FailedNow(Next(cfg, v, event), w)
  {
    hide Step, SignerRules.AfterReconcile;
    match event {
      case Do(op) =>
        if v.saved.None? && !op.Execute? && !op.Reconcile? {
          forall x: nat | x in v.read
            ensures x < |Step(cfg, v.s, op).withdrawals|
            ensures var status := Step(cfg, v.s, op).withdrawals[x].status; StillOpen(status) || status == Failed
          {
            OpRows(cfg, v.s, op, x);
          }
          if w in v.read {
            OpRows(cfg, v.s, op, w);
          }
        }
      case Mark(x, reply) =>
        if x in v.read {
          MarkTouchesOne(v.s, x, reply);
        }
      case _ =>
    }
  }

  /**
   One event, rollbacks apart, leaves every finished row alone unless it marks a row that has failed since it was read.
   */
  lemma NextFinal(cfg: Settings, v: View, event: Event)
    requires ReadFits(v) && !event.Rollback?
    ensures (forall table: RefType, id: nat :: Lifecycles.Final(v.s, table, id) ==>
               Lifecycles.Untouched(v.s, Next(cfg, v, event).s, table, id))
            <==> !(event.Mark? && event.w in v.read && FailedNow(v, event.w))
  {
    hide Step, SignerRules.AfterReconcile, Lifecycles.Untouched, Lifecycles.OnlyWithdrawal;
    var t := Next(cfg, v, event).s;
    if event.Mark? && event.w in v.read {
      MarkTouchesOne(v.s, event.w, event.reply);
      MarkRevives(v.s, event.w, event.reply);
      if FailedNow(v, event.w) {
        Changed(v.s, t, event.w);
      }
    } else {
      forall table: RefType, id: nat | Lifecycles.Final(v.s, table, id)
        ensures Lifecycles.Untouched(v.s, t, table, id) {
        if t != v.s {
          Lifecycles.FinalStep(cfg, v.s, if event.Do? then event.op else Execute(event.w, event.reply), table, id);
        } else {
          Same(v.s, table, id);
        }
      }
    }
  }

  lemma Changed(s: Snapshot, t: Snapshot, w: nat)
    requires w < |s.withdrawals| && w < |t.withdrawals| && s.withdrawals[w].status == Failed
    requires t.withdrawals[w].status != Failed
    ensures Lifecycles.Final(s, WithdrawalRef, w) && !Lifecycles.Untouched(s, t, WithdrawalRef, w)
  {
  }

  lemma Same(s: Snapshot, table: RefType, id: nat)
    requires Lifecycles.Final(s, table, id)
    ensures Lifecycles.Untouched(s, s, table, id)
  {
  }

  // ----- whole runs

  /** Row w stays read from event i to event j. */
  ghost predicate StaysRead(plan: Plan, events: seq<Event>, i: nat, j: nat, w: nat)
    requires j <= |events|
  {
    forall k :: i <= k <= j ==> w in Go(plan, events[..k]).read
  }

  /** Row w has stayed read since event i, at which an admin failed it. */
  ghost predicate FailedAt(plan: Plan, events: seq<Event>, i: nat, w: nat) {
    && i < |events| && Fails(Go(plan, events[..i]), events[i], w)
    && StaysRead(plan, events, i, |events|, w)
  }

  lemma StaysReadLonger(plan: Plan, events: seq<Event>, i: nat, w: nat)
    requires events != [] && i < |events| && w in Go(plan, events).read
    ensures var n := |events| - 1;
            StaysRead(plan, events, i, n + 1, w) <==> StaysRead(plan, events[..n], i, n, w)
  {
    hide Go;
    var n := |events| - 1;
    assert events[..n + 1] == events;
    if StaysRead(plan, events, i, n + 1, w) {
      forall k | i <= k <= n ensures w in Go(plan, events[..n][..k]).read {
        assert events[..n][..k] == events[..k];
      }
    }
    if StaysRead(plan, events[..n], i, n, w) {
      forall k | i <= k <= n + 1 ensures w in Go(plan, events[..k]).read {
        assert k <= n ==> events[..n][..k] == events[..k];
      }
    }
  }

  lemma FailedAtLonger(plan: Plan, events: seq<Event>, i: nat, w: nat)
    requires events != [] && w in Go(plan, events).read
    ensures FailedAt(plan, events, i, w) <==>
              || FailedAt(plan, events[..|events| - 1], i, w)
              || (i == |events| - 1 && Fails(Go(plan, events[..i]), events[i], w))
  {
    hide Go, Fails, StaysRead;
    var n := |events| - 1;
    if i <= n {
      StaysReadLonger(plan, events, i, w);
      if i < n {
        assert events[..n][..i] == events[..i] && events[..n][i] == events[i];
      } else if Fails(Go(plan, events[..n]), events[n], w) {
        FailsReads(Go(plan, events[..n]), events[n], w);
        ReadNow(plan, events[..n], w);
      }
    }
  }

  lemma ReadNow(plan: Plan, events: seq<Event>, w: nat)
    requires w in Go(plan, events).read
    ensures StaysRead(plan, events, |events|, |events|, w)
  {
    hide Go;
    assert events[..|events|] == events;
  }

  lemma FailsReads(v: View, event: Event, w: nat)
    requires Fails(v, event, w)
    ensures w in v.read
  {
  }

  /** A row that is read and not yet marked has failed exactly when an admin failed it since it was read. */
  lemma {:induction false} FailedSinceRead(plan: Plan, events: seq<Event>, w: nat)
    ensures ReadFits(Go(plan, events))
    ensures w in Go(plan, events).read ==>
              (FailedNow(Go(plan, events), w) <==> exists i: nat :: FailedAt(plan, events, i, w))
  {
    hide Next, FailedAt, Fails, ReadFits, FailedNow;
    if events == [] {
      assert ReadFits(START) by {
        NothingRead();
      }
    } else {
      var n := |events| - 1;
      var before := Go(plan, events[..n]);
      FailedSinceRead(plan, events[..n], w);
      NextRead(plan(n), before, events[n], w);
      if w in Go(plan, events).read {
        forall i: nat ensures FailedAt(plan, events, i, w) <==>
            FailedAt(plan, events[..n], i, w) || (i == n && Fails(before, events[n], w))
        {
          FailedAtLonger(plan, events, i, w);
        }
        if w !in before.read {
          forall i: nat ensures !FailedAt(plan, events, i, w) {
            NotReadBefore(plan, events, i, w);
          }
        } else {
          if exists i: nat :: FailedAt(plan, events[..n], i, w) {
            var i: nat :| FailedAt(plan, events[..n], i, w);
            assert FailedAt(plan, events, i, w);
          }
          if Fails(before, events[n], w) {
            assert FailedAt(plan, events, n, w);
          }
        }
      }
    }
  }

  lemma NothingRead()
    ensures ReadFits(START)
  {
  }

  lemma NotReadBefore(plan: Plan, events: seq<Event>, i: nat, w: nat)
    requires events != [] && w !in Go(plan, events[..|events| - 1]).read
    ensures !FailedAt(plan, events, i, w)
  {
    hide Next, Fails;
  }

  /** Event k marks a row that an admin failed after the signer had read it. */
  ghost predicate Overtaken(plan: Plan, events: seq<Event>, k: nat) {
    && k < |events| && events[k].Mark? && events[k].w in Go(plan, events[..k]).read
    && exists i: nat :: FailedAt(plan, events[..k], i, events[k].w)
  }

  /** Event k leaves every finished row alone; a rollback puts everything back as it was before the transaction. */
  ghost predicate KeepsFinal(plan: Plan, events: seq<Event>, k: nat)
    requires k < |events|
  {
    var s, t := Go(plan, events[..k]).s, Go(plan, events[..k + 1]).s;
    events[k].Rollback? || forall table: RefType, id: nat ::
      Lifecycles.Final(s, table, id) ==> Lifecycles.Untouched(s, t, table, id)
  }

  /**
   Closed escrows and finished withdrawals stay as they are at every event of a run exactly when no admin fails a
   row between the moment a signer reads it and the moment the signer marks it.
   */
  lemma FinalIffNotOvertaken(plan: Plan, events: seq<Event>)
    ensures (forall k :: 0 <= k < |events| ==> KeepsFinal(plan, events, k)) <==>
            (forall k :: 0 <= k < |events| ==> !Overtaken(plan, events, k))
  {
    hide KeepsFinal, Overtaken;
    forall k | 0 <= k < |events| ensures KeepsFinal(plan, events, k) <==> !Overtaken(plan, events, k) {
      EventFinal(plan, events, k);
    }
  }

  lemma EventFinal(plan: Plan, events: seq<Event>, k: nat)
    requires k < |events|
    ensures KeepsFinal(plan, events, k) <==> !Overtaken(plan, events, k)
  {
    hide Next, FailedAt, ReadFits, Lifecycles.Untouched, Lifecycles.Final;
    assert events[..k + 1][..k] == events[..k];
    FailedSinceRead(plan, events[..k], if events[k].Mark? then events[k].w else 0);
    if !events[k].Rollback? {
      NextFinal(plan(k), Go(plan, events[..k]), events[k]);
    }
  }

  // ----- the custody invariant

  /** The invariant of the tables, and of the tables a rollback would bring back. */
  ghost predicate ViewInv(chain: string -> Sighting, v: View) {
    Inv(chain, v.s) && (v.saved.Some? ==> Inv(chain, v.saved.value))
  }

  predicate GoodEvent(chain: string -> Sighting, event: Event) {
    event.Do? ==> Admissible(chain, event.op)
  }

  ghost predicate GoodEvents(chain: string -> Sighting, events: seq<Event>) {
    forall i :: 0 <= i < |events| ==> GoodEvent(chain, events[i])
  }

  /** Marking a failed row leaves its release booked although the row is no longer failed. */
  lemma MarkBreaks(chain: string -> Sighting, s: Snapshot, w: nat, reply: Option<Body>)
    requires Inv(chain, s) && w < |s.withdrawals| && s.withdrawals[w].status == Failed
    ensures !Inv(chain, SignerRules.AfterReconcile(s, w, reply))
  {
    hide SignerRules.AfterReconcile, WithdrawalFootprint, WalletFees.Exact, LedgerOk, DepositsOk, EscrowsOk;
    hide NoUncheckedDebit;
    var t := SignerRules.AfterReconcile(s, w, reply);
    assert WithdrawalOk(s, w);
    MarkRevives(s, w, reply);
    Lifecycles.ReconcileNeverReleases(s, w, reply);
    assert !WithdrawalOk(t, w);
  }

  /** One event keeps the invariant exactly when it does not mark a row that has failed since it was read. */
  lemma NextInv(cfg: Settings, chain: string -> Sighting, v: View, event: Event)
    requires GoodSettings(cfg) && ReadFits(v) && ViewInv(chain, v) && GoodEvent(chain, event)
    ensures ViewInv(chain, Next(cfg, v, event)) <==> !(event.Mark? && event.w in v.read && FailedNow(v, event.w))
    ensures event.Mark? && event.w in v.read && FailedNow(v, event.w) ==> !Inv(chain, Next(cfg, v, event).s)
  {
    hide Inv, Step, SignerRules.AfterReconcile, GoodSettings;
    match event {
      case Do(op) => CustodyRuns.StepKeeps(cfg, chain, v.s, op);
      case ExecuteOne(w, reply) => CustodyRuns.StepKeeps(cfg, chain, v.s, Execute(w, reply));
      case Mark(w, reply) =>
        if w in v.read {
          if FailedNow(v, w) {
            MarkBreaks(chain, v.s, w, reply);
          } else {
            WithdrawalSteps.ReconcileKeeps(chain, v.s, w, reply);
          }
        }
      case _ =>
    }
  }

  lemma OvertakenIff(plan: Plan, events: seq<Event>, k: nat)
    requires k < |events|
    ensures ReadFits(Go(plan, events[..k]))
    ensures Overtaken(plan, events, k) <==>
            events[k].Mark? && events[k].w in Go(plan, events[..k]).read &&
              FailedNow(Go(plan, events[..k]), events[k].w)
  {
    hide Go, FailedAt, FailedNow, ReadFits;
    FailedSinceRead(plan, events[..k], if events[k].Mark? then events[k].w else 0);
  }

  lemma StartInv(chain: string -> Sighting)
    ensures ViewInv(chain, START)
  {
    CustodyRuns.EmptyInv(chain);
  }

  /** Until a mark is overtaken, the custody invariant holds after every event, rollbacks included. */
  lemma {:induction false} InvWhileNotOvertaken(plan: Plan, chain: string -> Sighting, events: seq<Event>)
    requires GoodPlan(plan) && GoodEvents(chain, events)
    requires forall k :: 0 <= k < |events| ==> !Overtaken(plan, events, k)
    ensures ViewInv(chain, Go(plan, events))
  {
    hide Next, ViewInv, Overtaken, GoodSettings, FailedNow, ReadFits, GoodEvent;
    if events == [] {
      StartInv(chain);
    } else {
      var n := |events| - 1;
      forall k | 0 <= k < n ensures !Overtaken(plan, events[..n], k) {
        SamePrefix(plan, events, k);
      }
      assert forall i :: 0 <= i < n ==> events[..n][i] == events[i];
      InvWhileNotOvertaken(plan, chain, events[..n]);
      OvertakenIff(plan, events, n);
      NextInv(plan(n), chain, Go(plan, events[..n]), events[n]);
    }
  }

  lemma SamePrefix(plan: Plan, events: seq<Event>, k: nat)
    requires events != [] && k < |events| - 1
    ensures Overtaken(plan, events[..|events| - 1], k) <==> Overtaken(plan, events, k)
  {
    var n := |events| - 1;
    assert events[..n][..k] == events[..k] && events[..n][k] == events[k];
  }

  lemma OvertakenBreaks(plan: Plan, chain: string -> Sighting, events: seq<Event>, k: nat)
    requires GoodPlan(plan) && GoodEvents(chain, events) && k < |events| && Overtaken(plan, events, k)
    requires Inv(chain, Go(plan, events[..k]).s)
    ensures !Inv(chain, Go(plan, events[..k + 1]).s)
  {
    hide Inv, Overtaken, ReadFits, SignerRules.AfterReconcile;
    assert events[..k + 1][..k] == events[..k];
    var v := Go(plan, events[..k]);
    OvertakenIff(plan, events, k);
    MarkBreaks(chain, v.s, events[k].w, events[k].reply);
  }

  /**
   The custody invariant holds after every event of a run exactly when no admin fails a row between the moment a
   signer reads it and the moment the signer marks it.
   */
  lemma InvIffNotOvertaken(plan: Plan, chain: string -> Sighting, events: seq<Event>)
    requires GoodPlan(plan) && GoodEvents(chain, events)
    ensures (forall k :: 0 <= k <= |events| ==> Inv(chain, Go(plan, events[..k]).s)) <==>
            (forall k :: 0 <= k < |events| ==> !Overtaken(plan, events, k))
  {
    hide Inv, Go, Overtaken, GoodPlan, GoodEvent;
    if k :| 0 <= k < |events| && Overtaken(plan, events, k) {
      if Inv(chain, Go(plan, events[..k]).s) {
        OvertakenBreaks(plan, chain, events, k);
      }
    } else {
      forall k | 0 <= k <= |events| ensures Inv(chain, Go(plan, events[..k]).s) {
        forall i | 0 <= i < k ensures !Overtaken(plan, events[..k], i) {
          Earlier(plan, events, k, i);
        }
        InvWhileNotOvertaken(plan, chain, events[..k]);
      }
    }
  }

  lemma Earlier(plan: Plan, events: seq<Event>, k: nat, i: nat)
    requires i < k <= |events|
    ensures Overtaken(plan, events[..k], i) <==> Overtaken(plan, events, i)
  {
    assert events[..k][..i] == events[..i] && events[..k][i] == events[i];
  }

  /** So until then the custody equation holds, and a withdrawal has one release exactly when it failed. */
  lemma StaleCustody(plan: Plan, chain: string -> Sighting, events: seq<Event>, asset: Asset, w: nat)
    requires GoodPlan(plan) && GoodEvents(chain, events)
    requires forall k :: 0 <= k < |events| ==> !Overtaken(plan, events, k)
    ensures CustodyEquation.Balanced(Go(plan, events).s, asset)
    ensures Lifecycles.ReleasedIffFailed(Go(plan, events).s, w)
  {
    hide Inv, Go, Overtaken, GoodPlan, CustodyEquation.Balanced, Lifecycles.ReleasedIffFailed;
    InvWhileNotOvertaken(plan, chain, events);
    CustodyEquation.InvBalances(chain, Go(plan, events).s, asset);
    Lifecycles.InvReleases(chain, Go(plan, events).s, w);
  }

  // ----- a released row that is confirmed

  /** A signer reads the due row w, an admin fails it, and the signer marks it. */
  function FailedInBetween(cfg: Settings, s: Snapshot, w: nat, reply: Option<Body>): Snapshot {
    Next(cfg, Next(cfg, Next(cfg, View(s, {}, None), ReadDue({w})), Do(AdminAction(w, false))), Mark(w, reply)).s
  }

  lemma InBetween(cfg: Settings, s: Snapshot, w: nat, reply: Option<Body>)
    requires w < |s.withdrawals| && s.withdrawals[w].status == SignerRetry
    ensures FailedInBetween(cfg, s, w, reply) == SignerRules.AfterReconcile(Withdrawals.AfterFailed(s, w), w, reply)
  {
    hide SignerRules.AfterReconcile;
    assert Next(cfg, View(s, {}, None), ReadDue({w})) == View(s, {w}, None);
  }

  /**
   In every reachable state, an answer that could confirm a row in signer_retry can leave it confirmed and released.
   */
  lemma ReleasedThenConfirmed(cfg: Settings, chain: string -> Sighting, s: Snapshot, w: nat, ref: string, txid: string,
                              raw: real)
    requires CustodyRuns.Reachable(chain, s) && w < |s.withdrawals|
    requires s.withdrawals[w].status == SignerRetry && Overdrafts.Acceptable(s, w, ref, txid, raw)
    ensures var end := FailedInBetween(cfg, s, w, Some(Overdrafts.ConfirmedAt(s.withdrawals[w], ref, txid, raw)));
            && w < |end.withdrawals| && end.withdrawals[w].status == Confirmed
            && Count(OfRowType(WithdrawalRef, w, WITHDRAWAL_RELEASE), end.ledger) == 1
  {
    hide CustodyRuns.Reachable, Overdrafts.Acceptable, SignerRules.AfterReconcile, FailedInBetween;
    var reply := Overdrafts.ConfirmedAt(s.withdrawals[w], ref, txid, raw);
    Lifecycles.ReleasedAtMostOnce(chain, s, w);
    KeyPresent(chain, s, w);
    var failed := Withdrawals.AfterFailed(s, w);
    WithdrawalSteps.EntryCounts(s.ledger, failed.ledger[|s.ledger|], w);
    hide Count;
    Lifecycles.ReconcileNeverReleases(failed, w, Some(reply));
    StaleConfirms(s, w, ref, txid, raw);
    InBetween(cfg, s, w, Some(reply));
  }

  lemma KeyPresent(chain: string -> Sighting, s: Snapshot, w: nat)
    requires CustodyRuns.Reachable(chain, s) && w < |s.withdrawals|
    ensures s.withdrawals[w].key != ""
  {
    hide CustodyRuns.Reachable, LedgerOk, DepositsOk, EscrowsOk, NoUncheckedDebit;
    CustodyRuns.ReachableInv(chain, s);
    assert WithdrawalOk(s, w);
  }

  lemma StaleConfirms(s: Snapshot, w: nat, ref: string, txid: string, raw: real)
    requires w < |s.withdrawals| && Overdrafts.Acceptable(s, w, ref, txid, raw) && s.withdrawals[w].key != ""
    ensures var t := SignerRules.AfterReconcile(Withdrawals.AfterFailed(s, w), w,
                                                Some(Overdrafts.ConfirmedAt(s.withdrawals[w], ref, txid, raw)));
            w < |t.withdrawals| && t.withdrawals[w].status == Confirmed
  {
    hide WalletFees.QuantizeAsset, Withdrawals.TxidSane, Withdrawals.AfterConfirmed;
    var row, failed := s.withdrawals[w], Withdrawals.AfterFailed(s, w);
    var result := ExecutionResult(StConfirmed, Some(row.asset), ref, txid, ActualFee(raw));
    assert ParseResult(Overdrafts.ConfirmedAt(row, ref, txid, raw)) == Some(result);
    var recorded := Withdrawals.AfterRecordResult(failed, w, row.key, result);
    assert recorded.Ok?;
    Protocol.MarkedRow(recorded.value, w, SignerRules.Proceed(StConfirmed, txid), ref);
  }
}
