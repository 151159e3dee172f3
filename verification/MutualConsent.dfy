/** An active escrow is cancelled only by the two participants together, over whole runs. */
module MutualConsent {
  import opened Tables
  import opened Custody
  import CustodyRuns
  import EscrowService
  import Lifecycles

  /** Operation i of the run asked for the cancellation of e on behalf of user, and was allowed to. */
  predicate Requested(plan: Plan, ops: seq<Op>, i: nat, e: nat, user: int)
    requires i < |ops|
  {
    ops[i] == RequestCancel(e, user) && EscrowService.AfterRequestCancel(Run(plan, ops[..i]), e, user).Ok?
  }

  /** Operation i replaced the standing request by a new one, or was a valid answer to it. */
  predicate Superseded(plan: Plan, ops: seq<Op>, i: nat, e: nat)
    requires i < |ops|
  {
    match ops[i]
    case RequestCancel(f, user) => f == e && EscrowService.AfterRequestCancel(Run(plan, ops[..i]), e, user).Ok?
    case RespondCancel(f, user, accept) => f == e &&
      EscrowService.AfterRespondCancel(Run(plan, ops[..i]), e, user, accept).Ok?
    case _ => false
  }

  /** The user's request is the latest one for e, and nobody has answered it yet. */
  ghost predicate Standing(plan: Plan, ops: seq<Op>, e: nat, user: int) {
    exists i :: 0 <= i < |ops| && Requested(plan, ops, i, e, user) && forall j :: i < j < |ops| ==>
      !Superseded(plan, ops, j, e)
  }

  lemma StandingStep(plan: Plan, ops: seq<Op>, e: nat, user: int)
    requires ops != []
    ensures var n := |ops| - 1;
            Standing(plan, ops, e, user) <==>
            Requested(plan, ops, n, e, user) || (Standing(plan, ops[..n], e, user) && !Superseded(plan, ops, n, e))
  {
    hide Run, EscrowService.AfterRequestCancel, EscrowService.AfterRespondCancel;
    var n := |ops| - 1;
    assert forall i :: 0 <= i < n ==> ops[..n][..i] == ops[..i];
    assert forall i :: 0 <= i < n ==> Requested(plan, ops[..n], i, e, user) == Requested(plan, ops, i, e, user);
    assert forall i :: 0 <= i < n ==> Superseded(plan, ops[..n], i, e) == Superseded(plan, ops, i, e);
    if Standing(plan, ops[..n], e, user) && !Superseded(plan, ops, n, e) {
      var i :| 0 <= i < n && Requested(plan, ops[..n], i, e, user) && forall j :: i < j < n ==>
        !Superseded(plan, ops[..n], j, e);
      assert Requested(plan, ops, i, e, user);
      assert forall j :: i < j < |ops| ==> !Superseded(plan, ops, j, e);
    }
    if Standing(plan, ops, e, user) && !Requested(plan, ops, n, e, user) {
      var i :| 0 <= i < |ops| && Requested(plan, ops, i, e, user) && forall j :: i < j < |ops| ==>
        !Superseded(plan, ops, j, e);
      assert Requested(plan, ops[..n], i, e, user);
      assert forall j :: i < j < n ==> !Superseded(plan, ops[..n], j, e);
    }
  }

  function Counterpart(row: EscrowRow, user: int): int {
    if user == row.buyer then row.seller else row.buyer
  }

  /** The stored request is open, made by user and addressed to the other participant. */
  predicate OpenFrom(s: Snapshot, e: nat, user: int) {
    && e in s.requests && s.requests[e].requester == user && s.requests[e].status == Open
    && e < |s.escrows| && EscrowService.Participant(s.escrows[e], user)
    && s.requests[e].responder == Counterpart(s.escrows[e], user)
  }

  ghost predicate RequestsFit(s: Snapshot) {
    forall e: nat :: e in s.requests && s.requests[e].status == Open ==> OpenFrom(s, e, s.requests[e].requester)
  }

  /** Every operation other than a request or an answer leaves requests and participants alone. */
  lemma QuietStep(cfg: Settings, s: Snapshot, op: Op)
    requires !op.RequestCancel? && !op.RespondCancel?
    ensures var t := Step(cfg, s, op);
            && t.requests == s.requests && |s.escrows| <= |t.escrows|
            && forall e: nat :: e < |s.escrows| ==> t.escrows[e] == s.escrows[e].(status := t.escrows[e].status)
  {
    hide Step, OpenStatus;
    match op {
      case Accept(_, _) => Lifecycles.EscrowTalks(cfg, s, op);
      case Dispute(_, _) => Lifecycles.EscrowTalks(cfg, s, op);
      case Release(_, _) => Lifecycles.EscrowCloses(cfg, s, op);
      case Cancel(_, _) => Lifecycles.EscrowCloses(cfg, s, op);
      case Resolve(_, _, _) => Lifecycles.EscrowCloses(cfg, s, op);
      case Execute(_, _) => Lifecycles.WithdrawalGrows(cfg, s, op);
      case Reconcile(_, _) => Lifecycles.WithdrawalGrows(cfg, s, op);
      case AdminAction(_, _) => Lifecycles.WithdrawalGrows(cfg, s, op);
      case _ => Lifecycles.OtherGrows(cfg, s, op);
    }
  }

  lemma TalkStep(cfg: Settings, s: Snapshot, op: Op)
    requires RequestsFit(s) && (op.RequestCancel? || op.RespondCancel?)
    ensures var t := Step(cfg, s, op);
            && RequestsFit(t)
            && (op.RequestCancel? && EscrowService.AfterRequestCancel(s, op.e, op.actor).Ok? ==>
                OpenFrom(t, op.e, op.actor))
            && (op.RespondCancel? && EscrowService.AfterRespondCancel(s, op.e, op.actor, op.accept).Ok? ==>
                  op.e in t.requests && t.requests[op.e].status != Open)
            && (forall e: nat, user: int :: e != op.e || t == s ==> (OpenFrom(t, e, user) <==> OpenFrom(s, e, user)))
  {
  }

  /** The stored request is the standing request of the run. */
  lemma {:induction false} StoredIsStanding(plan: Plan, ops: seq<Op>, e: nat, user: int)
    ensures RequestsFit(Run(plan, ops))
    ensures OpenFrom(Run(plan, ops), e, user) <==> Standing(plan, ops, e, user)
  {
    if ops != [] {
      var n := |ops| - 1;
      var s, t := Run(plan, ops[..n]), Run(plan, ops);
      StoredIsStanding(plan, ops[..n], e, user);
      StandingStep(plan, ops, e, user);
      hide Standing, Run, Step;
      if ops[n].RequestCancel? || ops[n].RespondCancel? {
        TalkStep(plan(n), s, ops[n]);
        Answered(plan(n), s, ops[n]);
      } else {
        QuietStep(plan(n), s, ops[n]);
      }
    }
  }

  /** A request or answer that is refused changes nothing. */
  lemma Answered(cfg: Settings, s: Snapshot, op: Op)
    requires op.RequestCancel? || op.RespondCancel?
    ensures op.RequestCancel? && EscrowService.AfterRequestCancel(s, op.e, op.actor).Err? ==> Step(cfg, s, op) == s
    ensures op.RespondCancel? && EscrowService.AfterRespondCancel(s, op.e, op.actor, op.accept).Err? ==>
            Step(cfg, s, op) == s
  {
  }

  /** Only an accepting answer turns an active escrow into a cancelled one. */
  lemma OnlyAnswersCancel(cfg: Settings, s: Snapshot, op: Op, e: nat)
    requires e < |s.escrows| && s.escrows[e].status == Active && RequestsFit(s)
    requires |Step(cfg, s, op).escrows| > e && Step(cfg, s, op).escrows[e].status == Cancelled
    ensures op.RespondCancel? && op.e == e && op.accept && e in s.requests
    ensures OpenFrom(s, e, s.requests[e].requester) && op.actor == s.requests[e].responder
  {
    hide OpenStatus;
    match op {
      case RespondCancel(_, _, _) =>
      case Accept(_, _) =>
      case Dispute(_, _) =>
      case RequestCancel(_, _) =>
      case Cancel(_, _) =>
      case _ => StatusesKept(cfg, s, op, e);
    }
  }

  lemma StatusesKept(cfg: Settings, s: Snapshot, op: Op, e: nat)
    requires e < |s.escrows| && e < |Step(cfg, s, op).escrows| && Step(cfg, s, op).escrows[e].status == Cancelled
    requires !(op.RespondCancel? || op.Accept? || op.Dispute? || op.RequestCancel? || op.Cancel?)
    ensures s.escrows[e].status == Cancelled
  {
    hide Step;
    match op {
      case Release(_, _) => Lifecycles.EscrowCloses(cfg, s, op);
      case Resolve(_, _, _) => Lifecycles.EscrowCloses(cfg, s, op);
      case Execute(_, _) => Lifecycles.WithdrawalGrows(cfg, s, op);
      case Reconcile(_, _) => Lifecycles.WithdrawalGrows(cfg, s, op);
      case AdminAction(_, _) => Lifecycles.WithdrawalGrows(cfg, s, op);
      case _ => Lifecycles.OtherGrows(cfg, s, op);
    }
  }

  /** With a standing request and an intact lock, the other participant's acceptance cancels and refunds. */
  lemma AnswerCancels(cfg: Settings, s: Snapshot, e: nat, user: int)
    requires e < |s.escrows| && EscrowOk(s, e) && s.escrows[e].status == Active && OpenFrom(s, e, user)
    ensures var row := s.escrows[e];
            var t := Step(cfg, s, RespondCancel(e, Counterpart(row, user), true));
            && e < |t.escrows| && t.escrows[e].status == Cancelled
            && t.ledger == s.ledger + [Entry(User(row.buyer), row.asset, row.amount, ESCROW_UNLOCK, EscrowRef, e)]
  {
    hide EscrowFootprint, DisputesOf, DisputesFit;
  }

  /**
   Mutual consent: the next operation cancels an active escrow exactly when it is the acceptance of the
   latest, unanswered request by the participant who did not make that request.
   */
  lemma CancelledByBoth(plan: Plan, cfg: Settings, chain: string -> Sighting, ops: seq<Op>, op: Op, e: nat)
    requires GoodPlan(plan) && CustodyRuns.GoodRun(chain, ops)
    requires e < |Run(plan, ops).escrows| && Run(plan, ops).escrows[e].status == Active
    ensures var s := Run(plan, ops); var row, t := s.escrows[e], Step(cfg, s, op);
            (e < |t.escrows| && t.escrows[e].status == Cancelled) <==>
            && op.RespondCancel? && op.e == e && op.accept
            && ((Standing(plan, ops, e, row.buyer) && op.actor == row.seller) ||
                (Standing(plan, ops, e, row.seller) && op.actor == row.buyer))
  {
    var s, row := Run(plan, ops), Run(plan, ops).escrows[e];
    CustodyRuns.RunInv(plan, chain, ops);
    assert EscrowOk(s, e);
    StoredIsStanding(plan, ops, e, row.buyer);
    StoredIsStanding(plan, ops, e, row.seller);
    hide Run, Step, Standing, Inv, EscrowOk;
    if e < |Step(cfg, s, op).escrows| && Step(cfg, s, op).escrows[e].status == Cancelled {
      OnlyAnswersCancel(cfg, s, op, e);
    }
    if Standing(plan, ops, e, row.buyer) {
      AnswerCancels(cfg, s, e, row.buyer);
    }
    if Standing(plan, ops, e, row.seller) {
      AnswerCancels(cfg, s, e, row.seller);
    }
  }

  /** A counter-request swaps the roles and voids the earlier request. */
  lemma CounterRequest(plan: Plan, chain: string -> Sighting, ops: seq<Op>, e: nat, user: int)
    requires GoodPlan(plan) && CustodyRuns.GoodRun(chain, ops)
    requires e < |Run(plan, ops).escrows| && Run(plan, ops).escrows[e].status == Active && Standing(plan, ops, e, user)
    ensures var other := Counterpart(Run(plan, ops).escrows[e], user);
            var after := ops + [RequestCancel(e, other)];
            other != user && Standing(plan, after, e, other) && !Standing(plan, after, e, user)
  {
    var s := Run(plan, ops);
    var other := Counterpart(s.escrows[e], user);
    var after := ops + [RequestCancel(e, other)];
    assert after[..|ops|] == ops;
    CustodyRuns.RunInv(plan, chain, ops);
    assert EscrowOk(s, e);
    StoredIsStanding(plan, ops, e, user);
    StandingStep(plan, after, e, user);
    StandingStep(plan, after, e, other);
    hide Run, Standing, Inv, EscrowOk, Step;
    assert EscrowService.AfterRequestCancel(s, e, other).Ok?;
  }
}
