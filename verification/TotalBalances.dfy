/** The total shown to a user: what reserving and giving back money does to it. */
module TotalBalances {
  import opened Tables
  import opened LedgerService
  import opened WalletFees
  import opened ProviderReplies
  import opened Custody
  import EscrowService
  import FeeService
  import Lifecycles
  import SignerRules
  import Withdrawals

  lemma {:induction false} OtherLocksSame(locks: map<nat, LockRow>, other: map<nat, LockRow>, user: int, asset: Asset,
                                          n: nat)
    requires forall e: nat :: e < n ==> (e in locks <==> e in other) && (e in locks ==> locks[e] == other[e])
    ensures LockedInEscrows(locks, user, asset, n) == LockedInEscrows(other, user, asset, n)
  {
    if n > 0 {
      OtherLocksSame(locks, other, user, asset, n - 1);
    }
  }

  /** Replacing one lock row changes what is held by exactly the difference. */
  lemma {:induction false} LockReplaced(locks: map<nat, LockRow>, e: nat, lock: LockRow, user: int, asset: Asset,
                                        n: nat)
    requires e < n && e in locks
    ensures LockedInEscrows(locks[e := lock], user, asset, n) ==
            LockedInEscrows(locks, user, asset, n) - HeldBy(locks[e], user, asset) + HeldBy(lock, user, asset)
  {
    if e == n - 1 {
      OtherLocksSame(locks, locks[e := lock], user, asset, n - 1);
    } else {
      LockReplaced(locks, e, lock, user, asset, n - 1);
    }
  }

  lemma {:induction false} RowReplaced(rows: seq<WithdrawalRow>, w: nat, row: WithdrawalRow, user: int, asset: Asset)
    requires w < |rows|
    ensures LockedInWithdrawals(rows[w := row], user, asset) ==
            LockedInWithdrawals(rows, user, asset) - PendingFor(rows[w], user, asset) + PendingFor(row, user, asset)
  {
    var n := |rows| - 1;
    if w == n {
      assert rows[w := row][..n] == rows[..n];
    } else {
      assert rows[w := row][..n] == rows[..n][w := row];
      RowReplaced(rows[..n], w, row, user, asset);
    }
  }

  lemma BalanceAfter(s: Snapshot, t: Snapshot, e: Entry, user: int, asset: Asset)
    requires t.ledger == s.ledger + [e]
    ensures Balance(t, user, asset) == Balance(s, user, asset) + Picked(OfUser(user, asset), e)
  {
    SumConcat(OfUser(user, asset), s.ledger, [e]);
    SumFew(OfUser(user, asset), [e]);
  }

  /** Locking money for a new escrow moves it from available to locked: nobody's total changes. */
  lemma CreateKeepsTotals(cfg: Settings, s: Snapshot, botId: int, buyer: int, seller: int, coin: Asset, amount: real,
                          description: string, user: int, asset: Asset)
    requires EscrowService.AfterCreate(cfg, s, botId, buyer, seller, coin, amount, description).Ok?
    ensures var t := EscrowService.AfterCreate(cfg, s, botId, buyer, seller, coin, amount, description).value;
            && Total(t, user, asset) == Total(s, user, asset)
            && Balance(t, buyer, coin) == Balance(s, buyer, coin) - amount >= 0.0
  {
    hide FeeService.CalculateTotalFees, EscrowService.MeetsMinimum;
    var t := EscrowService.AfterCreate(cfg, s, botId, buyer, seller, coin, amount, description).value;
    var e := |s.escrows|;
    var entry := Entry(User(buyer), coin, -amount, ESCROW_LOCK, EscrowRef, e);
    OtherLocksSame(s.locks, t.locks, user, asset, e);
    BalanceAfter(s, t, entry, user, asset);
    BalanceAfter(s, t, entry, buyer, coin);
  }

  /** Cancelling gives the lock back to the buyer: again nobody's total changes. */
  lemma CancelKeepsTotals(s: Snapshot, e: nat, actor: int, user: int, asset: Asset)
    requires EscrowService.AfterCancel(s, e, actor).Ok?
    ensures var t, lock := EscrowService.AfterCancel(s, e, actor).value, s.locks[e];
            && Total(t, user, asset) == Total(s, user, asset)
            && Balance(t, lock.user, lock.asset) == Balance(s, lock.user, lock.asset) + lock.amount
  {
    var t, lock := EscrowService.AfterCancel(s, e, actor).value, s.locks[e];
    var entry := Entry(User(lock.user), lock.asset, lock.amount, ESCROW_UNLOCK, EscrowRef, e);
    assert t.ledger == s.ledger + [entry];
    LockReplaced(s.locks, e, lock.(status := Released), user, asset, |s.escrows|);
    BalanceAfter(s, t, entry, user, asset);
    BalanceAfter(s, t, entry, lock.user, lock.asset);
  }

  /** An entry and its opposite leave every balance as it was. */
  lemma BalanceRestored(s: Snapshot, r: Snapshot, e: Entry, back: Entry, user: int, asset: Asset)
    requires r.ledger == s.ledger + [e] + [back]
    requires back.account == e.account && back.asset == e.asset && back.amount == -e.amount
    ensures Balance(r, user, asset) == Balance(s, user, asset)
  {
    SumConcat(OfUser(user, asset), s.ledger + [e], [back]);
    SumConcat(OfUser(user, asset), s.ledger, [e]);
    SumFew(OfUser(user, asset), [e]);
    SumFew(OfUser(user, asset), [back]);
    hide Sum;
  }

  /** Creating an escrow and cancelling it at once gives every user every balance back. */
  lemma CreateThenCancel(cfg: Settings, s: Snapshot, botId: int, buyer: int, seller: int, coin: Asset, amount: real,
                         description: string, actor: int, user: int, asset: Asset)
    requires EscrowService.AfterCreate(cfg, s, botId, buyer, seller, coin, amount, description).Ok?
    requires actor == buyer || actor == seller
    ensures var t := EscrowService.AfterCreate(cfg, s, botId, buyer, seller, coin, amount, description).value;
            var r := EscrowService.AfterCancel(t, |s.escrows|, actor);
            r.Ok? && Balance(r.value, user, asset) == Balance(s, user, asset) &&
              Total(r.value, user, asset) == Total(s, user, asset)
  {
    hide FeeService.CalculateTotalFees, EscrowService.MeetsMinimum, Balance, Total;
    var e, t := |s.escrows|, EscrowService.AfterCreate(cfg, s, botId, buyer, seller, coin, amount, description).value;
    CreateKeepsTotals(cfg, s, botId, buyer, seller, coin, amount, description, user, asset);
    CancelKeepsTotals(t, e, actor, user, asset);
    var r := EscrowService.AfterCancel(t, e, actor).value;
    BalanceRestored(s, r, Entry(User(buyer), coin, -amount, ESCROW_LOCK, EscrowRef, e),
                    Entry(User(buyer), coin, amount, ESCROW_UNLOCK, EscrowRef, e), user, asset);
  }

  /** Requesting a withdrawal keeps the user's total exactly when the amount is on the asset grid. */
  lemma RequestKeepsTotal(cfg: Settings, s: Snapshot, user: int, asset: Asset, amount: real, destination: string,
                          digest: string, now: int)
    requires Withdrawals.AfterRequest(cfg, s, user, asset, amount, destination, digest, now).Ok?
    ensures var t := Withdrawals.AfterRequest(cfg, s, user, asset, amount, destination, digest, now).value;
            && (Total(t, user, asset) == Total(s, user, asset) <==> Exact(asset, amount))
            && -Quantum(asset) / 2.0 <= Total(t, user, asset) - Total(s, user, asset) <= Quantum(asset) / 2.0
  {
    hide WithdrawalPlatformFee, WithdrawalNetworkFee, WithdrawalTotalDebit, Exact, Quantum;
    TotalDebitWithin(cfg, asset, amount);
    var t := Withdrawals.AfterRequest(cfg, s, user, asset, amount, destination, digest, now).value;
    hide Withdrawals.Refusal;
    var w := |s.withdrawals|;
    assert t.withdrawals[..w] == s.withdrawals;
    BalanceAfter(s, t, Withdrawals.ReserveEntry(cfg, w, user, asset, amount), user, asset);
  }

  // ----- withdrawals on their way

  /** Only pending rows count as locked: the total follows the balance and what the row held while it was pending. */
  lemma RowMovesTotal(s: Snapshot, t: Snapshot, w: nat, user: int, asset: Asset)
    requires w < |s.withdrawals| && Lifecycles.OnlyWithdrawal(s, t, w)
    ensures Total(t, user, asset) - Total(s, user, asset) ==
            Balance(t, user, asset) - Balance(s, user, asset)
            + PendingFor(t.withdrawals[w], user, asset) - PendingFor(s.withdrawals[w], user, asset)
  {
    RowReplaced(s.withdrawals, w, t.withdrawals[w], user, asset);
    assert t.withdrawals == s.withdrawals[w := t.withdrawals[w]];
  }

  /** The same for every operation on a withdrawal and every answer. */
  lemma OperationMovesTotal(cfg: Settings, s: Snapshot, op: Op, user: int, asset: Asset)
    requires (op.Execute? || op.Reconcile? || op.AdminAction?) && op.w < |s.withdrawals|
    ensures var t := Step(cfg, s, op);
            && op.w < |t.withdrawals|
            && Total(t, user, asset) - Total(s, user, asset) ==
               Balance(t, user, asset) - Balance(s, user, asset)
               + PendingFor(t.withdrawals[op.w], user, asset) - PendingFor(s.withdrawals[op.w], user, asset)
  {
    hide Step, Total;
    Lifecycles.WithdrawalGrows(cfg, s, op);
    RowMovesTotal(s, Step(cfg, s, op), op.w, user, asset);
  }

  /** Sending a pending row to signer_retry takes its reserve out of the user's total although nothing was paid out. */
  lemma RetryDropsTotal(s: Snapshot, w: nat)
    requires w < |s.withdrawals| && s.withdrawals[w].status == WPending
    ensures var row := s.withdrawals[w];
            Total(Withdrawals.AfterSignerRetry(s, w), row.user, row.asset) ==
            Total(s, row.user, row.asset) - Withdrawals.ReleaseTotal(row)
  {
    hide Total;
    var row, t := s.withdrawals[w], Withdrawals.AfterSignerRetry(s, w);
    RowMovesTotal(s, t, w, row.user, row.asset);
  }

  /** An executed row is no longer pending; only an on-chain status and a failure book anything. */
  lemma AnsweredRow(s: Snapshot, w: nat, reply: Option<Body>)
    requires w < |s.withdrawals| && s.withdrawals[w].status == WPending
    ensures var t, row := SignerRules.AfterExecute(s, w, reply), s.withdrawals[w];
            var release :=
              Entry(User(row.user), row.asset, Withdrawals.ReleaseTotal(row), WITHDRAWAL_RELEASE, WithdrawalRef, w);
            && w < |t.withdrawals| && t.withdrawals[w].status != WPending
            && (t.withdrawals[w].status in {Submitted, SignerRetry} ==> t.ledger == s.ledger)
            && (t.withdrawals[w].status == Failed ==> t.ledger == s.ledger + [release])
  {
    hide ParseResult, Withdrawals.AfterRecordResult, Withdrawals.AfterSettle, Withdrawals.AfterBookFee;
    if reply.Some? && ParseResult(reply.value).Some? {
      var result := ParseResult(reply.value).value;
      var recorded := Withdrawals.AfterRecordResult(s, w, s.withdrawals[w].key, result);
      if SignerRules.MapResult(result).Proceed? && recorded.Ok? {
        Lifecycles.RecordAdds(s, w, result);
        Lifecycles.BroadcastedAdds(recorded.value, w, SignerRules.MapResult(result).txid, result.providerRef, false,
                                   Broadcasted);
        Lifecycles.BroadcastedAdds(recorded.value, w, SignerRules.MapResult(result).txid, result.providerRef, true,
                                   Confirmed);
      }
    }
  }

  /**
   Executing a pending row, whatever the provider answers, takes its reserve out of the user's total although
   nothing may have been paid out yet; only a failure, which books the release, leaves the total as it was.
   */
  lemma LeavingPending(cfg: Settings, s: Snapshot, w: nat, reply: Option<Body>)
    requires w < |s.withdrawals| && s.withdrawals[w].status == WPending
    ensures var row, t := s.withdrawals[w], Step(cfg, s, Execute(w, reply));
            var drop := Total(s, row.user, row.asset) - Total(t, row.user, row.asset);
            && w < |t.withdrawals| && t.withdrawals[w].status != WPending
            && drop == Withdrawals.ReleaseTotal(row) + Balance(s, row.user, row.asset) - Balance(t, row.user, row.asset)
            && (t.withdrawals[w].status in {Submitted, SignerRetry} ==> drop == Withdrawals.ReleaseTotal(row))
            && (t.withdrawals[w].status == Failed ==> drop == 0.0)
  {
    hide SignerRules.AfterExecute, Total;
    var row, t := s.withdrawals[w], Step(cfg, s, Execute(w, reply));
    AnsweredRow(s, w, reply);
    OperationMovesTotal(cfg, s, Execute(w, reply), row.user, row.asset);
    if t.withdrawals[w].status == Failed {
      BalanceAfter(s, t, t.ledger[|s.ledger|], row.user, row.asset);
    }
  }

  /** Whatever the admin decides about a row in signer_retry, the user sees the reserve again. */
  lemma AdminRestoresTotal(cfg: Settings, s: Snapshot, w: nat, requeue: bool)
    requires w < |s.withdrawals| && s.withdrawals[w].status == SignerRetry
    ensures var row := s.withdrawals[w];
            Total(Step(cfg, s, AdminAction(w, requeue)), row.user, row.asset) ==
            Total(s, row.user, row.asset) + Withdrawals.ReleaseTotal(row)
  {
    hide Total;
    var row, t := s.withdrawals[w], Step(cfg, s, AdminAction(w, requeue));
    OperationMovesTotal(cfg, s, AdminAction(w, requeue), row.user, row.asset);
    if !requeue {
      BalanceAfter(s, t, t.ledger[|s.ledger|], row.user, row.asset);
    }
  }
}
