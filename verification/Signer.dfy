/** signer/signer_service.py: what one provider answer does to a withdrawal row. */
module SignerRules {
  import opened Tables
  import opened ProviderReplies
  import opened Withdrawals
  import Text

  datatype Mapped = Proceed(status: ReplyStatus, txid: string) | Deterministic | Retryable

  function MapResult(result: ExecutionResult): Mapped {
    match result.status
    case StSubmitted => Proceed(StSubmitted, "")
    case StBroadcasted => if Text.Strip(result.txid) == "" then Retryable
      else Proceed(StBroadcasted, Text.Strip(result.txid))
    case StConfirmed => if Text.Strip(result.txid) == "" then Retryable
      else Proceed(StConfirmed, Text.Strip(result.txid))
    case StRejected => Deterministic
    case StPermanentFailure => Deterministic
    case _ => Retryable
  }

  /** The mark_withdrawal_* call that follows a recorded result. */
  function AfterMark(s: Snapshot, w: nat, mapped: Mapped, ref: string): Snapshot
    requires w < |s.withdrawals| && mapped.Proceed?
  {
    match mapped.status
    case StSubmitted => AfterSubmitted(s, w, ref)
    case StBroadcasted => AfterBroadcasted(s, w, mapped.txid, ref)
    case StConfirmed => AfterConfirmed(s, w, mapped.txid, ref)
    case _ => s
  }

  /** record_withdrawal_provider_result, then the mark; any error in between sends the row to signer_retry. */
  function AfterAccepted(s: Snapshot, w: nat, result: ExecutionResult, mapped: Mapped): Snapshot
    requires w < |s.withdrawals| && mapped.Proceed?
  {
    match AfterRecordResult(s, w, s.withdrawals[w].key, result)
    case Err(_) => AfterSignerRetry(s, w)
    case Ok(recorded) => AfterMark(recorded, w, mapped, result.providerRef)
  }

  /** _execute_single on a pending row; the reply is None when the request failed or its answer was lost. */
  function AfterExecute(s: Snapshot, w: nat, reply: Option<Body>): Snapshot
    requires w < |s.withdrawals|
  {
    var row := s.withdrawals[w];
    if row.key == "" || reply.None? || ParseResult(reply.value).None? then AfterSignerRetry(s, w)
    else
      var result := ParseResult(reply.value).value;
      match MapResult(result)
      case Deterministic => AfterFailed(s, w)
      case Retryable => AfterSignerRetry(s, w)
      case Proceed(status, txid) =>
        if result.asset.Some? && result.asset.value != row.asset then AfterSignerRetry(s, w)
        else AfterAccepted(s, w, result, Proceed(status, txid))
  }

  /** _reconcile_single on an unresolved row: every failure ends in signer_retry, none releases funds. */
  function AfterReconcile(s: Snapshot, w: nat, reply: Option<Body>): Snapshot
    requires w < |s.withdrawals|
  {
    var row := s.withdrawals[w];
    if reply.None? || ParseResult(reply.value).None? then AfterSignerRetry(s, w)
    else
      var result := ParseResult(reply.value).value;
      if row.providerRef != "" && result.providerRef != "" && row.providerRef != result.providerRef
        then AfterSignerRetry(s, w)
      else if result.asset.Some? && result.asset.value != row.asset then AfterSignerRetry(s, w)
      else match MapResult(result)
        case Proceed(status, txid) => AfterAccepted(s, w, result, Proceed(status, txid))
        case _ => AfterSignerRetry(s, w)
  }
}
