/** withdrawal_provider_service/app.py: the provider's own store and the answers it gives. */
module ProviderService {
  import opened Tables
  import opened ProviderReplies
  import Base58
  import Text
  import Withdrawals

  /** txid is "" while the column is NULL. */
  datatype Record = Record(
    withdrawalId: nat, user: int, asset: Asset, amount: real, destination: string, key: string,
    ref: string, status: ReplyStatus, txid: string, fee: FeeField)

  datatype Audit = Executed(ref: string) | StatusSet(ref: string, status: ReplyStatus, txid: string)

  datatype Store = Store(records: seq<Record>, audit: seq<Audit>)

  datatype Request = Request(withdrawalId: nat, user: int, asset: Asset, amount: real, destination: string, key: string)

  /** Address validation and SHA-256 of the key, shortened to 20 characters. */
  datatype Env = Env(validDestination: (Asset, string) -> bool, digest: string -> string)

  function ProviderRef(env: Env, w: nat, key: string): string {
    "mprov:" + Text.NatText(w) + ":" + env.digest(key)
  }

  predicate KnownStatus(status: ReplyStatus) {
    !status.StOther? && !status.StMissing?
  }

  /** The provider also knows SOL signatures: 64 bytes in Base58. */
  predicate TxidSane(asset: Asset, txid: string) {
    var value := Text.Strip(txid);
    if asset == SOL
    then 16 <= |value| <= 160 && Base58.DecodeRaw(value).Some? && |Base58.DecodeRaw(value).value| == 64
    else Withdrawals.TxidSane(asset, value)
  }

  /** The two columns with a unique index. */
  datatype Column = ByKey | ByRef

  function Field(r: Record, column: Column): string {
    if column == ByKey then r.key else r.ref
  }

  function Find(records: seq<Record>, column: Column, text: string): (found: Option<nat>)
    ensures found.Some? ==> found.value < |records| && Field(records[found.value], column) == text
    ensures found.None? ==> forall i :: 0 <= i < |records| ==> Field(records[i], column) != text
  {
    if records == [] then None
    else if Field(records[|records| - 1], column) == text then Some(|records| - 1)
    else Find(records[..|records| - 1], column, text)
  }

  /** _validate_execute_payload: what the request is understood to say. */
  function Validated(env: Env, req: Request): Option<Request> {
    var destination, key := Text.Strip(req.destination), Text.Strip(req.key);
    if req.amount <= 0.0 || destination == "" || !env.validDestination(req.asset, destination) || key == "" then None
    else Some(req.(destination := destination, key := key))
  }

  predicate RecordMatches(r: Record, req: Request) {
    && r.withdrawalId == req.withdrawalId && r.user == req.user && r.asset == req.asset
    && r.amount == req.amount && r.destination == req.destination
  }

  function Response(r: Record): Body {
    Body(r.status, KnownAsset(r.asset), r.ref, r.txid, r.fee)
  }

  function NewRecord(env: Env, req: Request): Record {
    Record(req.withdrawalId, req.user, req.asset, req.amount, req.destination, req.key,
           ProviderRef(env, req.withdrawalId, req.key), StSubmitted, "", NoFee)
  }

  /** create_submitted; the unique constraints on key and reference can refuse the row. */
  function AfterCreate(env: Env, store: Store, req: Request): Result<Store> {
    var record := NewRecord(env, req);
    if Find(store.records, ByKey, req.key).Some? ||
      Find(store.records, ByRef, record.ref).Some? then Err(ProviderMismatch)
    else Ok(Store(store.records + [record], store.audit + [Executed(record.ref)]))
  }

  const NOT_FOUND := Body(StUnknown, NoAsset, "", "", NoFee)

  function RejectedBody(asset: Asset): Body {
    Body(StRejected, KnownAsset(asset), "", "", NoFee)
  }

  /** handle_execute: the new store and the answer; no answer when the insert raised. */
  function AfterExecute(env: Env, store: Store, raw: Request): (Store, Option<Body>) {
    match Validated(env, raw)
    case None => (store, Some(RejectedBody(raw.asset)))
    case Some(req) =>
      match Find(store.records, ByKey, req.key)
      case Some(i) =>
        var r := store.records[i];
        (store, Some(if RecordMatches(r, req) then Response(r) else Response(r).(status := StAmbiguous)))
      case None =>
        match AfterCreate(env, store, req)
        case Err(_) => (store, None)
        case Ok(created) => (created, Some(Response(NewRecord(env, req))))
  }

  /** handle_reconcile, which never changes the store. */
  function ReconcileAnswer(store: Store, rawKey: string, rawRef: string): Body {
    var key, ref := Text.Strip(rawKey), Text.Strip(rawRef);
    if key == "" then NOT_FOUND
    else
      var byRef := if ref == "" then None else Find(store.records, ByRef, ref);
      if byRef.Some? && store.records[byRef.value].key != key
      then Body(StAmbiguous, KnownAsset(store.records[byRef.value].asset), store.records[byRef.value].ref, "", NoFee)
      else
        var found := if byRef.Some? then byRef else Find(store.records, ByKey, key);
        if found.None? then NOT_FOUND else Response(store.records[found.value])
  }

  /** update_status: an operator may set any known status; on-chain ones need a well-formed txid. */
  function AfterUpdate(store: Store, ref: string, status: ReplyStatus, txid: Option<string>,
                       fee: Option<FeeField>): Result<Store>
  {
    var found := Find(store.records, ByRef, ref);
    if !KnownStatus(status) then Err(WrongStatus)
    else if OnChain(status) && (txid.None? || txid.value == "") then Err(MalformedTxid)
    else if found.None? then Err(WithdrawalNotFound)
    else
      var r := store.records[found.value];
      if txid.Some? && !TxidSane(r.asset, txid.value) then Err(MalformedTxid)
      else
        var updated := r.(status := status, txid := if txid.Some? then txid.value else r.txid,
                          fee := if fee.Some? then fee.value else r.fee);
        Ok(Store(store.records[found.value := updated],
                 store.audit + [StatusSet(ref, status, if txid.Some? then txid.value else "")]))
  }

  class ProviderStore {
    var records: seq<Record>
    var audit: seq<Audit>

    constructor ()
      ensures Now() == Store([], [])
    {
      records, audit := [], [];
    }

    function Now(): Store
      reads this
    {
      Store(records, audit)
    }

    method CreateSubmitted(env: Env, req: Request) returns (r: Result<Record>)
      modifies this
      ensures match AfterCreate(env, old(Now()), req)
              case Err(error) => r == Err(error) && Now() == old(Now())
              case Ok(store) => r == Ok(NewRecord(env, req)) && Now() == store
    {
      var ref := ProviderRef(env, req.withdrawalId, req.key);
      if Find(records, ByKey, req.key).Some? || Find(records, ByRef, ref).Some? {
        return Err(ProviderMismatch);
      }
      var record := Record(req.withdrawalId, req.user, req.asset, req.amount, req.destination, req.key, ref,
                           StSubmitted, "", NoFee);
      records := records + [record];
      audit := audit + [Executed(ref)];
      return Ok(record);
    }

    method HandleExecute(env: Env, raw: Request) returns (answer: Option<Body>)
      modifies this
      ensures (Now(), answer) == AfterExecute(env, old(Now()), raw)
    {
      var req := Validated(env, raw);
      if req.None? {
        return Some(RejectedBody(raw.asset));
      }
      var existing := Find(records, ByKey, req.value.key);
      if existing.Some? {
        var r := records[existing.value];
        if !RecordMatches(r, req.value) {
          return Some(Response(r).(status := StAmbiguous));
        }
        return Some(Response(r));
      }
      var created := CreateSubmitted(env, req.value);
      if created.Err? {
        return None;
      }
      return Some(Response(created.value));
    }

    method HandleReconcile(key: string, ref: string) returns (answer: Body)
      ensures answer == ReconcileAnswer(Now(), key, ref)
    {
      var cleanKey, cleanRef := Text.Strip(key), Text.Strip(ref);
      if cleanKey == "" {
        return NOT_FOUND;
      }
      var found: Option<nat> := None;
      if cleanRef != "" {
        found := Find(records, ByRef, cleanRef);
        if found.Some? && records[found.value].key != cleanKey {
          var r := records[found.value];
          return Body(StAmbiguous, KnownAsset(r.asset), r.ref, "", NoFee);
        }
      }
      if found.None? {
        found := Find(records, ByKey, cleanKey);
      }
      if found.None? {
        return NOT_FOUND;
      }
      return Response(records[found.value]);
    }

    method UpdateStatus(ref: string, status: ReplyStatus, txid: Option<string>, fee: Option<FeeField>)
           returns (r: Result<()>)
      modifies this
      ensures match AfterUpdate(old(Now()), ref, status, txid, fee)
              case Err(error) => r == Err(error) && Now() == old(Now())
              case Ok(store) => r == Ok(()) && Now() == store
    {
      hide TxidSane;
      if !KnownStatus(status) {
        return Err(WrongStatus);
      }
      if OnChain(status) && (txid.None? || txid.value == "") {
        return Err(MalformedTxid);
      }
      var found := Find(records, ByRef, ref);
      if found.None? {
        return Err(WithdrawalNotFound);
      }
      var record := records[found.value];
      if txid.Some? {
        if !TxidSane(record.asset, txid.value) {
          return Err(MalformedTxid);
        }
        record := record.(txid := txid.value);
      }
      if fee.Some? {
        record := record.(fee := fee.value);
      }
      records := records[found.value := record.(status := status)];
      audit := audit + [StatusSet(ref, status, if txid.Some? then txid.value else "")];
      return Ok(());
    }
  }

  // ----- what always holds of a store

  ghost predicate Logged(store: Store, ref: string, status: ReplyStatus, txid: string) {
    StatusSet(ref, status, txid) in store.audit
  }

  /** Keys and references identify records; every on-chain status was set with the txid now stored. */
  ghost predicate StoreOk(env: Env, store: Store) {
    && (forall i, j ::
        0 <= i < |store.records| && 0 <= j < |store.records| && store.records[i].key == store.records[j].key ==> i == j)
    && (forall i, j ::
        0 <= i < |store.records| && 0 <= j < |store.records| && store.records[i].ref == store.records[j].ref ==> i == j)
    && (forall i :: 0 <= i < |store.records| ==> RecordOk(env, store, store.records[i]))
  }

  ghost predicate RecordOk(env: Env, store: Store, r: Record) {
    && r.ref == ProviderRef(env, r.withdrawalId, r.key)
    && (OnChain(r.status) ==> TxidSane(r.asset, r.txid) && Logged(store, r.ref, r.status, r.txid))
  }

  /** A later store: nothing of what identifies a record is lost, nothing is taken from the audit log. */
  ghost predicate Later(earlier: Store, store: Store) {
    && |earlier.records| <= |store.records| && earlier.audit <= store.audit
    && forall i :: 0 <= i < |earlier.records| ==> SameIdentity(earlier.records[i], store.records[i])
  }

  predicate SameIdentity(earlier: Record, r: Record) {
    r == earlier.(status := r.status, txid := r.txid, fee := r.fee)
  }

  lemma LogKept(earlier: Store, store: Store, ref: string, status: ReplyStatus, txid: string)
    requires earlier.audit <= store.audit && Logged(earlier, ref, status, txid)
    ensures Logged(store, ref, status, txid)
  {
  }

  lemma ExecuteKeepsStore(env: Env, store: Store, raw: Request)
    requires StoreOk(env, store)
    ensures var t := AfterExecute(env, store, raw).0; StoreOk(env, t) && Later(store, t)
  {
    hide TxidSane, ProviderRef, Find, Validated;
    var t := AfterExecute(env, store, raw).0;
    forall i | 0 <= i < |store.records| ensures RecordOk(env, t, store.records[i]) {
      assert RecordOk(env, store, store.records[i]);
    }
  }

  lemma UpdateKeepsStore(env: Env, store: Store, ref: string, status: ReplyStatus, txid: Option<string>,
                         fee: Option<FeeField>)
    requires StoreOk(env, store) && AfterUpdate(store, ref, status, txid, fee).Ok?
    ensures var t := AfterUpdate(store, ref, status, txid, fee).value;
            StoreOk(env, t) && Later(store, t) && |t.records| == |store.records|
  {
    hide TxidSane, ProviderRef;
    var t := AfterUpdate(store, ref, status, txid, fee).value;
    var f := Find(store.records, ByRef, ref).value;
    assert t.audit[|store.audit|] == StatusSet(ref, status, if txid.Some? then txid.value else "");
    forall i | 0 <= i < |store.records| ensures RecordOk(env, t, t.records[i]) {
      assert RecordOk(env, store, store.records[i]);
    }
  }

  /** A reconcile answer that names a record names the one with the asked key, or says ambiguous. */
  lemma ReconcileOwnKey(store: Store, key: string, ref: string)
    ensures var answer := ReconcileAnswer(store, key, ref);
            || answer == NOT_FOUND
            || answer.status == StAmbiguous
            || exists i ::
                 && 0 <= i < |store.records|
                 && store.records[i].key == Text.Strip(key) && answer == Response(store.records[i])
  {
  }

  /** Sending the same request again gives the same answer and adds no record, whatever the first answer was. */
  lemma ExecuteIdempotent(env: Env, store: Store, raw: Request)
    ensures AfterExecute(env, AfterExecute(env, store, raw).0, raw) == AfterExecute(env, store, raw)
  {
    hide TxidSane, ProviderRef;
  }
}
