/** watcher_status_service.py: one row per watcher; the scan cursor lives in it. */
module WatcherStatus {
  import opened Tables

  datatype StatusRow = StatusRow(cursor: Option<int>, failures: nat, health: string)

  function Cursor(rows: map<string, StatusRow>, name: string): Option<int> {
    if name in rows then rows[name].cursor else None
  }

  const VALID_HEALTH := {"ok", "degraded", "fatal_startup_blocked", "transient_failure", "disabled"}

  /** A success is always ok; a failure under a label nobody knows counts as transient. */
  function HealthOf(success: bool, health: string): (state: string)
    ensures state in VALID_HEALTH
    ensures !success && health in VALID_HEALTH ==> state == health
  {
    if success then "ok" else if health in VALID_HEALTH then health else "transient_failure"
  }

  function AfterUpsert(rows: map<string, StatusRow>, name: string, success: bool,
                       health: string): map<string, StatusRow>
  {
    var state := HealthOf(success, health);
    if name !in rows then rows[name := StatusRow(None, if success then 0 else 1, state)]
    else rows[name := StatusRow(rows[name].cursor, if success then 0 else rows[name].failures + 1, state)]
  }

  function AfterWriteCursor(rows: map<string, StatusRow>, name: string, cursor: int): map<string, StatusRow> {
    if name in rows then rows[name := rows[name].(cursor := Some(cursor))]
    else rows[name := StatusRow(Some(cursor), 0, "ok")]
  }

  class StatusTable {
    var rows: map<string, StatusRow>

    constructor ()
      ensures rows == map[]
    {
      rows := map[];
    }

    method UpsertWatcherStatus(name: string, success: bool, health: string)
      modifies this
      ensures rows == AfterUpsert(old(rows), name, success, health)
      ensures forall other: string :: Cursor(rows, other) == Cursor(old(rows), other)
      ensures name in rows && rows[name].health in VALID_HEALTH
    {
      var state := "ok";
      if !success {
        state := if health in VALID_HEALTH then health else "transient_failure";
      }
      if name !in rows {
        rows := rows[name := StatusRow(None, if success then 0 else 1, state)];
        return;
      }
      var failures := if success then 0 else rows[name].failures + 1;
      rows := rows[name := rows[name].(failures := failures, health := state)];
    }

    method WriteWatcherCursor(name: string, cursor: int)
      modifies this
      ensures rows == AfterWriteCursor(old(rows), name, cursor)
      ensures forall other: string ::
              Cursor(rows, other) == if other == name then Some(cursor) else Cursor(old(rows), other)
    {
      if name in rows {
        rows := rows[name := rows[name].(cursor := Some(cursor))];
      } else {
        rows := rows[name := StatusRow(Some(cursor), 0, "ok")];
      }
    }
  }
}

/** infra/chain_adapters/eth_rpc.py, sol_rpc.py and watchers/: scanning a block range and crediting what it holds. */
module Watchers {
  import opened Tables
  import opened WatcherStatus
  import opened Custody
  import Deposits

  /** A matching transfer in a block: to a user's address, with a positive amount. */
  datatype Found = Found(user: int, asset: Asset, amount: real, key: string, address: string)

  /** What a truthful node returns: native transfers block by block, token logs for a whole range. */
  datatype Node = Node(native: int -> seq<Found>, tokens: int -> seq<Found>)

  /** The transfers to addresses that are watched. */
  function Kept(found: seq<Found>, watched: set<string>): seq<Found> {
    if found == [] then []
    else
      var f := found[|found| - 1];
      Kept(found[..|found| - 1], watched) + if f.address in watched then [f] else []
  }

  /** The address map is loaded before every cycle: of all transfers to users, one scan sees only some. */
  function Filtered(node: Node, watched: set<string>): Node {
    Node(block => Kept(node.native(block), watched), block => Kept(node.tokens(block), watched))
  }

  /** One watcher: its name, where it starts, its batch size and the assets it looks for. */
  datatype Setup = Setup(name: string, floor: int, maxPerRun: int, confirmations: int, assets: set<Asset>)

  function Max(a: int, b: int): int {
    if a < b then b else a
  }

  function Min(a: int, b: int): int {
    if a < b then a else b
  }

  /** _load_cursor: scanning starts after this block. */
  function LoadCursor(setup: Setup, cursor: Option<int>): int {
    if cursor.None? then setup.floor else Max(setup.floor, cursor.value)
  }

  /** Everything found in the blocks from + 1 .. last. */
  function Scan(blocks: int -> seq<Found>, from: int, last: int): seq<Found>
    decreases last - from
  {
    if last <= from then [] else Scan(blocks, from, last - 1) + blocks(last)
  }

  function Events(node: Node, from: int, last: int): seq<Found> {
    Scan(node.native, from, last) + Scan(node.tokens, from, last)
  }

  /** Where one scan ends. */
  function EndOf(setup: Setup, start: int, finalized: int): int {
    if finalized <= start then start else Min(finalized, start + setup.maxPerRun)
  }

  /** The cursor to store after the scan; a head that went backwards takes the cursor with it. */
  function NewCursor(setup: Setup, start: int, finalized: int): int {
    if finalized <= start then finalized else EndOf(setup, start, finalized)
  }

  method FetchDeposits(setup: Setup, node: Node, cursor: Option<int>, finalized: int)
         returns (deposits: seq<Found>, next: int)
    requires setup.maxPerRun >= 1
    ensures var start := LoadCursor(setup, cursor);
            deposits == Events(node, start, EndOf(setup, start, finalized)) &&
              next == NewCursor(setup, start, finalized)
  {
    var start := LoadCursor(setup, cursor);
    if finalized <= start {
      return [], finalized;
    }
    next := Min(finalized, start + setup.maxPerRun);
    deposits := [];
    var block := start + 1;
    while block < next + 1
      invariant start + 1 <= block <= next + 1
      invariant deposits == Scan(node.native, start, block - 1)
    {
      deposits := deposits + node.native(block);
      block := block + 1;
    }
    deposits := deposits + Scan(node.tokens, start, next);
  }

  function CreditOf(setup: Setup, f: Found): Op {
    Credit(Sighting(f.user, f.asset, f.amount), f.key, setup.confirmations, true)
  }

  function Credits(setup: Setup, deposits: seq<Found>): seq<Op> {
    seq(|deposits|, i requires 0 <= i < |deposits| => CreditOf(setup, deposits[i]))
  }

  /** A credit call that raises is rolled back and logged, and the loop goes on; raises tells which calls do. */
  function Ingested(deposits: seq<Found>, raises: nat -> bool): seq<Found> {
    if deposits == [] then []
    else
      var n := |deposits| - 1;
      Ingested(deposits[..n], raises) + if raises(n) then [] else [deposits[n]]
  }

  function RunFrom(cfg: Settings, s: Snapshot, ops: seq<Op>): Snapshot {
    if ops == [] then s else Step(cfg, RunFrom(cfg, s, ops[..|ops| - 1]), ops[|ops| - 1])
  }

  /** How many of the calls report a fresh credit. */
  function FreshCredits(cfg: Settings, setup: Setup, s: Snapshot, deposits: seq<Found>): nat {
    if deposits == [] then 0
    else
      var n := |deposits| - 1;
      FreshCredits(cfg, setup, s, deposits[..n]) +
      if Deposits.Credits(RunFrom(cfg, s, Credits(setup, deposits[..n])).deposits, deposits[n].key, true) then 1 else 0
  }

  /** The deposits whose turn comes before the process dies, if it does. */
  function Reached(deposits: seq<Found>, crashAfter: Option<nat>): seq<Found> {
    if crashAfter.Some? && crashAfter.value <= |deposits| then deposits[..crashAfter.value] else deposits
  }

  /**
   run_once: every credit is committed on its own, then the cursor. crashAfter says after how many credits
   the process dies, if it does; then the cursor is not written.
   */
  method RunOnce(db: Database, status: StatusTable, cfg: Settings, setup: Setup, node: Node, finalized: int,
                 crashAfter: Option<nat>, raises: nat -> bool)
    returns (credited: nat)
    requires setup.maxPerRun >= 1
    modifies db, status
    ensures var start := LoadCursor(setup, Cursor(old(status.rows), setup.name));
            var deposits := Events(node, start, EndOf(setup, start, finalized));
            var done := Ingested(Reached(deposits, crashAfter), raises);
            && db.Now() == RunFrom(cfg, old(db.Now()), Credits(setup, done))
            && credited == FreshCredits(cfg, setup, old(db.Now()), done)
            && status.rows == if crashAfter.Some? && crashAfter.value <= |deposits| then old(status.rows)
                              else AfterWriteCursor(old(status.rows), setup.name, NewCursor(setup, start, finalized))
  {
    hide Step, Events, Deposits.Credits, Deposits.AfterCredit, RunFrom, FreshCredits, Credits;
    var deposits, next := FetchDeposits(setup, node, Cursor(status.rows, setup.name), finalized);
    credited := 0;
    ghost var s, done := db.Now(), [];
    NoCreditYet(cfg, setup, s);
    for i := 0 to |deposits|
      invariant crashAfter.Some? ==> i <= crashAfter.value
      invariant status.rows == old(status.rows)
      invariant done == Ingested(deposits[..i], raises)
      invariant db.Now() == RunFrom(cfg, s, Credits(setup, done)) && credited == FreshCredits(cfg, setup, s, done)
    {
      if crashAfter == Some(i) {
        return;
      }
      var dep := deposits[i];
      assert deposits[..i + 1][..i] == deposits[..i];
      if !raises(i) {
        OneMoreCredit(cfg, setup, s, done, dep);
        done := done + [dep];
        var didCredit := Deposits.CreditDepositIfConfirmed(db, cfg, dep.user, dep.asset, dep.amount, dep.key,
                                                           setup.confirmations, true);
        if didCredit {
          credited := credited + 1;
        }
      }
    }
    assert deposits[..|deposits|] == deposits;
    if crashAfter == Some(|deposits|) {
      return;
    }
    status.WriteWatcherCursor(setup.name, next);
  }

  lemma NoCreditYet(cfg: Settings, setup: Setup, s: Snapshot)
    ensures RunFrom(cfg, s, Credits(setup, [])) == s && FreshCredits(cfg, setup, s, []) == 0
  {
  }

  lemma OneMoreCredit(cfg: Settings, setup: Setup, s: Snapshot, done: seq<Found>, f: Found)
    ensures var t := RunFrom(cfg, s, Credits(setup, done));
            && RunFrom(cfg, s, Credits(setup, done + [f])) ==
               Deposits.AfterCredit(cfg, t, f.user, f.asset, f.amount, f.key, setup.confirmations, true)
            && FreshCredits(cfg, setup, s, done + [f]) ==
               FreshCredits(cfg, setup, s, done) + if Deposits.Credits(t.deposits, f.key, true) then 1 else 0
  {
    hide Deposits.AfterCredit, Deposits.Credits;
    assert (done + [f])[..|done|] == done;
    assert Credits(setup, done + [f])[..|done|] == Credits(setup, done);
  }
}
