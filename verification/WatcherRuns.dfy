/** Cursor coverage and exactly-once crediting over any sequence of scans, crashes and heads. */
module WatcherRuns {
  import opened Tables
  import opened Custody
  import opened Watchers
  import opened DepositRuns
  import CustodyRuns
  import LedgerService

  /** One watcher, with the addresses it watches in each cycle, and everything else that happens to the tables. */
  datatype Event =
    | Other(op: Op)
    | Cycle(finalized: int, crashAfter: Option<nat>, raises: nat -> bool, watched: set<string>)

  /** All operations on the tables so far, and the stored cursor. */
  datatype Watch = Watch(ops: seq<Op>, cursor: Option<int>)

  function Position(setup: Setup, watch: Watch): int {
    LoadCursor(setup, watch.cursor)
  }

  function Scanned(setup: Setup, node: Node, watch: Watch, cycle: Event): seq<Found>
    requires cycle.Cycle?
  {
    Events(Filtered(node, cycle.watched), Position(setup, watch), EndOf(setup, Position(setup, watch), cycle.finalized))
  }

  /** The process dies before the cursor is written. */
  predicate Dies(cycle: Event, deposits: seq<Found>)
    requires cycle.Cycle?
  {
    cycle.crashAfter.Some? && cycle.crashAfter.value <= |deposits|
  }

  function Next(setup: Setup, node: Node, watch: Watch, event: Event): Watch {
    match event
    case Other(op) => watch.(ops := watch.ops + [op])
    case Cycle(finalized, crashAfter, raises, _) =>
      var deposits := Scanned(setup, node, watch, event);
      Watch(watch.ops + Credits(setup, Ingested(Reached(deposits, crashAfter), raises)),
            if Dies(event, deposits) then watch.cursor
            else Some(NewCursor(setup, Position(setup, watch), finalized)))
  }

  function Watching(setup: Setup, node: Node, events: seq<Event>): Watch {
    if events == [] then Watch([], None)
    else Next(setup, node, Watching(setup, node, events[..|events| - 1]), events[|events| - 1])
  }

  /** Running a cycle's credits on the tables of a run continues that run. */
  lemma {:induction false} RunContinues(cfg: Settings, ops: seq<Op>, more: seq<Op>)
    ensures RunFrom(cfg, Run(Fixed(cfg), ops), more) == Run(Fixed(cfg), ops + more)
  {
    hide Step;
    if more == [] {
      assert ops + more == ops;
    } else {
      var n := |more| - 1;
      assert (ops + more)[..|ops| + n] == ops + more[..n];
      RunContinues(cfg, ops, more[..n]);
    }
  }

  /** The highest block any cycle of the run has scanned. */
  function Top(setup: Setup, node: Node, events: seq<Event>): int {
    if events == [] then setup.floor
    else
      var n := |events| - 1;
      var before := Top(setup, node, events[..n]);
      match events[n]
      case Other(_) => before
      case Cycle(finalized, _, _, _) =>
        Max(before, EndOf(setup, Position(setup, Watching(setup, node, events[..n])), finalized))
  }

  /** The node tells the truth about the chain, and finds nothing but this watcher's assets. */
  ghost predicate Truthful(setup: Setup, chain: string -> Sighting, node: Node) {
    && (forall block: int, i :: 0 <= i < |node.native(block)| ==> Tells(setup, chain, node.native(block)[i]))
    && (forall block: int, i :: 0 <= i < |node.tokens(block)| ==> Tells(setup, chain, node.tokens(block)[i]))
  }

  predicate Tells(setup: Setup, chain: string -> Sighting, f: Found) {
    chain(f.key) == Sighting(f.user, f.asset, f.amount) && f.asset in setup.assets
  }

  /** Other watchers may credit the same tables, as long as they keep to other assets. */
  ghost predicate GoodEvents(setup: Setup, chain: string -> Sighting, events: seq<Event>) {
    forall i :: 0 <= i < |events| && events[i].Other? ==> GoodOther(setup, chain, events[i].op)
  }

  predicate GoodOther(setup: Setup, chain: string -> Sighting, op: Op) {
    Admissible(chain, op) && (op.Credit? ==> chain(op.key).asset !in setup.assets)
  }

  // ----- credit calls

  /** The deposits for which cycle k makes a credit call before it ends or dies. */
  function CallsOf(setup: Setup, node: Node, events: seq<Event>, k: nat): seq<Found>
    requires k < |events| && events[k].Cycle?
  {
    Reached(Scanned(setup, node, Watching(setup, node, events[..k]), events[k]), events[k].crashAfter)
  }

  /** The i-th credit call of cycle k is for this key. */
  predicate Called(setup: Setup, node: Node, events: seq<Event>, k: nat, i: nat, key: string) {
    && k < |events| && events[k].Cycle?
    && i < |CallsOf(setup, node, events, k)| && CallsOf(setup, node, events, k)[i].key == key
  }

  /** Some credit call for this key did not raise. */
  ghost predicate Succeeded(setup: Setup, node: Node, events: seq<Event>, key: string) {
    exists k: nat, i: nat :: Called(setup, node, events, k, i, key) && !events[k].raises(i)
  }

  /** No credit call for this key raised. */
  ghost predicate NeverRaised(setup: Setup, node: Node, events: seq<Event>, key: string) {
    forall k: nat, i: nat :: Called(setup, node, events, k, i, key) ==> !events[k].raises(i)
  }

  /** Cycle k wrote its cursor after making a credit call for f. */
  predicate HandedOverBy(setup: Setup, node: Node, events: seq<Event>, k: nat, f: Found) {
    && k < |events| && events[k].Cycle?
    && !Dies(events[k], Scanned(setup, node, Watching(setup, node, events[..k]), events[k]))
    && f in CallsOf(setup, node, events, k)
  }

  /** Cycle k scanned the block and wrote its cursor. */
  predicate Passes(setup: Setup, node: Node, events: seq<Event>, k: nat, block: int) {
    && k < |events| && events[k].Cycle?
    && var watch := Watching(setup, node, events[..k]);
       && !Dies(events[k], Scanned(setup, node, watch, events[k]))
       && Position(setup, watch) < block <= EndOf(setup, Position(setup, watch), events[k].finalized)
  }

  /** The address of f was watched whenever its block was passed. */
  ghost predicate InTime(setup: Setup, node: Node, events: seq<Event>, block: int, f: Found) {
    forall k: nat :: Passes(setup, node, events, k, block) ==> f.address in events[k].watched
  }

  // ----- scans

  lemma {:induction false} ScanHolds(blocks: int -> seq<Found>, from: int, last: int, block: int, f: Found)
    requires from < block <= last && f in blocks(block)
    ensures f in Scan(blocks, from, last)
    decreases last - from
  {
    if block < last {
      ScanHolds(blocks, from, last - 1, block, f);
    }
  }

  lemma {:induction false} ScanOnly(blocks: int -> seq<Found>, from: int, last: int, f: Found)
    requires f in Scan(blocks, from, last)
    ensures (exists block :: from < block <= last && f in blocks(block))
    decreases last - from
  {
    if last > from && f !in blocks(last) {
      ScanOnly(blocks, from, last - 1, f);
    }
  }

  /** f was found in block. */
  predicate InBlock(node: Node, block: int, f: Found) {
    f in node.native(block) || f in node.tokens(block)
  }

  lemma EventsHold(node: Node, from: int, last: int, block: int, f: Found)
    requires from < block <= last && InBlock(node, block, f)
    ensures f in Events(node, from, last)
  {
    if f in node.native(block) {
      ScanHolds(node.native, from, last, block, f);
    } else {
      ScanHolds(node.tokens, from, last, block, f);
    }
  }

  lemma EventsOnly(node: Node, from: int, last: int, f: Found)
    requires f in Events(node, from, last)
    ensures (exists block :: from < block <= last && InBlock(node, block, f))
  {
    if f in Scan(node.native, from, last) {
      ScanOnly(node.native, from, last, f);
      var block :| from < block <= last && f in node.native(block);
      assert InBlock(node, block, f);
    } else {
      ScanOnly(node.tokens, from, last, f);
      var block :| from < block <= last && f in node.tokens(block);
      assert InBlock(node, block, f);
    }
  }

  lemma {:induction false} KeptIff(found: seq<Found>, watched: set<string>, f: Found)
    ensures f in Kept(found, watched) <==> f in found && f.address in watched
  {
    if found != [] {
      KeptIff(found[..|found| - 1], watched, f);
    }
  }

  lemma SeenIff(node: Node, watched: set<string>, block: int, f: Found)
    ensures InBlock(Filtered(node, watched), block, f) <==> InBlock(node, block, f) && f.address in watched
  {
    KeptIff(node.native(block), watched, f);
    KeptIff(node.tokens(block), watched, f);
  }

  lemma SeenOnly(node: Node, watched: set<string>, from: int, last: int, f: Found)
    requires f in Events(Filtered(node, watched), from, last)
    ensures (exists block :: from < block <= last && InBlock(node, block, f)) && f.address in watched
  {
    hide InBlock;
    EventsOnly(Filtered(node, watched), from, last, f);
    var block :| from < block <= last && InBlock(Filtered(node, watched), block, f);
    SeenIff(node, watched, block, f);
  }

  /** Ingested are exactly the deposits whose call does not raise. */
  lemma {:induction false} IngestedIff(deposits: seq<Found>, raises: nat -> bool, key: string)
    ensures (exists f :: f in Ingested(deposits, raises) && f.key == key) <==>
            (exists i: nat :: i < |deposits| && deposits[i].key == key && !raises(i))
  {
    if deposits != [] {
      var n := |deposits| - 1;
      IngestedIff(deposits[..n], raises, key);
      var before := Ingested(deposits[..n], raises);
      assert forall f :: f in before ==> f in Ingested(deposits, raises);
      if i: nat :| i < |deposits| && deposits[i].key == key && !raises(i) {
        if i < n {
          assert deposits[..n][i] == deposits[i];
        } else {
          assert deposits[n] in Ingested(deposits, raises);
        }
      }
      if i: nat :| i < n && deposits[..n][i].key == key && !raises(i) {
        assert deposits[i].key == key;
      }
    }
  }

  lemma {:induction false} NothingAdded(deposits: seq<Found>, raises: nat -> bool)
    ensures forall f :: f in Ingested(deposits, raises) ==> f in deposits
  {
    if deposits != [] {
      NothingAdded(deposits[..|deposits| - 1], raises);
    }
  }

  // ----- coverage

  ghost predicate Credited(ops: seq<Op>, key: string) {
    FinalizedBefore(ops, key, |ops|)
  }

  lemma CreditedMore(ops: seq<Op>, more: seq<Op>, key: string)
    ensures Credited(ops + more, key) <==> Credited(ops, key) || Credited(more, key)
  {
    if Credited(ops, key) {
      var i :| 0 <= i < |ops| && ops[i].Credit? && ops[i].key == key && ops[i].finalized;
      assert (ops + more)[i] == ops[i];
    }
    if Credited(more, key) {
      var i :| 0 <= i < |more| && more[i].Credit? && more[i].key == key && more[i].finalized;
      assert (ops + more)[|ops| + i] == more[i];
    }
  }

  lemma CreditsCredit(setup: Setup, deposits: seq<Found>, key: string)
    ensures Credited(Credits(setup, deposits), key) <==> exists f :: f in deposits && f.key == key
  {
    if f: Found :| f in deposits && f.key == key {
      var i :| 0 <= i < |deposits| && deposits[i] == f;
      assert Credits(setup, deposits)[i] == CreditOf(setup, f);
    }
    if Credited(Credits(setup, deposits), key) {
      var i :| 0 <= i < |deposits| && Credits(setup, deposits)[i].key == key;
      assert deposits[i] in deposits;
    }
  }

  /** Some other operation of the run credited the key. */
  ghost predicate CreditedElsewhere(events: seq<Event>, key: string) {
    exists k :: 0 <= k < |events| && events[k].Other? && Credited([events[k].op], key)
  }

  lemma SucceededStep(setup: Setup, node: Node, events: seq<Event>, key: string)
    requires events != []
    ensures var n := |events| - 1;
            Succeeded(setup, node, events, key) <==>
            || Succeeded(setup, node, events[..n], key)
            || exists i: nat :: Called(setup, node, events, n, i, key) && !events[n].raises(i)
  {
    hide Watching, Scanned, Reached;
    var n := |events| - 1;
    forall k: nat, i: nat | k < n
      ensures Called(setup, node, events, k, i, key) <==> Called(setup, node, events[..n], k, i, key)
    {
      assert events[..n][..k] == events[..k] && events[..n][k] == events[k];
    }
    if k: nat, i: nat :| Called(setup, node, events, k, i, key) && !events[k].raises(i) {
      assert k < n ==> Called(setup, node, events[..n], k, i, key) && events[..n][k] == events[k];
    }
    if k: nat, i: nat :| Called(setup, node, events[..n], k, i, key) && !events[..n][k].raises(i) {
      assert Called(setup, node, events, k, i, key) && events[..n][k] == events[k];
    }
  }

  lemma CycleCredits(setup: Setup, node: Node, events: seq<Event>, key: string)
    requires events != [] && events[|events| - 1].Cycle?
    ensures var n := |events| - 1;
            Credited(Watching(setup, node, events).ops, key) <==>
            || Credited(Watching(setup, node, events[..n]).ops, key)
            || exists i: nat :: Called(setup, node, events, n, i, key) && !events[n].raises(i)
  {
    hide Credited, Credits, Ingested, Scanned, Reached;
    var n := |events| - 1;
    var calls := CallsOf(setup, node, events, n);
    var watch, done := Watching(setup, node, events[..n]), Ingested(calls, events[n].raises);
    assert Watching(setup, node, events).ops == watch.ops + Credits(setup, done);
    CreditedMore(watch.ops, Credits(setup, done), key);
    CreditsCredit(setup, done, key);
    IngestedIff(calls, events[n].raises, key);
    if i: nat :| i < |calls| && calls[i].key == key && !events[n].raises(i) {
      assert Called(setup, node, events, n, i, key);
    }
  }

  lemma OtherCredits(setup: Setup, node: Node, events: seq<Event>, key: string)
    requires events != [] && events[|events| - 1].Other?
    ensures var n := |events| - 1;
            && (Credited(Watching(setup, node, events).ops, key) <==>
                Credited(Watching(setup, node, events[..n]).ops, key) || Credited([events[n].op], key))
            && (CreditedElsewhere(events, key) <==>
                CreditedElsewhere(events[..n], key) || Credited([events[n].op], key))
  {
    hide Credited;
    var n := |events| - 1;
    CreditedMore(Watching(setup, node, events[..n]).ops, [events[n].op], key);
    ElsewhereStep(events, key);
  }

  lemma ElsewhereStep(events: seq<Event>, key: string)
    requires events != []
    ensures var n := |events| - 1;
            CreditedElsewhere(events, key) <==>
            CreditedElsewhere(events[..n], key) || (events[n].Other? && Credited([events[n].op], key))
  {
    hide Credited;
    var n := |events| - 1;
    if k :| 0 <= k < |events| && events[k].Other? && Credited([events[k].op], key) {
      assert k < n ==> events[..n][k] == events[k];
    }
    if k :| 0 <= k < n && events[..n][k].Other? && Credited([events[..n][k].op], key) {
      assert events[k] == events[..n][k];
    }
  }

  /**
   When a key is credited, over every run: exactly when some credit call of this watcher for the key did not
   raise, or an operation that is not this watcher's credited it.
   */
  lemma {:induction false} CreditedIffSucceeded(setup: Setup, node: Node, events: seq<Event>, key: string)
    ensures Credited(Watching(setup, node, events).ops, key) <==>
            Succeeded(setup, node, events, key) || CreditedElsewhere(events, key)
  {
    hide Credited, Called, CallsOf, Succeeded, CreditedElsewhere, Next;
    if events == [] {
      NothingSucceeded(setup, node, key);
    } else {
      var n := |events| - 1;
      CreditedIffSucceeded(setup, node, events[..n], key);
      SucceededStep(setup, node, events, key);
      ElsewhereStep(events, key);
      if events[n].Cycle? {
        CycleCredits(setup, node, events, key);
      } else {
        OtherCredits(setup, node, events, key);
        NotCalled(setup, node, events, n, key);
      }
    }
  }

  lemma NotCalled(setup: Setup, node: Node, events: seq<Event>, n: nat, key: string)
    requires n < |events| && events[n].Other?
    ensures forall i: nat :: !Called(setup, node, events, n, i, key)
  {
  }

  lemma NothingSucceeded(setup: Setup, node: Node, key: string)
    ensures !Succeeded(setup, node, [], key) && !CreditedElsewhere([], key) && !Credited([], key)
  {
  }

  /** Other watchers never credit a key that belongs to this one. */
  lemma NotElsewhere(setup: Setup, chain: string -> Sighting, events: seq<Event>, key: string)
    requires GoodEvents(setup, chain, events) && chain(key).asset in setup.assets
    ensures !CreditedElsewhere(events, key)
  {
    forall k | 0 <= k < |events| && events[k].Other?
      ensures !Credited([events[k].op], key)
    {
      OneOpCredits(events[k].op, key);
      assert GoodOther(setup, chain, events[k].op);
    }
  }

  lemma PassesLater(setup: Setup, node: Node, events: seq<Event>, k: nat, block: int)
    requires events != [] && k < |events| - 1
    ensures Passes(setup, node, events[..|events| - 1], k, block) <==> Passes(setup, node, events, k, block)
  {
    var earlier := events[..|events| - 1];
    assert earlier[..k] == events[..k] && earlier[k] == events[k];
  }

  lemma PassesNow(setup: Setup, node: Node, events: seq<Event>, block: int)
    requires setup.maxPerRun >= 1 && events != []
    requires var before := Watching(setup, node, events[..|events| - 1]);
             Position(setup, before) < block <= Position(setup, Watching(setup, node, events))
    ensures Passes(setup, node, events, |events| - 1, block)
  {
    hide Scanned, Credits, Ingested, Reached;
    assert events[|events| - 1].Cycle?;
  }

  /** No gap: every block above the floor and up to the cursor was passed by some cycle. */
  lemma {:induction false} SomeCyclePasses(setup: Setup, node: Node, events: seq<Event>, block: int)
    requires setup.maxPerRun >= 1 && setup.floor < block <= Position(setup, Watching(setup, node, events))
    ensures exists k: nat :: Passes(setup, node, events, k, block)
  {
    hide Passes, Next;
    var n := |events| - 1;
    if block <= Position(setup, Watching(setup, node, events[..n])) {
      SomeCyclePasses(setup, node, events[..n], block);
      var k: nat :| Passes(setup, node, events[..n], k, block);
      PassesInRange(setup, node, events[..n], k, block);
      PassesLater(setup, node, events, k, block);
    } else {
      PassesNow(setup, node, events, block);
    }
  }

  lemma PassesInRange(setup: Setup, node: Node, events: seq<Event>, k: nat, block: int)
    requires Passes(setup, node, events, k, block)
    ensures k < |events|
  {
  }

  /** A cycle that passes a block hands over every transfer of the block to an address it watches. */
  lemma PassedIsHandedOver(setup: Setup, node: Node, events: seq<Event>, k: nat, block: int, f: Found)
    requires Passes(setup, node, events, k, block) && InBlock(node, block, f) && f.address in events[k].watched
    ensures HandedOverBy(setup, node, events, k, f)
  {
    hide Watching, Events;
    var watch, view := Watching(setup, node, events[..k]), Filtered(node, events[k].watched);
    SeenIff(node, events[k].watched, block, f);
    EventsHold(view, Position(setup, watch), EndOf(setup, Position(setup, watch), events[k].finalized), block, f);
  }

  /**
   Whatever heads the node reports, backwards ones included, wherever the process dies, whichever credit calls raise
   and however the watched addresses change: every block above the floor and up to the cursor was passed by a cycle
   that completed; a transfer in it was handed to a credit call by each such cycle that watched its address, so it is
   handed over if its address was watched in time; and it is credited unless every call ever made for its key raised.
   */
  lemma CursorCovers(setup: Setup, node: Node, events: seq<Event>, block: int, f: Found)
    requires setup.maxPerRun >= 1 && InBlock(node, block, f)
    requires setup.floor < block <= Position(setup, Watching(setup, node, events))
    ensures exists k: nat :: Passes(setup, node, events, k, block)
    ensures forall k: nat :: Passes(setup, node, events, k, block) && f.address in events[k].watched ==>
              HandedOverBy(setup, node, events, k, f)
    ensures InTime(setup, node, events, block, f) ==> exists k: nat :: HandedOverBy(setup, node, events, k, f)
    ensures Credited(Watching(setup, node, events).ops, f.key) ||
            forall k: nat, i: nat :: Called(setup, node, events, k, i, f.key) ==> events[k].raises(i)
  {
    hide HandedOverBy, InBlock, Watching, Called, Credited;
    SomeCyclePasses(setup, node, events, block);
    forall k: nat | Passes(setup, node, events, k, block) && f.address in events[k].watched
      ensures HandedOverBy(setup, node, events, k, f)
    {
      PassedIsHandedOver(setup, node, events, k, block, f);
    }
    CreditedIffSucceeded(setup, node, events, f.key);
  }

  lemma CalledWhenHandedOver(setup: Setup, node: Node, events: seq<Event>, k: nat, f: Found)
    requires HandedOverBy(setup, node, events, k, f) && NeverRaised(setup, node, events, f.key)
    ensures Succeeded(setup, node, events, f.key)
  {
    hide CallsOf;
    var i :| 0 <= i < |CallsOf(setup, node, events, k)| && CallsOf(setup, node, events, k)[i] == f;
    assert Called(setup, node, events, k, i, f.key);
    assert !events[k].raises(i);
  }

  /**
   A deposit is lost, although the cursor has passed its block, exactly when every credit call ever made for
   its key raised; a single later call that does not raise, in a re-scan for instance, brings it back.
   */
  lemma RaisedIsLost(setup: Setup, node: Node, chain: string -> Sighting, events: seq<Event>, block: int, f: Found)
    requires setup.maxPerRun >= 1 && GoodEvents(setup, chain, events) && Tells(setup, chain, f)
    requires InBlock(node, block, f)
    requires setup.floor < block <= Position(setup, Watching(setup, node, events))
    ensures !Credited(Watching(setup, node, events).ops, f.key) <==>
            forall k: nat, i: nat :: Called(setup, node, events, k, i, f.key) ==> events[k].raises(i)
  {
    hide InBlock, Credited, Called, GoodEvents;
    CreditedIffSucceeded(setup, node, events, f.key);
    NotElsewhere(setup, chain, events, f.key);
  }

  /** It does happen: one cycle over one block in which every credit call raises. */
  lemma LostOnce(setup: Setup, node: Node, f: Found, watched: set<string>)
    requires setup.maxPerRun >= 1 && InBlock(node, setup.floor + 1, f)
    ensures var watch := Watching(setup, node, [Cycle(setup.floor + 1, None, i => true, watched)]);
            Position(setup, watch) == setup.floor + 1 && !Credited(watch.ops, f.key)
  {
    hide InBlock, Events, Credited;
    var cycle := Cycle(setup.floor + 1, None, i => true, watched);
    assert [cycle][..0] == [];
    CreditedIffSucceeded(setup, node, [cycle], f.key);
    ElsewhereStep([cycle], f.key);
    NothingSucceeded(setup, node, f.key);
  }

  /** An address that is not watched yet when its block is passed misses its deposit, although no call raises. */
  lemma UnwatchedIsMissed(setup: Setup, node: Node, f: Found, watched: set<string>)
    requires setup.maxPerRun >= 1 && InBlock(node, setup.floor + 1, f) && f.address !in watched
    requires forall g: Found :: InBlock(node, setup.floor + 1, g) && g.key == f.key ==> g.address == f.address
    ensures var watch := Watching(setup, node, [Cycle(setup.floor + 1, None, i => false, watched)]);
            Position(setup, watch) == setup.floor + 1 && !Credited(watch.ops, f.key)
  {
    hide Events, Credited;
    var cycle, floor := Cycle(setup.floor + 1, None, i => false, watched), setup.floor;
    assert [cycle][..0] == [] && Watching(setup, node, []) == Watch([], None);
    CreditedIffSucceeded(setup, node, [cycle], f.key);
    ElsewhereStep([cycle], f.key);
    NothingSucceeded(setup, node, f.key);
    forall k: nat, i: nat ensures !Called(setup, node, [cycle], k, i, f.key) {
      if Called(setup, node, [cycle], k, i, f.key) {
        var g := CallsOf(setup, node, [cycle], 0)[i];
        assert g in Scanned(setup, node, Watch([], None), cycle);
        SeenOnly(node, watched, floor, floor + 1, g);
      }
    }
  }

  // ----- nothing else is credited

  /** Every credited key of this watcher was found in a block above the floor that some cycle scanned. */
  ghost predicate OnlyFound(setup: Setup, chain: string -> Sighting, node: Node, ops: seq<Op>, last: int) {
    forall key: string :: Credited(ops, key) && chain(key).asset in setup.assets ==>
      FoundKey(node, setup.floor, last, key)
  }

  ghost predicate FoundKey(node: Node, from: int, last: int, key: string) {
    exists block: int, f: Found :: from < block <= last && InBlock(node, block, f) && f.key == key
  }

  lemma OnlyFoundStep(setup: Setup, chain: string -> Sighting, node: Node, watch: Watch, event: Event, top: int)
    requires OnlyFound(setup, chain, node, watch.ops, top) && (event.Other? ==> GoodOther(setup, chain, event.op))
    ensures var next := Next(setup, node, watch, event);
            var last := if event.Other? then top else Max(top, EndOf(setup, Position(setup, watch), event.finalized));
            OnlyFound(setup, chain, node, next.ops, last)
  {
    hide Credited, InBlock, Credits, Scan, Events;
    var next := Next(setup, node, watch, event);
    var added := next.ops[|watch.ops|..];
    assert next.ops == watch.ops + added;
    var last := if event.Other? then top else Max(top, EndOf(setup, Position(setup, watch), event.finalized));
    forall key: string | Credited(next.ops, key) && chain(key).asset in setup.assets
      ensures FoundKey(node, setup.floor, last, key)
    {
      CreditedMore(watch.ops, added, key);
      if Credited(watch.ops, key) {
        var block: int, f: Found :| setup.floor < block <= top && InBlock(node, block, f) && f.key == key;
      } else if event.Other? {
        assert added == [event.op];
        OneOpCredits(event.op, key);
      } else {
        var deposits := Reached(Scanned(setup, node, watch, event), event.crashAfter);
        assert added == Credits(setup, Ingested(deposits, event.raises));
        CreditsCredit(setup, Ingested(deposits, event.raises), key);
        var f: Found :| f in Ingested(deposits, event.raises) && f.key == key;
        NothingAdded(deposits, event.raises);
        SeenOnly(node, event.watched, Position(setup, watch), EndOf(setup, Position(setup, watch), event.finalized), f);
      }
    }
  }

  lemma {:induction false} OnlyFoundAlways(setup: Setup, chain: string -> Sighting, node: Node, events: seq<Event>)
    requires GoodEvents(setup, chain, events)
    ensures OnlyFound(setup, chain, node, Watching(setup, node, events).ops, Top(setup, node, events))
  {
    hide OnlyFound, Next, GoodOther;
    if events == [] {
      NothingFound(setup, chain, node);
    } else {
      var n := |events| - 1;
      assert forall i :: 0 <= i < n ==> events[..n][i] == events[i];
      OnlyFoundAlways(setup, chain, node, events[..n]);
      OnlyFoundStep(setup, chain, node, Watching(setup, node, events[..n]), events[n], Top(setup, node, events[..n]));
    }
  }

  lemma NothingFound(setup: Setup, chain: string -> Sighting, node: Node)
    ensures OnlyFound(setup, chain, node, [], setup.floor)
  {
  }

  // ----- the sum over a block range

  ghost predicate DistinctKeys(found: seq<Found>) {
    forall i, j :: 0 <= i < j < |found| ==> found[i].key != found[j].key
  }

  /** What the listed transfers are worth to an account. */
  function Worth(cfg: Settings, found: seq<Found>, payee: Payee, asset: Asset): real {
    if found == [] then 0.0
    else
      var f := found[|found| - 1];
      Worth(cfg, found[..|found| - 1], payee, asset) + Due(cfg, Sighting(f.user, f.asset, f.amount), payee, asset)
  }

  /** The same for those of them that are credited so far. */
  ghost function CreditedWorth(cfg: Settings, ops: seq<Op>, found: seq<Found>, payee: Payee, asset: Asset): real {
    if found == [] then 0.0
    else
      var f := found[|found| - 1];
      CreditedWorth(cfg, ops, found[..|found| - 1], payee, asset) +
      if Credited(ops, f.key) then Due(cfg, Sighting(f.user, f.asset, f.amount), payee, asset) else 0.0
  }

  /** One more finalized sighting adds its worth if its key is listed and new. */
  lemma {:induction false} OneMoreWorth(cfg: Settings, setup: Setup, chain: string -> Sighting, ops: seq<Op>, op: Op,
                                        found: seq<Found>, payee: Payee, asset: Asset)
    requires DistinctKeys(found) && forall i :: 0 <= i < |found| ==> Tells(setup, chain, found[i])
    ensures CreditedWorth(cfg, ops + [op], found, payee, asset) == CreditedWorth(cfg, ops, found, payee, asset) +
            if op.Credit? && op.finalized && !Credited(ops, op.key) &&
              (exists i :: 0 <= i < |found| && found[i].key == op.key)
            then Due(cfg, chain(op.key), payee, asset) else 0.0
  {
    hide Due, Credited;
    if found != [] {
      var n := |found| - 1;
      assert forall i :: 0 <= i < n ==> found[..n][i] == found[i];
      OneMoreWorth(cfg, setup, chain, ops, op, found[..n], payee, asset);
      CreditedMore(ops, [op], found[n].key);
      OneOpCredits(op, found[n].key);
      assert Tells(setup, chain, found[n]);
      if op.Credit? && op.key == found[n].key {
        assert !exists i :: 0 <= i < n && found[..n][i].key == op.key;
      } else if i :| 0 <= i < |found| && op.Credit? && found[i].key == op.key {
        assert found[..n][i].key == op.key;
      }
    }
  }

  lemma OneOpCredits(op: Op, key: string)
    ensures Credited([op], key) <==> op.Credit? && op.key == key && op.finalized
  {
    if op.Credit? && op.key == key && op.finalized {
      assert [op][0] == op;
    }
  }

  /** Another watcher's deposit is worth nothing in this watcher's assets. */
  lemma OtherAssetWorthless(cfg: Settings, c: Sighting, payee: Payee, asset: Asset)
    requires c.asset != asset
    ensures Due(cfg, c, payee, asset) == 0.0
  {
  }

  /** If all credited keys of the asset are listed, the run owes what the credited ones of the list are worth. */
  lemma {:induction false} OwedIsWorth(cfg: Settings, setup: Setup, chain: string -> Sighting, ops: seq<Op>,
                                       found: seq<Found>,
                                       payee: Payee, asset: Asset)
    requires DistinctKeys(found) && forall i :: 0 <= i < |found| ==> Tells(setup, chain, found[i])
    requires forall key: string :: Credited(ops, key) && chain(key).asset == asset ==>
               exists i :: 0 <= i < |found| && found[i].key == key
    ensures DueOf(Fixed(cfg), chain, ops, payee, asset) == CreditedWorth(cfg, ops, found, payee, asset)
  {
    hide Due;
    if ops == [] {
      NoneWorth(cfg, found, payee, asset);
    } else {
      var n := |ops| - 1;
      assert ops == ops[..n] + [ops[n]];
      forall key: string | Credited(ops[..n], key) ensures Credited(ops, key) {
        CreditedMore(ops[..n], [ops[n]], key);
      }
      OwedIsWorth(cfg, setup, chain, ops[..n], found, payee, asset);
      OneMoreWorth(cfg, setup, chain, ops[..n], ops[n], found, payee, asset);
      if ops[n].Credit? && ops[n].finalized {
        OneOpCredits(ops[n], ops[n].key);
        CreditedMore(ops[..n], [ops[n]], ops[n].key);
        SamePrefix(ops, ops[n].key);
        if chain(ops[n].key).asset != asset {
          OtherAssetWorthless(cfg, chain(ops[n].key), payee, asset);
        }
      }
    }
  }

  lemma SamePrefix(ops: seq<Op>, key: string)
    requires ops != []
    ensures FinalizedBefore(ops, key, |ops| - 1) <==> Credited(ops[..|ops| - 1], key)
  {
    assert forall i :: 0 <= i < |ops| - 1 ==> ops[..|ops| - 1][i] == ops[i];
  }

  lemma {:induction false} NoneWorth(cfg: Settings, found: seq<Found>, payee: Payee, asset: Asset)
    ensures CreditedWorth(cfg, [], found, payee, asset) == 0.0
  {
    hide Due;
    if found != [] {
      NoneWorth(cfg, found[..|found| - 1], payee, asset);
    }
  }

  lemma {:induction false} AllWorth(cfg: Settings, ops: seq<Op>, found: seq<Found>, payee: Payee, asset: Asset)
    requires forall i :: 0 <= i < |found| ==> Credited(ops, found[i].key)
    ensures CreditedWorth(cfg, ops, found, payee, asset) == Worth(cfg, found, payee, asset)
  {
    hide Due, Credited;
    if found != [] {
      var n := |found| - 1;
      assert forall i :: 0 <= i < n ==> found[..n][i] == found[i];
      AllWorth(cfg, ops, found[..n], payee, asset);
    }
  }

  // ----- the theorems

  lemma CreditsGood(setup: Setup, chain: string -> Sighting, deposits: seq<Found>)
    requires forall f :: f in deposits ==> Tells(setup, chain, f)
    ensures CustodyRuns.GoodRun(chain, Credits(setup, deposits))
  {
    forall i | 0 <= i < |deposits|
      ensures Admissible(chain, Credits(setup, deposits)[i])
    {
      assert deposits[i] in deposits;
    }
  }

  lemma EventsTell(setup: Setup, chain: string -> Sighting, node: Node, from: int, last: int, f: Found)
    requires Truthful(setup, chain, node) && f in Events(node, from, last)
    ensures Tells(setup, chain, f)
  {
    EventsOnly(node, from, last, f);
  }

  lemma BlocksTell(setup: Setup, chain: string -> Sighting, node: Node, f: Found)
    requires Truthful(setup, chain, node) && exists block: int :: InBlock(node, block, f)
    ensures Tells(setup, chain, f)
  {
  }

  lemma {:induction false} OpsGood(setup: Setup, node: Node, chain: string -> Sighting, events: seq<Event>)
    requires Truthful(setup, chain, node) && GoodEvents(setup, chain, events)
    ensures CustodyRuns.GoodRun(chain, Watching(setup, node, events).ops)
  {
    hide Admissible, Credits, Scan, Events, Truthful;
    if events != [] {
      var n := |events| - 1;
      assert forall i :: 0 <= i < n ==> events[..n][i] == events[i];
      OpsGood(setup, node, chain, events[..n]);
      var watch := Watching(setup, node, events[..n]);
      if events[n].Cycle? {
        var all := Scanned(setup, node, watch, events[n]);
        var deposits := Reached(all, events[n].crashAfter);
        NothingAdded(deposits, events[n].raises);
        forall f | f in Ingested(deposits, events[n].raises) ensures Tells(setup, chain, f) {
          assert f in all;
          SeenOnly(node, events[n].watched, Position(setup, watch),
                   EndOf(setup, Position(setup, watch), events[n].finalized), f);
          BlocksTell(setup, chain, node, f);
        }
        CreditsGood(setup, chain, Ingested(deposits, events[n].raises));
      }
    }
  }

  lemma FoundListed(node: Node, from: int, last: int, key: string)
    requires FoundKey(node, from, last, key)
    ensures exists i :: 0 <= i < |Events(node, from, last)| && Events(node, from, last)[i].key == key
  {
    var block: int, f: Found :| from < block <= last && InBlock(node, block, f) && f.key == key;
    EventsHold(node, from, last, block, f);
  }

  lemma KeysListed(setup: Setup, chain: string -> Sighting, node: Node, events: seq<Event>, key: string)
    requires GoodEvents(setup, chain, events) && Credited(Watching(setup, node, events).ops, key)
    requires chain(key).asset in setup.assets
    ensures var found := Events(node, setup.floor, Top(setup, node, events));
            exists i :: 0 <= i < |found| && found[i].key == key
  {
    hide Credited, GoodEvents, FoundKey;
    OnlyFoundAlways(setup, chain, node, events);
    FoundListed(node, setup.floor, Top(setup, node, events), key);
  }

  ghost predicate AlwaysInTime(setup: Setup, node: Node, events: seq<Event>, f: Found) {
    forall block: int :: InBlock(node, block, f) ==> InTime(setup, node, events, block, f)
  }

  /** What the deposit entries of an account are after a run, in one of this watcher's assets. */
  ghost predicate LedgerMatches(cfg: Settings, setup: Setup, node: Node, events: seq<Event>, payee: Payee,
                                asset: Asset)
  {
    var watch, found := Watching(setup, node, events), Events(node, setup.floor, Top(setup, node, events));
    var sum := LedgerService.Sum(LedgerService.OfDeposits(payee, asset), Run(Fixed(cfg), watch.ops).ledger);
    && sum == CreditedWorth(cfg, watch.ops, found, payee, asset)
    && (forall f :: f in found ==> (Credited(watch.ops, f.key) <==> Succeeded(setup, node, events, f.key)))
    && ((forall f :: f in found ==> Succeeded(setup, node, events, f.key)) ==> sum == Worth(cfg, found, payee, asset))
    && (Position(setup, watch) >= Top(setup, node, events)
        && (forall f :: f in found ==> NeverRaised(setup, node, events, f.key) && AlwaysInTime(setup, node, events, f))
        ==> sum == Worth(cfg, found, payee, asset))
  }

  /**
   After any sequence of scans, crashes, raising credit calls, re-scans and other operations, other watchers'
   credits included, the deposit entries of an account in one of this watcher's assets are what the credited
   transfers of the scanned blocks are worth to it, each counted once. A transfer is credited exactly when a
   credit call for its key did not raise; so the sum is all of these blocks if each transfer had such a call,
   in particular if the cursor is back at the highest block ever scanned, no call for their keys raised and their
   addresses were watched in time.
   */
  lemma LedgerIsBlocks(cfg: Settings, chain: string -> Sighting, setup: Setup, node: Node, events: seq<Event>,
                       payee: Payee, asset: Asset)
    requires GoodSettings(cfg) && setup.maxPerRun >= 1 && asset in setup.assets
    requires Truthful(setup, chain, node) && GoodEvents(setup, chain, events)
    requires DistinctKeys(Events(node, setup.floor, Top(setup, node, events)))
    ensures LedgerMatches(cfg, setup, node, events, payee, asset)
  {
    hide Run, Watching, Top, InBlock, Credited, Truthful, GoodEvents, Worth, CreditedWorth, Events, NeverRaised;
    hide Succeeded, AlwaysInTime;
    var watch, top := Watching(setup, node, events), Top(setup, node, events);
    var found := Events(node, setup.floor, top);
    OpsGood(setup, node, chain, events);
    DepositsExactlyOnce(Fixed(cfg), chain, watch.ops, payee, asset);
    forall key: string | Credited(watch.ops, key) && chain(key).asset == asset
      ensures exists i :: 0 <= i < |found| && found[i].key == key
    {
      KeysListed(setup, chain, node, events, key);
    }
    forall i | 0 <= i < |found| ensures Tells(setup, chain, found[i]) {
      EventsTell(setup, chain, node, setup.floor, top, found[i]);
    }
    OwedIsWorth(cfg, setup, chain, watch.ops, found, payee, asset);
    forall f | f in found
      ensures Credited(watch.ops, f.key) <==> Succeeded(setup, node, events, f.key)
    {
      CreditedIffSucceeded(setup, node, events, f.key);
      NotElsewhere(setup, chain, events, f.key);
    }
    if Position(setup, watch) >= top &&
       (forall f :: f in found ==> NeverRaised(setup, node, events, f.key) && AlwaysInTime(setup, node, events, f)) {
      forall f | f in found ensures Succeeded(setup, node, events, f.key) {
        CoveredSucceeds(setup, node, events, top, f);
      }
    }
    if forall f :: f in found ==> Succeeded(setup, node, events, f.key) {
      AllWorth(cfg, watch.ops, found, payee, asset);
    }
  }

  lemma CoveredSucceeds(setup: Setup, node: Node, events: seq<Event>, last: int, f: Found)
    requires setup.maxPerRun >= 1 && f in Events(node, setup.floor, last) && NeverRaised(setup, node, events, f.key)
    requires last <= Position(setup, Watching(setup, node, events)) && AlwaysInTime(setup, node, events, f)
    ensures Succeeded(setup, node, events, f.key)
  {
    hide Watching, InBlock, Events, HandedOverBy, NeverRaised, Succeeded, Passes;
    EventsOnly(node, setup.floor, last, f);
    var block :| setup.floor < block <= last && InBlock(node, block, f);
    CursorCovers(setup, node, events, block, f);
    var k: nat :| HandedOverBy(setup, node, events, k, f);
    CalledWhenHandedOver(setup, node, events, k, f);
  }

  // ----- progress

  function Repeat(event: Event, n: nat): seq<Event> {
    if n == 0 then [] else Repeat(event, n - 1) + [event]
  }

  /** A cycle moves the position by a batch; a head that went backwards takes it along, down to the floor. */
  lemma CycleMoves(setup: Setup, node: Node, watch: Watch, head: int, raises: nat -> bool, watched: set<string>)
    requires setup.maxPerRun >= 1
    ensures var from := Position(setup, watch);
            Position(setup, Next(setup, node, watch, Cycle(head, None, raises, watched))) ==
            if from <= head then Min(head, from + setup.maxPerRun) else Max(setup.floor, head)
  {
  }

  lemma Steps(distance: nat, step: int, n: nat)
    requires step >= 1
    ensures distance <= n * step <==> n >= (distance + step - 1) / step
  {
    var q := (distance + step - 1) / step;
    assert q * step <= distance + step - 1 < q * step + step;
    if n >= q {
      assert n * step >= q * step;
    } else {
      assert (n + 1) * step <= q * step;
    }
  }

  /**
   While the head stays at H, the cursor advances by the batch size and reaches H in exactly ceil((H - cursor) / max)
   cycles.
   */
  lemma {:induction false} ReachesHead(setup: Setup, node: Node, events: seq<Event>, head: int, raises: nat -> bool,
                                       watched: set<string>, n: nat)
    requires setup.maxPerRun >= 1 && Position(setup, Watching(setup, node, events)) <= head
    ensures var from := Position(setup, Watching(setup, node, events));
            var cycle := Cycle(head, None, raises, watched);
            var now := Position(setup, Watching(setup, node, events + Repeat(cycle, n)));
            && now == Min(head, from + n * setup.maxPerRun)
            && (now == head <==> n >= (head - from + setup.maxPerRun - 1) / setup.maxPerRun)
  {
    hide Next;
    var cycle, from := Cycle(head, None, raises, watched), Position(setup, Watching(setup, node, events));
    if n == 0 {
      assert events + Repeat(cycle, 0) == events;
    } else {
      var before := events + Repeat(cycle, n - 1);
      var all := events + Repeat(cycle, n);
      assert all[..|all| - 1] == before && all[|all| - 1] == cycle;
      ReachesHead(setup, node, events, head, raises, watched, n - 1);
      CycleMoves(setup, node, Watching(setup, node, before), head, raises, watched);
      assert (n - 1) * setup.maxPerRun + setup.maxPerRun == n * setup.maxPerRun;
    }
    Steps(head - from, setup.maxPerRun, n);
  }
}
