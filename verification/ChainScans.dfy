/** eth_rpc.py and sol_rpc.py: from raw blocks to matching transfers, each with a key of its own. */
module ChainScans {
  import opened Tables
  import opened Custody
  import opened Watchers
  import opened WatcherRuns
  import opened DepositKeys

  /** The watched addresses; user id 0 counts as unknown. */
  predicate Watched(users: map<string, int>, address: string) {
    address in users && users[address] != 0
  }

  // ----- Ethereum

  datatype EthTx = EthTx(hash: string, recipient: string, wei: nat)

  datatype EthLog = EthLog(hash: string, index: nat, recipient: string, units: nat)

  function NativeFound(network: string, users: map<string, int>, tx: EthTx): seq<Found> {
    if Watched(users, tx.recipient) && tx.hash != "" && tx.wei > 0
    then [Found(users[tx.recipient], ETH, tx.wei as real / 1000000000000000000.0,
                EthKey(network, tx.hash, "ETH", 0, tx.recipient), tx.recipient)]
    else []
  }

  function TokenFound(network: string, users: map<string, int>, log: EthLog): seq<Found> {
    if Watched(users, log.recipient) && log.hash != "" && log.units > 0
    then [Found(users[log.recipient], USDT, log.units as real / 1000000.0,
                EthKey(network, log.hash, "USDT", log.index, log.recipient), log.recipient)]
    else []
  }

  // ----- Solana

  datatype SolInstruction = SolInstruction(program: string, kind: string, destination: string, lamports: int)

  datatype SolTx = SolTx(failed: bool, txid: string, body: Tx<SolInstruction>)

  datatype SolTransfer = SolTransfer(txid: string, slot: Slot, instruction: SolInstruction)

  /** The instructions of a transaction that went through and has a signature. */
  function TransfersOf(tx: SolTx): seq<SolTransfer> {
    if tx.failed || tx.txid == "" then []
    else
      var all := Instructions(tx.body);
      seq(|all|, i requires 0 <= i < |all| => SolTransfer(tx.txid, all[i].0, all[i].1))
  }

  function SolFound(network: string, users: map<string, int>, t: SolTransfer): seq<Found> {
    var inst := t.instruction;
    if inst.program == "system" && inst.kind == "transfer" && Watched(users, inst.destination) && inst.lamports > 0
    then [Found(users[inst.destination], SOL, inst.lamports as real / 1000000000.0,
                SolKey(network, t.txid, t.slot, inst.destination), inst.destination)]
    else []
  }

  // ----- collecting

  function NativeIn(network: string, users: map<string, int>): EthTx -> seq<Found> {
    tx => NativeFound(network, users, tx)
  }

  function TokensIn(network: string, users: map<string, int>): EthLog -> seq<Found> {
    log => TokenFound(network, users, log)
  }

  function SolIn(network: string, users: map<string, int>): SolTransfer -> seq<Found> {
    t => SolFound(network, users, t)
  }

  function PerBlock<T>(find: T -> seq<Found>, blocks: int -> seq<T>): int -> seq<Found> {
    block => Collect(find, blocks(block))
  }

  function Collect<T>(find: T -> seq<Found>, items: seq<T>): seq<Found> {
    if items == [] then [] else Collect(find, items[..|items| - 1]) + find(items[|items| - 1])
  }

  function Gather<T>(blocks: int -> seq<T>, from: int, last: int): seq<T>
    decreases last - from
  {
    if last <= from then [] else Gather(blocks, from, last - 1) + blocks(last)
  }

  lemma {:induction false} CollectConcat<T>(find: T -> seq<Found>, a: seq<T>, b: seq<T>)
    ensures Collect(find, a + b) == Collect(find, a) + Collect(find, b)
  {
    if b == [] {
      assert a + b == a;
    } else {
      var n := |b| - 1;
      assert (a + b)[..|a| + n] == a + b[..n];
      CollectConcat(find, a, b[..n]);
    }
  }

  /** Scanning block by block finds what collecting from all blocks at once finds. */
  lemma {:induction false} ScanCollects<T>(find: T -> seq<Found>, blocks: int -> seq<T>, from: int, last: int)
    ensures Scan(PerBlock(find, blocks), from, last) == Collect(find, Gather(blocks, from, last))
    decreases last - from
  {
    if last > from {
      ScanCollects(find, blocks, from, last - 1);
      CollectConcat(find, Gather(blocks, from, last - 1), blocks(last));
    }
  }

  /** At most one match per item, and different items give different keys. */
  ghost predicate Separates<T(!new)>(find: T -> seq<Found>, items: seq<T>) {
    && (forall i :: 0 <= i < |items| ==> |find(items[i])| <= 1)
    && (forall i, j :: 0 <= i < j < |items| && find(items[i]) != [] && find(items[j]) != [] ==>
          find(items[i])[0].key != find(items[j])[0].key)
  }

  lemma {:induction false} CollectedFrom<T(!new)>(find: T -> seq<Found>, items: seq<T>, f: Found)
    requires f in Collect(find, items)
    ensures exists i :: 0 <= i < |items| && f in find(items[i])
  {
    var n := |items| - 1;
    if f !in find(items[n]) {
      CollectedFrom(find, items[..n], f);
      var i :| 0 <= i < n && f in find(items[..n][i]);
      assert items[i] == items[..n][i];
    }
  }

  lemma {:induction false} SeparatedDistinct<T(!new)>(find: T -> seq<Found>, items: seq<T>)
    requires Separates(find, items)
    ensures DistinctKeys(Collect(find, items))
  {
    if items != [] {
      var n := |items| - 1;
      assert Separates(find, items[..n]) by {
        assert forall i :: 0 <= i < n ==> items[..n][i] == items[i];
      }
      SeparatedDistinct(find, items[..n]);
      var before, last := Collect(find, items[..n]), find(items[n]);
      forall k | 0 <= k < |before| && last != []
        ensures before[k].key != last[0].key
      {
        CollectedFrom(find, items[..n], before[k]);
        var i :| 0 <= i < n && before[k] in find(items[..n][i]);
        assert items[i] == items[..n][i];
      }
    }
  }

  // ----- the two adapters

  function EthNode(network: string, users: map<string, int>, txs: int -> seq<EthTx>, logs: int -> seq<EthLog>): Node {
    Node(PerBlock(NativeIn(network, users), txs), PerBlock(TokensIn(network, users), logs))
  }

  ghost predicate EthIdsDistinct(txs: seq<EthTx>, logs: seq<EthLog>) {
    && (forall i :: 0 <= i < |txs| ==> NoColon(txs[i].hash))
    && (forall i :: 0 <= i < |logs| ==> NoColon(logs[i].hash))
    && (forall i, j :: 0 <= i < j < |txs| ==> txs[i].hash != txs[j].hash)
    && (forall i, j :: 0 <= i < j < |logs| ==> logs[i].hash != logs[j].hash || logs[i].index != logs[j].index)
  }

  lemma NativeSeparates(network: string, users: map<string, int>, txs: seq<EthTx>)
    requires forall i :: 0 <= i < |txs| ==> NoColon(txs[i].hash)
    requires forall i, j :: 0 <= i < j < |txs| ==> txs[i].hash != txs[j].hash
    ensures Separates(NativeIn(network, users), txs)
  {
    hide EthKey;
    forall i, j | 0 <= i < j < |txs|
      ensures EthKey(network, txs[i].hash, "ETH", 0, txs[i].recipient) !=
              EthKey(network, txs[j].hash, "ETH", 0, txs[j].recipient)
    {
      if EthKey(network, txs[i].hash, "ETH", 0, txs[i].recipient) ==
        EthKey(network, txs[j].hash, "ETH", 0, txs[j].recipient) {
        EthKeyNames(network, txs[i].hash, "ETH", 0, txs[i].recipient, txs[j].hash, "ETH", 0, txs[j].recipient);
      }
    }
  }

  lemma TokensSeparate(network: string, users: map<string, int>, logs: seq<EthLog>)
    requires forall i :: 0 <= i < |logs| ==> NoColon(logs[i].hash)
    requires forall i, j :: 0 <= i < j < |logs| ==> logs[i].hash != logs[j].hash || logs[i].index != logs[j].index
    ensures Separates(TokensIn(network, users), logs)
  {
    hide EthKey;
    forall i, j | 0 <= i < j < |logs|
      ensures EthKey(network, logs[i].hash, "USDT", logs[i].index, logs[i].recipient) !=
              EthKey(network, logs[j].hash, "USDT", logs[j].index, logs[j].recipient)
    {
      if EthKey(network, logs[i].hash, "USDT", logs[i].index, logs[i].recipient) ==
         EthKey(network, logs[j].hash, "USDT", logs[j].index, logs[j].recipient) {
        EthKeyNames(network, logs[i].hash, "USDT", logs[i].index, logs[i].recipient, logs[j].hash, "USDT",
                    logs[j].index, logs[j].recipient);
      }
    }
  }

  lemma NativeIsNotToken(network: string, users: map<string, int>, txs: seq<EthTx>, logs: seq<EthLog>, f: Found,
                         g: Found)
    requires forall i :: 0 <= i < |txs| ==> NoColon(txs[i].hash)
    requires forall i :: 0 <= i < |logs| ==> NoColon(logs[i].hash)
    requires f in Collect(NativeIn(network, users), txs) && g in Collect(TokensIn(network, users), logs)
    ensures f.key != g.key
  {
    hide EthKey;
    var native, token := NativeIn(network, users), TokensIn(network, users);
    CollectedFrom(native, txs, f);
    CollectedFrom(token, logs, g);
    var x :| 0 <= x < |txs| && f in native(txs[x]);
    var y :| 0 <= y < |logs| && g in token(logs[y]);
    if f.key == g.key {
      EthKeyNames(network, txs[x].hash, "ETH", 0, txs[x].recipient, logs[y].hash, "USDT", logs[y].index,
                  logs[y].recipient);
    }
  }

  lemma DistinctConcat(a: seq<Found>, b: seq<Found>)
    requires DistinctKeys(a) && DistinctKeys(b) && forall f, g :: f in a && g in b ==> f.key != g.key
    ensures DistinctKeys(a + b)
  {
  }

  /** Transfers with different hashes, and logs with different positions, never share a key. */
  lemma EthKeysDistinct(network: string, users: map<string, int>, txs: int -> seq<EthTx>, logs: int -> seq<EthLog>,
                                           from: int, last: int)
    requires EthIdsDistinct(Gather(txs, from, last), Gather(logs, from, last))
    ensures DistinctKeys(Events(EthNode(network, users, txs, logs), from, last))
  {
    hide EthKey, NativeFound, TokenFound, Collect, Separates, DistinctKeys, Gather;
    var native, token := NativeIn(network, users), TokensIn(network, users);
    var ts, ls := Gather(txs, from, last), Gather(logs, from, last);
    NativeSeparates(network, users, ts);
    TokensSeparate(network, users, ls);
    SeparatedDistinct(native, ts);
    SeparatedDistinct(token, ls);
    forall f, g | f in Collect(native, ts) && g in Collect(token, ls) ensures f.key != g.key {
      NativeIsNotToken(network, users, ts, ls, f, g);
    }
    DistinctConcat(Collect(native, ts), Collect(token, ls));
    ScanCollects(native, txs, from, last);
    ScanCollects(token, logs, from, last);
  }

  function Transfers(txs: seq<SolTx>): seq<SolTransfer> {
    if txs == [] then [] else Transfers(txs[..|txs| - 1]) + TransfersOf(txs[|txs| - 1])
  }

  function TransfersPerSlot(slots: int -> seq<SolTx>): int -> seq<SolTransfer> {
    slot => Transfers(slots(slot))
  }

  function NoTokens(): int -> seq<Found> {
    slot => []
  }

  function SolNode(network: string, users: map<string, int>, slots: int -> seq<SolTx>): Node {
    Node(PerBlock(SolIn(network, users), TransfersPerSlot(slots)), NoTokens())
  }

  /** Signatures are unique, and in each transaction no two non-empty groups share an outer index. */
  ghost predicate SolIdsDistinct(txs: seq<SolTx>) {
    && (forall i :: 0 <= i < |txs| ==> NoColon(txs[i].txid) && GroupsApart(txs[i].body.inner))
    && (forall i, j :: 0 <= i < j < |txs| ==> txs[i].txid != txs[j].txid)
  }

  ghost predicate TransferIdsDistinct(ts: seq<SolTransfer>) {
    && (forall i :: 0 <= i < |ts| ==> NoColon(ts[i].txid))
    && (forall i, j :: 0 <= i < j < |ts| ==> ts[i].txid != ts[j].txid || ts[i].slot != ts[j].slot)
  }

  lemma {:induction false} TransfersFrom(txs: seq<SolTx>, t: SolTransfer)
    requires t in Transfers(txs)
    ensures exists i :: 0 <= i < |txs| && txs[i].txid == t.txid
  {
    var n := |txs| - 1;
    if t !in TransfersOf(txs[n]) {
      TransfersFrom(txs[..n], t);
      var i :| 0 <= i < n && txs[..n][i].txid == t.txid;
      assert txs[i] == txs[..n][i];
    }
  }

  lemma {:induction false} TransfersDistinct(txs: seq<SolTx>)
    requires SolIdsDistinct(txs)
    ensures TransferIdsDistinct(Transfers(txs))
  {
    if txs != [] {
      var n := |txs| - 1;
      assert forall i :: 0 <= i < n ==> txs[..n][i] == txs[i];
      TransfersDistinct(txs[..n]);
      SlotsDistinctIff(txs[n].body);
      var before, added := Transfers(txs[..n]), TransfersOf(txs[n]);
      forall k | 0 <= k < |before| ensures before[k].txid != txs[n].txid {
        TransfersFrom(txs[..n], before[k]);
      }
    }
  }

  lemma SolSeparates(network: string, users: map<string, int>, ts: seq<SolTransfer>)
    requires TransferIdsDistinct(ts)
    ensures Separates(SolIn(network, users), ts)
  {
    hide SolKey;
    forall i, j | 0 <= i < j < |ts|
      ensures SolKey(network, ts[i].txid, ts[i].slot, ts[i].instruction.destination) !=
              SolKey(network, ts[j].txid, ts[j].slot, ts[j].instruction.destination)
    {
      if SolKey(network, ts[i].txid, ts[i].slot, ts[i].instruction.destination) ==
         SolKey(network, ts[j].txid, ts[j].slot, ts[j].instruction.destination) {
        SolKeyNames(network, ts[i].txid, ts[i].slot, ts[i].instruction.destination,
                    ts[j].txid, ts[j].slot, ts[j].instruction.destination);
      }
    }
  }

  lemma {:induction false} TransfersConcat(a: seq<SolTx>, b: seq<SolTx>)
    ensures Transfers(a + b) == Transfers(a) + Transfers(b)
  {
    hide TransfersOf;
    if b == [] {
      assert a + b == a;
    } else {
      var n := |b| - 1;
      assert (a + b)[..|a| + n] == a + b[..n];
      assert (a + b)[|a| + n] == b[n];
      TransfersConcat(a, b[..n]);
    }
  }

  lemma {:induction false} GatherTransfers(slots: int -> seq<SolTx>, from: int, last: int)
    ensures Gather(TransfersPerSlot(slots), from, last) == Transfers(Gather(slots, from, last))
    decreases last - from
  {
    if last > from {
      GatherTransfers(slots, from, last - 1);
      TransfersConcat(Gather(slots, from, last - 1), slots(last));
    }
  }

  lemma {:induction false} NoTokensFound(from: int, last: int)
    ensures Scan(NoTokens(), from, last) == []
    decreases last - from
  {
    if last > from {
      NoTokensFound(from, last - 1);
    }
  }

  /** With unique signatures and untangled inner groups, no two Solana transfers share a key. */
  lemma SolKeysDistinct(network: string, users: map<string, int>, slots: int -> seq<SolTx>, from: int, last: int)
    requires SolIdsDistinct(Gather(slots, from, last))
    ensures DistinctKeys(Events(SolNode(network, users, slots), from, last))
  {
    hide SolKey, SolFound, Collect, Separates, DistinctKeys, Gather, TransferIdsDistinct, SolIdsDistinct;
    var find, transfers := SolIn(network, users), TransfersPerSlot(slots);
    TransfersDistinct(Gather(slots, from, last));
    GatherTransfers(slots, from, last);
    SolSeparates(network, users, Gather(transfers, from, last));
    SeparatedDistinct(find, Gather(transfers, from, last));
    ScanCollects(find, transfers, from, last);
    NoTokensFound(from, last);
    assert Events(SolNode(network, users, slots), from, last) == Collect(find, Gather(transfers, from, last));
  }

  // ----- the theorems for the two adapters

  /** f is found somewhere on the chain. */
  ghost predicate OnNode(node: Node, f: Found) {
    exists block: int :: InBlock(node, block, f)
  }

  /** What the chain says about the keys of a node, and some other source about all other keys. */
  ghost function ChainOf(node: Node, others: string -> Sighting): string -> Sighting {
    (key: string) =>
      if exists f: Found :: OnNode(node, f) && f.key == key
      then var f: Found :| OnNode(node, f) && f.key == key; Sighting(f.user, f.asset, f.amount)
      else others(key)
  }

  /** Over no block range do two transfers share a key. */
  ghost predicate KeysApart(node: Node) {
    forall from: int, last: int :: DistinctKeys(Events(node, from, last))
  }

  lemma OnePerKey(node: Node, f: Found, g: Found)
    requires KeysApart(node) && OnNode(node, f) && OnNode(node, g) && f.key == g.key
    ensures f == g
  {
    hide InBlock, Events;
    var b: int :| InBlock(node, b, f);
    var c: int :| InBlock(node, c, g);
    var from, last := Min(b, c) - 1, Max(b, c);
    EventsHold(node, from, last, b, f);
    EventsHold(node, from, last, c, g);
    var found := Events(node, from, last);
    assert DistinctKeys(found);
    var i :| 0 <= i < |found| && found[i] == f;
    var j :| 0 <= j < |found| && found[j] == g;
  }

  /** A chain whose transfers have keys of their own can be told truthfully. */
  lemma ChainTells(setup: Setup, node: Node, others: string -> Sighting)
    requires KeysApart(node) && forall f: Found :: OnNode(node, f) ==> f.asset in setup.assets
    ensures Truthful(setup, ChainOf(node, others), node)
  {
    hide KeysApart, ChainOf;
    forall block: int, i | 0 <= i < |node.native(block)|
      ensures Tells(setup, ChainOf(node, others), node.native(block)[i]) {
      assert InBlock(node, block, node.native(block)[i]);
      FoundTold(setup, node, others, node.native(block)[i]);
    }
    forall block: int, i | 0 <= i < |node.tokens(block)|
      ensures Tells(setup, ChainOf(node, others), node.tokens(block)[i]) {
      assert InBlock(node, block, node.tokens(block)[i]);
      FoundTold(setup, node, others, node.tokens(block)[i]);
    }
  }

  lemma FoundTold(setup: Setup, node: Node, others: string -> Sighting, f: Found)
    requires KeysApart(node) && OnNode(node, f) && f.asset in setup.assets
    ensures Tells(setup, ChainOf(node, others), f)
  {
    hide KeysApart, OnNode;
    forall g: Found | OnNode(node, g) && g.key == f.key ensures g == f {
      OnePerKey(node, f, g);
    }
  }

  lemma CollectedAssets<T(!new)>(find: T -> seq<Found>, items: seq<T>, assets: set<Asset>, f: Found)
    requires f in Collect(find, items) && forall t: T, g: Found :: g in find(t) ==> g.asset in assets
    ensures f.asset in assets
  {
    CollectedFrom(find, items, f);
  }

  /**
   The ETH watcher end to end: with unique transaction hashes and log positions, and nothing else assumed about
   keys, the ledger holds what the scanned blocks' ETH and USDT transfers are worth, each counted once.
   */
  lemma EthLedgerIsBlocks(cfg: Settings, others: string -> Sighting, setup: Setup, network: string,
                          users: map<string, int>, txs: int -> seq<EthTx>, logs: int -> seq<EthLog>,
                          events: seq<Event>, payee: Payee, asset: Asset)
    requires GoodSettings(cfg) && setup.maxPerRun >= 1 && setup.assets == {ETH, USDT} && asset in setup.assets
    requires forall from: int, last: int :: EthIdsDistinct(Gather(txs, from, last), Gather(logs, from, last))
    requires GoodEvents(setup, ChainOf(EthNode(network, users, txs, logs), others), events)
    ensures LedgerMatches(cfg, setup, EthNode(network, users, txs, logs), events, payee, asset)
  {
    hide EthIdsDistinct, GoodEvents, LedgerMatches, ChainOf, Collect, DistinctKeys, Events;
    var node := EthNode(network, users, txs, logs);
    forall from: int, last: int ensures DistinctKeys(Events(node, from, last)) {
      EthKeysDistinct(network, users, txs, logs, from, last);
    }
    forall f: Found | OnNode(node, f) ensures f.asset in setup.assets {
      var block: int :| InBlock(node, block, f);
      if f in node.native(block) {
        CollectedAssets(NativeIn(network, users), txs(block), setup.assets, f);
      } else {
        CollectedAssets(TokensIn(network, users), logs(block), setup.assets, f);
      }
    }
    ChainTells(setup, node, others);
    assert DistinctKeys(Events(node, setup.floor, Top(setup, node, events)));
    LedgerIsBlocks(cfg, ChainOf(node, others), setup, node, events, payee, asset);
  }

  /** The SOL watcher end to end, with unique signatures and untangled inner instruction groups. */
  lemma SolLedgerIsBlocks(cfg: Settings, others: string -> Sighting, setup: Setup, network: string,
                          users: map<string, int>, slots: int -> seq<SolTx>, events: seq<Event>, payee: Payee)
    requires GoodSettings(cfg) && setup.maxPerRun >= 1 && setup.assets == {SOL}
    requires forall from: int, last: int :: SolIdsDistinct(Gather(slots, from, last))
    requires GoodEvents(setup, ChainOf(SolNode(network, users, slots), others), events)
    ensures LedgerMatches(cfg, setup, SolNode(network, users, slots), events, payee, SOL)
  {
    hide SolIdsDistinct, GoodEvents, LedgerMatches, ChainOf, Collect, DistinctKeys, Events, Transfers;
    var node := SolNode(network, users, slots);
    forall from: int, last: int ensures DistinctKeys(Events(node, from, last)) {
      SolKeysDistinct(network, users, slots, from, last);
    }
    forall f: Found | OnNode(node, f) ensures f.asset in setup.assets {
      var block: int :| InBlock(node, block, f);
      CollectedAssets(SolIn(network, users), Transfers(slots(block)), setup.assets, f);
    }
    ChainTells(setup, node, others);
    assert DistinctKeys(Events(node, setup.floor, Top(setup, node, events)));
    LedgerIsBlocks(cfg, ChainOf(node, others), setup, node, events, payee, SOL);
  }

  // ----- the address map is loaded anew for every cycle

  /** The loaded map holds some of the users' addresses, each with its owner. */
  ghost predicate PartOf(now: map<string, int>, users: map<string, int>) {
    forall address :: address in now ==> address in users && now[address] == users[address]
  }

  lemma {:induction false} KeptConcat(a: seq<Found>, b: seq<Found>, watched: set<string>)
    ensures Kept(a + b, watched) == Kept(a, watched) + Kept(b, watched)
  {
    if b == [] {
      assert a + b == a;
    } else {
      var n := |b| - 1;
      assert (a + b)[..|a| + n] == a + b[..n];
      KeptConcat(a, b[..n], watched);
    }
  }

  lemma {:induction false} CollectKept<T(!new)>(part: T -> seq<Found>, find: T -> seq<Found>, items: seq<T>,
                                                watched: set<string>)
    requires forall t: T :: part(t) == Kept(find(t), watched)
    ensures Collect(part, items) == Kept(Collect(find, items), watched)
  {
    if items != [] {
      var n := |items| - 1;
      CollectKept(part, find, items[..n], watched);
      KeptConcat(Collect(find, items[..n]), find(items[n]), watched);
    }
  }

  lemma {:induction false} SameScan(a: int -> seq<Found>, b: int -> seq<Found>, from: int, last: int)
    requires forall block: int :: a(block) == b(block)
    ensures Scan(a, from, last) == Scan(b, from, last)
    decreases last - from
  {
    if last > from {
      SameScan(a, b, from, last - 1);
    }
  }

  lemma KeptOne(f: Found, watched: set<string>)
    ensures Kept([f], watched) == if f.address in watched then [f] else []
  {
    assert [f][..0] == [];
  }

  /** Scanning Ethereum with the loaded map is scanning with all users' addresses and keeping the loaded ones. */
  lemma EthFiltered(network: string, users: map<string, int>, now: map<string, int>, txs: int -> seq<EthTx>,
                    logs: int -> seq<EthLog>, from: int, last: int)
    requires PartOf(now, users)
    ensures Events(EthNode(network, now, txs, logs), from, last) ==
            Events(Filtered(EthNode(network, users, txs, logs), now.Keys), from, last)
  {
    hide EthKey;
    var part, all := EthNode(network, now, txs, logs), Filtered(EthNode(network, users, txs, logs), now.Keys);
    forall tx: EthTx ensures NativeIn(network, now)(tx) == Kept(NativeIn(network, users)(tx), now.Keys) {
      EthOne(network, users, now, tx);
    }
    forall log: EthLog ensures TokensIn(network, now)(log) == Kept(TokensIn(network, users)(log), now.Keys) {
      LogOne(network, users, now, log);
    }
    hide NativeFound, TokenFound, Kept, Collect, Scan, PartOf;
    forall block: int ensures part.native(block) == all.native(block) && part.tokens(block) == all.tokens(block) {
      CollectKept(NativeIn(network, now), NativeIn(network, users), txs(block), now.Keys);
      CollectKept(TokensIn(network, now), TokensIn(network, users), logs(block), now.Keys);
    }
    SameScan(part.native, all.native, from, last);
    SameScan(part.tokens, all.tokens, from, last);
  }

  lemma EthOne(network: string, users: map<string, int>, now: map<string, int>, tx: EthTx)
    requires PartOf(now, users)
    ensures NativeFound(network, now, tx) == Kept(NativeFound(network, users, tx), now.Keys)
  {
    hide EthKey;
    if NativeFound(network, users, tx) != [] {
      KeptOne(NativeFound(network, users, tx)[0], now.Keys);
    }
  }

  lemma LogOne(network: string, users: map<string, int>, now: map<string, int>, log: EthLog)
    requires PartOf(now, users)
    ensures TokenFound(network, now, log) == Kept(TokenFound(network, users, log), now.Keys)
  {
    hide EthKey;
    if TokenFound(network, users, log) != [] {
      KeptOne(TokenFound(network, users, log)[0], now.Keys);
    }
  }

  lemma SolOne(network: string, users: map<string, int>, now: map<string, int>, t: SolTransfer)
    requires PartOf(now, users)
    ensures SolFound(network, now, t) == Kept(SolFound(network, users, t), now.Keys)
  {
    hide SolKey;
    if SolFound(network, users, t) != [] {
      KeptOne(SolFound(network, users, t)[0], now.Keys);
    }
  }

  /** The same on Solana. */
  lemma SolFiltered(network: string, users: map<string, int>, now: map<string, int>, slots: int -> seq<SolTx>,
                    from: int, last: int)
    requires PartOf(now, users)
    ensures Events(SolNode(network, now, slots), from, last) ==
            Events(Filtered(SolNode(network, users, slots), now.Keys), from, last)
  {
    hide SolKey, Transfers;
    var part, all := SolNode(network, now, slots), Filtered(SolNode(network, users, slots), now.Keys);
    forall t: SolTransfer ensures SolIn(network, now)(t) == Kept(SolIn(network, users)(t), now.Keys) {
      SolOne(network, users, now, t);
    }
    hide SolFound, Kept, Collect, Scan, PartOf;
    forall block: int ensures part.native(block) == all.native(block) && part.tokens(block) == all.tokens(block) {
      CollectKept(SolIn(network, now), SolIn(network, users), Transfers(slots(block)), now.Keys);
    }
    SameScan(part.native, all.native, from, last);
    SameScan(part.tokens, all.tokens, from, last);
  }
}
