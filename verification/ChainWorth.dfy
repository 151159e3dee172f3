/** What a transfer on a chain is worth, read off the raw logs, transactions and instructions. */
module ChainWorth {
  import opened Tables
  import opened Custody
  import opened Watchers
  import opened WatcherRuns
  import opened DepositKeys
  import opened ChainScans
  import opened Rounding
  import opened WalletFees
  import opened DepositRuns
  import EscrowTable
  import LedgerService

  /** A positive transfer to an address that the map gives to a user, in a transaction with an id. */
  predicate Pays(users: map<string, int>, address: string, txid: string, units: int) {
    address in users && users[address] != 0 && txid != "" && units > 0
  }

  /** The platform's part of a deposit: a percentage, rounded half up to the quantum, within 0 and the deposit. */
  function Fee(cfg: Settings, gross: real, quantum: real): real
    requires quantum > 0.0
  {
    var fee := RoundHalfUp(EscrowTable.Percent(gross, cfg.depositPct), quantum);
    if fee < 0.0 then 0.0 else if fee > gross then gross else fee
  }

  /** What a deposit of an owner gives a payee. */
  function Share(cfg: Settings, payee: Payee, owner: int, gross: real, quantum: real): real
    requires quantum > 0.0
  {
    match payee
    case Everyone => gross
    case One(User(id)) => if id == owner then gross - Fee(cfg, gross, quantum) else 0.0
    case One(PlatformRevenue) => Fee(cfg, gross, quantum)
    case One(BotOwnerRevenue(_)) => 0.0
  }

  function Total<T>(value: T -> real, items: seq<T>): real {
    if items == [] then 0.0 else Total(value, items[..|items| - 1]) + value(items[|items| - 1])
  }

  /** A USDT unit is a millionth. */
  function TokenShare(cfg: Settings, users: map<string, int>, payee: Payee, log: EthLog): real {
    if Pays(users, log.recipient, log.hash, log.units)
    then Share(cfg, payee, users[log.recipient], log.units as real / 1000000.0, 0.000001) else 0.0
  }

  /** A wei is 10^-18 ETH; deposits are booked to eight decimals. */
  function NativeShare(cfg: Settings, users: map<string, int>, payee: Payee, tx: EthTx): real {
    if Pays(users, tx.recipient, tx.hash, tx.wei)
    then Share(cfg, payee, users[tx.recipient], RoundHalfUp(tx.wei as real / 1000000000000000000.0, 0.00000001),
               0.00000001)
    else 0.0
  }

  // ----- one transfer

  lemma PercentIs(asset: Asset, amount: real, pct: real)
    ensures PercentOf(asset, amount, pct) == RoundHalfUp(EscrowTable.Percent(amount, pct), Quantum(asset))
  {
    hide RoundHalfUp, Quantum;
  }

  lemma FeeIs(cfg: Settings, asset: Asset, gross: real)
    requires gross >= 0.0 && QuantizeAsset(asset, gross) == gross
    ensures DepositPlatformFee(cfg, asset, gross) == Fee(cfg, gross, Quantum(asset))
  {
    hide RoundHalfUp, PercentOf, EscrowTable.Percent;
    PercentIs(asset, gross, cfg.depositPct);
  }

  lemma DueIsShare(cfg: Settings, f: Found, payee: Payee)
    requires f.amount > 0.0
    ensures Due(cfg, Sighting(f.user, f.asset, f.amount), payee, f.asset) ==
            Share(cfg, payee, f.user, RoundHalfUp(f.amount, Quantum(f.asset)), Quantum(f.asset))
  {
    hide RoundHalfUp, DepositPlatformFee, DepositNetCredit, Fee;
    var gross := QuantizeAsset(f.asset, f.amount);
    DepositSplit(cfg, f.asset, f.amount);
    QuantizeWithin(f.asset, f.amount);
    QuantizeExact(f.asset, gross);
    FeeIs(cfg, f.asset, gross);
  }

  lemma OneCredited(cfg: Settings, ops: seq<Op>, f: Found, payee: Payee, asset: Asset)
    requires f.amount > 0.0
    ensures CreditedWorth(cfg, ops, [f], payee, asset) ==
            if WatcherRuns.Credited(ops, f.key) && f.asset == asset
            then Share(cfg, payee, f.user, RoundHalfUp(f.amount, Quantum(asset)), Quantum(asset)) else 0.0
  {
    hide WatcherRuns.Credited, RoundHalfUp, Share;
    DueIsShare(cfg, f, payee);
    assert [f][..0] == [];
    assert CreditedWorth(cfg, ops, [], payee, asset) == 0.0;
    if f.asset != asset {
      OtherAssetWorthless(cfg, Sighting(f.user, f.asset, f.amount), payee, asset);
    }
    hide Due;
  }

  lemma WholeUnits(units: int, unit: real)
    requires unit > 0.0
    ensures RoundHalfUp(Multiple(units, unit), unit) == Multiple(units, unit)
  {
    RoundOnGrid(Multiple(units, unit), unit);
  }

  lemma TokenOne(cfg: Settings, ops: seq<Op>, network: string, users: map<string, int>, log: EthLog, payee: Payee,
                 asset: Asset)
    ensures CreditedWorth(cfg, ops, TokenFound(network, users, log), payee, asset) ==
            if WatcherRuns.Credited(ops, EthKey(network, log.hash, "USDT", log.index, log.recipient)) && asset == USDT
            then TokenShare(cfg, users, payee, log) else 0.0
  {
    hide WatcherRuns.Credited, RoundHalfUp, Share, EthKey;
    WholeUnits(log.units, 0.000001);
    assert Multiple(log.units, 0.000001) == log.units as real / 1000000.0;
    if TokenFound(network, users, log) != [] {
      OneCredited(cfg, ops, TokenFound(network, users, log)[0], payee, asset);
    }
    hide CreditedWorth;
  }

  lemma NativeOne(cfg: Settings, ops: seq<Op>, network: string, users: map<string, int>, tx: EthTx, payee: Payee,
                  asset: Asset)
    ensures CreditedWorth(cfg, ops, NativeFound(network, users, tx), payee, asset) ==
            if WatcherRuns.Credited(ops, EthKey(network, tx.hash, "ETH", 0, tx.recipient)) && asset == ETH
            then NativeShare(cfg, users, payee, tx) else 0.0
  {
    hide WatcherRuns.Credited, RoundHalfUp, Share, EthKey;
    if NativeFound(network, users, tx) != [] {
      OneCredited(cfg, ops, NativeFound(network, users, tx)[0], payee, asset);
    }
    hide CreditedWorth;
  }

  // ----- all transfers of a list

  lemma {:induction false} CreditedConcat(cfg: Settings, ops: seq<Op>, a: seq<Found>, b: seq<Found>, payee: Payee,
                                          asset: Asset)
    ensures CreditedWorth(cfg, ops, a + b, payee, asset) ==
            CreditedWorth(cfg, ops, a, payee, asset) + CreditedWorth(cfg, ops, b, payee, asset)
  {
    hide WatcherRuns.Credited, Due;
    if b == [] {
      assert a + b == a;
    } else {
      var n := |b| - 1;
      assert (a + b)[..|a| + n] == a + b[..n];
      CreditedConcat(cfg, ops, a, b[..n], payee, asset);
    }
  }

  lemma {:induction false} CollectCredited<T>(cfg: Settings, ops: seq<Op>, find: T -> seq<Found>, items: seq<T>,
                                              payee: Payee, asset: Asset, value: T -> real)
    requires forall t :: t in items ==> CreditedWorth(cfg, ops, find(t), payee, asset) == value(t)
    ensures CreditedWorth(cfg, ops, Collect(find, items), payee, asset) == Total(value, items)
  {
    if items != [] {
      var n := |items| - 1;
      CollectCredited(cfg, ops, find, items[..n], payee, asset, value);
      CreditedConcat(cfg, ops, Collect(find, items[..n]), find(items[n]), payee, asset);
    }
  }

  lemma {:induction false} CollectHolds<T>(find: T -> seq<Found>, items: seq<T>, t: T, f: Found)
    requires t in items && f in find(t)
    ensures f in Collect(find, items)
  {
    var n := |items| - 1;
    if t != items[n] {
      CollectHolds(find, items[..n], t, f);
    }
  }

  lemma {:induction false} TotalZero<T>(value: T -> real, items: seq<T>)
    requires forall t :: t in items ==> value(t) == 0.0
    ensures Total(value, items) == 0.0
  {
    if items != [] {
      TotalZero(value, items[..|items| - 1]);
    }
  }

  // ----- Ethereum

  /** What the logs whose credit call went through give a payee. */
  ghost function TokenShares(cfg: Settings, setup: Setup, network: string, users: map<string, int>, node: Node,
                             events: seq<Event>, payee: Payee): EthLog -> real
  {
    (log: EthLog) =>
      if Succeeded(setup, node, events, EthKey(network, log.hash, "USDT", log.index, log.recipient))
      then TokenShare(cfg, users, payee, log) else 0.0
  }

  ghost function NativeShares(cfg: Settings, setup: Setup, network: string, users: map<string, int>, node: Node,
                              events: seq<Event>, payee: Payee): EthTx -> real
  {
    (tx: EthTx) =>
      if Succeeded(setup, node, events, EthKey(network, tx.hash, "ETH", 0, tx.recipient))
      then NativeShare(cfg, users, payee, tx) else 0.0
  }

  ghost function Booked(cfg: Settings, setup: Setup, node: Node, events: seq<Event>, payee: Payee, asset: Asset): real {
    LedgerService.Sum(LedgerService.OfDeposits(payee, asset), Run(Fixed(cfg), Watching(setup, node, events).ops).ledger)
  }

  lemma EthFound(network: string, users: map<string, int>, txs: int -> seq<EthTx>, logs: int -> seq<EthLog>,
                 from: int, last: int)
    ensures Events(EthNode(network, users, txs, logs), from, last) ==
            Collect(NativeIn(network, users), Gather(txs, from, last)) +
            Collect(TokensIn(network, users), Gather(logs, from, last))
  {
    ScanCollects(NativeIn(network, users), txs, from, last);
    ScanCollects(TokensIn(network, users), logs, from, last);
  }

  lemma TokensCredited(cfg: Settings, setup: Setup, network: string, users: map<string, int>, node: Node,
                       events: seq<Event>, logs: seq<EthLog>, payee: Payee, asset: Asset)
    requires var ops := Watching(setup, node, events).ops;
             forall f :: f in Collect(TokensIn(network, users), logs) ==>
               (WatcherRuns.Credited(ops, f.key) <==> Succeeded(setup, node, events, f.key))
    ensures CreditedWorth(cfg, Watching(setup, node, events).ops, Collect(TokensIn(network, users), logs), payee,
                          asset) ==
            if asset == USDT then Total(TokenShares(cfg, setup, network, users, node, events, payee), logs) else 0.0
  {
    hide WatcherRuns.Credited, CreditedWorth, Watching, Succeeded, EthKey, Collect, Share;
    var ops, find := Watching(setup, node, events).ops, TokensIn(network, users);
    var shares := TokenShares(cfg, setup, network, users, node, events, payee);
    var value := (log: EthLog) => if asset == USDT then shares(log) else 0.0;
    forall log | log in logs ensures CreditedWorth(cfg, ops, find(log), payee, asset) == value(log) {
      TokenOne(cfg, ops, network, users, log, payee, asset);
      if find(log) != [] {
        CollectHolds(find, logs, log, find(log)[0]);
      }
    }
    CollectCredited(cfg, ops, find, logs, payee, asset, value);
    if asset == USDT {
      TotalSame(value, shares, logs);
    } else {
      TotalZero(value, logs);
    }
  }

  lemma {:induction false} TotalSame<T>(a: T -> real, b: T -> real, items: seq<T>)
    requires forall t :: t in items ==> a(t) == b(t)
    ensures Total(a, items) == Total(b, items)
  {
    if items != [] {
      TotalSame(a, b, items[..|items| - 1]);
    }
  }

  lemma NativesCredited(cfg: Settings, setup: Setup, network: string, users: map<string, int>, node: Node,
                        events: seq<Event>, txs: seq<EthTx>, payee: Payee, asset: Asset)
    requires var ops := Watching(setup, node, events).ops;
             forall f :: f in Collect(NativeIn(network, users), txs) ==>
               (WatcherRuns.Credited(ops, f.key) <==> Succeeded(setup, node, events, f.key))
    ensures CreditedWorth(cfg, Watching(setup, node, events).ops, Collect(NativeIn(network, users), txs), payee,
                          asset) ==
            if asset == ETH then Total(NativeShares(cfg, setup, network, users, node, events, payee), txs) else 0.0
  {
    hide WatcherRuns.Credited, CreditedWorth, Watching, Succeeded, EthKey, Collect, Share;
    var ops, find := Watching(setup, node, events).ops, NativeIn(network, users);
    var shares := NativeShares(cfg, setup, network, users, node, events, payee);
    var value := (tx: EthTx) => if asset == ETH then shares(tx) else 0.0;
    forall tx | tx in txs ensures CreditedWorth(cfg, ops, find(tx), payee, asset) == value(tx) {
      NativeOne(cfg, ops, network, users, tx, payee, asset);
      if find(tx) != [] {
        CollectHolds(find, txs, tx, find(tx)[0]);
      }
    }
    CollectCredited(cfg, ops, find, txs, payee, asset, value);
    if asset == ETH {
      TotalSame(value, shares, txs);
    } else {
      TotalZero(value, txs);
    }
  }

  /**
   The ETH watcher from raw blocks to the ledger, for every run and every payee: the deposit entries are the shares
   of exactly those logs and transactions of the scanned blocks that have a credit call that did not raise.
   */
  lemma EthShared(cfg: Settings, others: string -> Sighting, setup: Setup, network: string,
                  users: map<string, int>, txs: int -> seq<EthTx>, logs: int -> seq<EthLog>, events: seq<Event>,
                  payee: Payee)
    requires GoodSettings(cfg) && setup.maxPerRun >= 1 && setup.assets == {ETH, USDT}
    requires forall from: int, last: int :: EthIdsDistinct(Gather(txs, from, last), Gather(logs, from, last))
    requires GoodEvents(setup, ChainOf(EthNode(network, users, txs, logs), others), events)
    ensures var node := EthNode(network, users, txs, logs);
            var top := Top(setup, node, events);
            && Booked(cfg, setup, node, events, payee, USDT) ==
               Total(TokenShares(cfg, setup, network, users, node, events, payee), Gather(logs, setup.floor, top))
            && Booked(cfg, setup, node, events, payee, ETH) ==
               Total(NativeShares(cfg, setup, network, users, node, events, payee), Gather(txs, setup.floor, top))
  {
    hide EthIdsDistinct, GoodEvents, ChainOf, Collect, Events, WatcherRuns.Credited, CreditedWorth, Watching, Succeeded;
    hide NeverRaised, AlwaysInTime, Worth, Top, Gather;
    var node := EthNode(network, users, txs, logs);
    var top := Top(setup, node, events);
    var ts, ls := Gather(txs, setup.floor, top), Gather(logs, setup.floor, top);
    var ops := Watching(setup, node, events).ops;
    EthFound(network, users, txs, logs, setup.floor, top);
    EthLedgerIsBlocks(cfg, others, setup, network, users, txs, logs, events, payee, USDT);
    EthLedgerIsBlocks(cfg, others, setup, network, users, txs, logs, events, payee, ETH);
    TokensCredited(cfg, setup, network, users, node, events, ls, payee, USDT);
    TokensCredited(cfg, setup, network, users, node, events, ls, payee, ETH);
    NativesCredited(cfg, setup, network, users, node, events, ts, payee, USDT);
    NativesCredited(cfg, setup, network, users, node, events, ts, payee, ETH);
    CreditedConcat(cfg, ops, Collect(NativeIn(network, users), ts), Collect(TokensIn(network, users), ls), payee, USDT);
    CreditedConcat(cfg, ops, Collect(NativeIn(network, users), ts), Collect(TokensIn(network, users), ls), payee, ETH);
  }

  // ----- sums in the chains' own units

  function Units(users: map<string, int>): EthLog -> real {
    (log: EthLog) => if Pays(users, log.recipient, log.hash, log.units) then log.units as real else 0.0
  }

  function Wei(users: map<string, int>): EthTx -> real {
    (tx: EthTx) => if Pays(users, tx.recipient, tx.hash, tx.wei) then tx.wei as real else 0.0
  }

  /** How many transactions pay a user. */
  function Paying(users: map<string, int>): EthTx -> real {
    (tx: EthTx) => if Pays(users, tx.recipient, tx.hash, tx.wei) then 1.0 else 0.0
  }

  /** a is b / scale, up to c times the slack. */
  predicate Near(a: real, b: real, c: real, scale: real, slack: real)
    requires scale > 0.0
  {
    -(c * slack) <= a - b / scale <= c * slack
  }

  lemma NearSum(a: real, b: real, c: real, x: real, y: real, z: real, scale: real, slack: real)
    requires scale > 0.0 && Near(a, b, c, scale, slack) && Near(x, y, z, scale, slack)
    ensures Near(a + x, b + y, c + z, scale, slack)
  {
    assert (b + y) / scale == b / scale + y / scale;
    assert (c + z) * slack == c * slack + z * slack;
  }

  lemma {:induction false} TotalNear<T>(a: T -> real, b: T -> real, c: T -> real, scale: real, slack: real,
                                        items: seq<T>)
    requires scale > 0.0 && forall t :: t in items ==> Near(a(t), b(t), c(t), scale, slack)
    ensures Near(Total(a, items), Total(b, items), Total(c, items), scale, slack)
  {
    if items == [] {
      assert Near(0.0, 0.0, 0.0, scale, slack);
    } else {
      hide Near;
      var n, t := |items| - 1, items[|items| - 1];
      TotalNear(a, b, c, scale, slack, items[..n]);
      NearSum(Total(a, items[..n]), Total(b, items[..n]), Total(c, items[..n]), a(t), b(t), c(t), scale, slack);
    }
  }

  /** Every log and transaction that pays a user had a credit call that did not raise. */
  ghost predicate EthAllThrough(setup: Setup, network: string, users: map<string, int>, node: Node, events: seq<Event>,
                                txs: seq<EthTx>, logs: seq<EthLog>)
  {
    && (forall log :: log in logs && Pays(users, log.recipient, log.hash, log.units) ==>
          Succeeded(setup, node, events, EthKey(network, log.hash, "USDT", log.index, log.recipient)))
    && (forall tx :: tx in txs && Pays(users, tx.recipient, tx.hash, tx.wei) ==>
          Succeeded(setup, node, events, EthKey(network, tx.hash, "ETH", 0, tx.recipient)))
  }

  /**
   If no payment was lost, users and platform together were booked every USDT unit that the scanned logs paid, and
   every wei up to half a quantum for each transaction.
   */
  lemma EthTotals(cfg: Settings, others: string -> Sighting, setup: Setup, network: string,
                  users: map<string, int>, txs: int -> seq<EthTx>, logs: int -> seq<EthLog>, events: seq<Event>)
    requires GoodSettings(cfg) && setup.maxPerRun >= 1 && setup.assets == {ETH, USDT}
    requires forall from: int, last: int :: EthIdsDistinct(Gather(txs, from, last), Gather(logs, from, last))
    requires GoodEvents(setup, ChainOf(EthNode(network, users, txs, logs), others), events)
    ensures var node := EthNode(network, users, txs, logs);
            var top := Top(setup, node, events);
            var ts, ls := Gather(txs, setup.floor, top), Gather(logs, setup.floor, top);
            EthAllThrough(setup, network, users, node, events, ts, ls) ==>
              && Booked(cfg, setup, node, events, Everyone, USDT) == Total(Units(users), ls) / 1000000.0
              && var drift := Booked(cfg, setup, node, events, Everyone, ETH) -
                              Total(Wei(users), ts) / 1000000000000000000.0;
                 -(Total(Paying(users), ts) * 0.000000005) <= drift <= Total(Paying(users), ts) * 0.000000005
  {
    hide EthIdsDistinct, GoodEvents, ChainOf, Succeeded, Top, Gather, Booked, EthKey, EthNode, RoundHalfUp, Fee, Total;
    var node := EthNode(network, users, txs, logs);
    var top := Top(setup, node, events);
    var ts, ls := Gather(txs, setup.floor, top), Gather(logs, setup.floor, top);
    EthShared(cfg, others, setup, network, users, txs, logs, events, Everyone);
    if EthAllThrough(setup, network, users, node, events, ts, ls) {
      var tokens := TokenShares(cfg, setup, network, users, node, events, Everyone);
      var natives := NativeShares(cfg, setup, network, users, node, events, Everyone);
      TotalNear(tokens, Units(users), Units(users), 1000000.0, 0.0, ls);
      forall tx | tx in ts
        ensures Near(natives(tx), Wei(users)(tx), Paying(users)(tx), 1000000000000000000.0, 0.000000005)
      {
        RoundWithin(tx.wei as real / 1000000000000000000.0, 0.00000001);
      }
      TotalNear(natives, Wei(users), Paying(users), 1000000000000000000.0, 0.000000005, ts);
    }
  }

  // ----- Solana

  /** A lamport is 10^-9 SOL; only transfers of the system program count. */
  predicate SolPays(users: map<string, int>, t: SolTransfer) {
    && t.instruction.program == "system" && t.instruction.kind == "transfer"
    && Pays(users, t.instruction.destination, t.txid, t.instruction.lamports)
  }

  function SolShare(cfg: Settings, users: map<string, int>, payee: Payee, t: SolTransfer): real {
    if SolPays(users, t)
    then Share(cfg, payee, users[t.instruction.destination], t.instruction.lamports as real / 1000000000.0, 0.000000001)
    else 0.0
  }

  function OuterTotal(value: SolTransfer -> real, txid: string, outer: seq<SolInstruction>): real {
    if outer == [] then 0.0
    else
      var n := |outer| - 1;
      OuterTotal(value, txid, outer[..n]) + value(SolTransfer(txid, Outer(n), outer[n]))
  }

  function InnerTotal(value: SolTransfer -> real, txid: string, outer: nat, inner: seq<SolInstruction>): real {
    if inner == [] then 0.0
    else
      var n := |inner| - 1;
      InnerTotal(value, txid, outer, inner[..n]) + value(SolTransfer(txid, Inner(outer, n), inner[n]))
  }

  function GroupsTotal(value: SolTransfer -> real, txid: string, groups: seq<Group<SolInstruction>>): real {
    if groups == [] then 0.0
    else
      var n := |groups| - 1;
      GroupsTotal(value, txid, groups[..n]) + InnerTotal(value, txid, groups[n].index, groups[n].instructions)
  }

  /** Over all outer and inner instructions of the transactions that went through and have a signature. */
  function TxsTotal(value: SolTransfer -> real, txs: seq<SolTx>): real {
    if txs == [] then 0.0
    else
      var tx := txs[|txs| - 1];
      TxsTotal(value, txs[..|txs| - 1]) +
      if tx.failed || tx.txid == "" then 0.0
      else OuterTotal(value, tx.txid, tx.body.outer) + GroupsTotal(value, tx.txid, tx.body.inner)
  }

  lemma {:induction false} TotalConcat<T>(value: T -> real, a: seq<T>, b: seq<T>)
    ensures Total(value, a + b) == Total(value, a) + Total(value, b)
  {
    if b == [] {
      assert a + b == a;
    } else {
      var n := |b| - 1;
      assert (a + b)[..|a| + n] == a + b[..n];
      TotalConcat(value, a, b[..n]);
    }
  }

  function Named(txid: string, all: seq<(Slot, SolInstruction)>): seq<SolTransfer> {
    seq(|all|, i requires 0 <= i < |all| => SolTransfer(txid, all[i].0, all[i].1))
  }

  lemma NamedConcat(txid: string, a: seq<(Slot, SolInstruction)>, b: seq<(Slot, SolInstruction)>)
    ensures Named(txid, a + b) == Named(txid, a) + Named(txid, b)
  {
  }

  lemma {:induction false} OuterNamed(value: SolTransfer -> real, txid: string, outer: seq<SolInstruction>)
    ensures Total(value, Named(txid, OuterSlots(outer))) == OuterTotal(value, txid, outer)
  {
    if outer != [] {
      var n := |outer| - 1;
      assert Named(txid, OuterSlots(outer))[..n] == Named(txid, OuterSlots(outer[..n]));
      OuterNamed(value, txid, outer[..n]);
    }
  }

  lemma {:induction false} InnerNamed(value: SolTransfer -> real, txid: string, group: Group<SolInstruction>)
    ensures Total(value, Named(txid, GroupSlots(group))) == InnerTotal(value, txid, group.index, group.instructions)
    decreases |group.instructions|
  {
    if group.instructions != [] {
      var n := |group.instructions| - 1;
      var less := Group(group.index, group.instructions[..n]);
      assert Named(txid, GroupSlots(group))[..n] == Named(txid, GroupSlots(less));
      InnerNamed(value, txid, less);
    }
  }

  lemma {:induction false} GroupsNamed(value: SolTransfer -> real, txid: string, groups: seq<Group<SolInstruction>>)
    ensures Total(value, Named(txid, InnerSlots(groups))) == GroupsTotal(value, txid, groups)
  {
    hide GroupSlots;
    if groups == [] {
      assert Named(txid, []) == [];
    } else {
      var n := |groups| - 1;
      GroupsNamed(value, txid, groups[..n]);
      NamedConcat(txid, InnerSlots(groups[..n]), GroupSlots(groups[n]));
      InnerNamed(value, txid, groups[n]);
      TotalConcat(value, Named(txid, InnerSlots(groups[..n])), Named(txid, GroupSlots(groups[n])));
    }
  }

  /** Summing over the collected transfers is summing over the raw transactions. */
  lemma {:induction false} TransfersTotal(value: SolTransfer -> real, txs: seq<SolTx>)
    ensures Total(value, Transfers(txs)) == TxsTotal(value, txs)
  {
    hide OuterSlots, InnerSlots, Named, OuterTotal, GroupsTotal;
    if txs != [] {
      var n, tx := |txs| - 1, txs[|txs| - 1];
      TransfersTotal(value, txs[..n]);
      TotalConcat(value, Transfers(txs[..n]), TransfersOf(tx));
      if !tx.failed && tx.txid != "" {
        NamedIs(tx);
        NamedConcat(tx.txid, OuterSlots(tx.body.outer), InnerSlots(tx.body.inner));
        OuterNamed(value, tx.txid, tx.body.outer);
        GroupsNamed(value, tx.txid, tx.body.inner);
        TotalConcat(value, Named(tx.txid, OuterSlots(tx.body.outer)), Named(tx.txid, InnerSlots(tx.body.inner)));
      }
    }
  }

  lemma NamedIs(tx: SolTx)
    requires !tx.failed && tx.txid != ""
    ensures TransfersOf(tx) == Named(tx.txid, OuterSlots(tx.body.outer) + InnerSlots(tx.body.inner))
  {
  }

  lemma SolOneCredited(cfg: Settings, ops: seq<Op>, network: string, users: map<string, int>, t: SolTransfer,
                       payee: Payee)
    requires t.txid != ""
    ensures CreditedWorth(cfg, ops, SolFound(network, users, t), payee, SOL) ==
            if WatcherRuns.Credited(ops, SolKey(network, t.txid, t.slot, t.instruction.destination))
            then SolShare(cfg, users, payee, t) else 0.0
  {
    hide WatcherRuns.Credited, RoundHalfUp, Share, SolKey;
    WholeUnits(t.instruction.lamports, 0.000000001);
    assert Multiple(t.instruction.lamports, 0.000000001) == t.instruction.lamports as real / 1000000000.0;
    if SolFound(network, users, t) != [] {
      OneCredited(cfg, ops, SolFound(network, users, t)[0], payee, SOL);
    }
    hide CreditedWorth;
  }

  ghost function SolShares(cfg: Settings, setup: Setup, network: string, users: map<string, int>, node: Node,
                           events: seq<Event>, payee: Payee): SolTransfer -> real
  {
    (t: SolTransfer) =>
      if Succeeded(setup, node, events, SolKey(network, t.txid, t.slot, t.instruction.destination))
      then SolShare(cfg, users, payee, t) else 0.0
  }

  lemma {:induction false} TransfersSigned(txs: seq<SolTx>, t: SolTransfer)
    requires t in Transfers(txs)
    ensures t.txid != ""
  {
    var n := |txs| - 1;
    if t !in TransfersOf(txs[n]) {
      TransfersSigned(txs[..n], t);
    }
  }

  lemma SolCredited(cfg: Settings, setup: Setup, network: string, users: map<string, int>, node: Node,
                    events: seq<Event>, txs: seq<SolTx>, payee: Payee)
    requires var ops := Watching(setup, node, events).ops;
             forall f :: f in Collect(SolIn(network, users), Transfers(txs)) ==>
               (WatcherRuns.Credited(ops, f.key) <==> Succeeded(setup, node, events, f.key))
    ensures CreditedWorth(cfg, Watching(setup, node, events).ops, Collect(SolIn(network, users), Transfers(txs)), payee,
                          SOL) ==
            TxsTotal(SolShares(cfg, setup, network, users, node, events, payee), txs)
  {
    hide WatcherRuns.Credited, CreditedWorth, Watching, Succeeded, SolKey, Collect, Share, Transfers;
    var ops, find := Watching(setup, node, events).ops, SolIn(network, users);
    var shares := SolShares(cfg, setup, network, users, node, events, payee);
    forall t | t in Transfers(txs) ensures CreditedWorth(cfg, ops, find(t), payee, SOL) == shares(t) {
      TransfersSigned(txs, t);
      SolOneCredited(cfg, ops, network, users, t, payee);
      if find(t) != [] {
        CollectHolds(find, Transfers(txs), t, find(t)[0]);
      }
    }
    CollectCredited(cfg, ops, find, Transfers(txs), payee, SOL, shares);
    TransfersTotal(shares, txs);
  }

  lemma SolEvents(network: string, users: map<string, int>, slots: int -> seq<SolTx>, from: int, last: int)
    ensures Events(SolNode(network, users, slots), from, last) ==
            Collect(SolIn(network, users), Transfers(Gather(slots, from, last)))
  {
    hide Collect, Gather, Transfers;
    ScanCollects(SolIn(network, users), TransfersPerSlot(slots), from, last);
    GatherTransfers(slots, from, last);
    NoTokensFound(from, last);
  }

  /** The same for the SOL watcher, over all instructions of the scanned slots. */
  lemma SolShared(cfg: Settings, others: string -> Sighting, setup: Setup, network: string,
                  users: map<string, int>, slots: int -> seq<SolTx>, events: seq<Event>, payee: Payee)
    requires GoodSettings(cfg) && setup.maxPerRun >= 1 && setup.assets == {SOL}
    requires forall from: int, last: int :: SolIdsDistinct(Gather(slots, from, last))
    requires GoodEvents(setup, ChainOf(SolNode(network, users, slots), others), events)
    ensures var node := SolNode(network, users, slots);
            Booked(cfg, setup, node, events, payee, SOL) ==
            TxsTotal(SolShares(cfg, setup, network, users, node, events, payee),
                     Gather(slots, setup.floor, Top(setup, node, events)))
  {
    hide SolIdsDistinct, GoodEvents, ChainOf, Collect, WatcherRuns.Credited, CreditedWorth, Watching, Succeeded;
    hide NeverRaised, AlwaysInTime, Worth, Top, Gather, Events, Transfers, TxsTotal, SolNode;
    var node := SolNode(network, users, slots);
    var top := Top(setup, node, events);
    SolEvents(network, users, slots, setup.floor, top);
    SolLedgerIsBlocks(cfg, others, setup, network, users, slots, events, payee);
    SolCredited(cfg, setup, network, users, node, events, Gather(slots, setup.floor, top), payee);
  }

  function Lamports(users: map<string, int>): SolTransfer -> real {
    (t: SolTransfer) => if SolPays(users, t) then t.instruction.lamports as real else 0.0
  }

  /** If no payment was lost, users and platform together were booked every lamport that the scanned slots paid. */
  lemma SolTotals(cfg: Settings, others: string -> Sighting, setup: Setup, network: string,
                  users: map<string, int>, slots: int -> seq<SolTx>, events: seq<Event>)
    requires GoodSettings(cfg) && setup.maxPerRun >= 1 && setup.assets == {SOL}
    requires forall from: int, last: int :: SolIdsDistinct(Gather(slots, from, last))
    requires GoodEvents(setup, ChainOf(SolNode(network, users, slots), others), events)
    ensures var node := SolNode(network, users, slots);
            var txs := Gather(slots, setup.floor, Top(setup, node, events));
            (forall t :: t in Transfers(txs) && SolPays(users, t) ==>
               Succeeded(setup, node, events, SolKey(network, t.txid, t.slot, t.instruction.destination))) ==>
            Booked(cfg, setup, node, events, Everyone, SOL) == TxsTotal(Lamports(users), txs) / 1000000000.0
  {
    hide SolIdsDistinct, GoodEvents, ChainOf, Succeeded, Top, Gather, Booked, SolKey, SolNode, Fee, Total, Transfers;
    var node := SolNode(network, users, slots);
    var txs := Gather(slots, setup.floor, Top(setup, node, events));
    var shares := SolShares(cfg, setup, network, users, node, events, Everyone);
    SolShared(cfg, others, setup, network, users, slots, events, Everyone);
    TransfersTotal(shares, txs);
    TransfersTotal(Lamports(users), txs);
    if forall t :: t in Transfers(txs) && SolPays(users, t) ==>
         Succeeded(setup, node, events, SolKey(network, t.txid, t.slot, t.instruction.destination)) {
      TotalNear(shares, Lamports(users), Lamports(users), 1000000000.0, 0.0, Transfers(txs));
    }
  }
}
