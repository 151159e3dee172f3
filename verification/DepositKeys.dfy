/** eth_rpc.py and sol_rpc.py: the unique keys under which transfers are credited. */
module DepositKeys {
  import Text

  predicate NoColon(s: string) {
    forall i :: 0 <= i < |s| ==> s[i] != ':'
  }

  function EthKey(network: string, txid: string, asset: string, logIndex: nat, address: string): string {
    network + ":eth:" + (txid + ":" + (asset + ":" + (Text.NatText(logIndex) + ":" + address)))
  }

  /** Where a transfer instruction stands in a Solana transaction. */
  datatype Slot = Outer(index: nat) | Inner(outer: nat, index: nat)

  function SlotText(slot: Slot): string {
    match slot
    case Outer(index) => "outer:" + Text.NatText(index)
    case Inner(outer, index) => "inner:" + Text.NatText(outer) + ":" + Text.NatText(index)
  }

  function SolKey(network: string, txid: string, slot: Slot, address: string): string {
    network + ":sol:" + (txid + ":" + ("SOL:" + (SlotText(slot) + ":" + address)))
  }

  lemma SplitAtColon(a: string, b: string, x: string, y: string)
    requires NoColon(a) && NoColon(b) && a + ":" + x == b + ":" + y
    ensures a == b && x == y
  {
    var whole := a + ":" + x;
    assert whole[|a|] == ':' && (b + ":" + y)[|b|] == ':';
    assert forall i :: 0 <= i < |a| ==> whole[i] == a[i];
    assert forall i :: 0 <= i < |b| ==> whole[i] == b[i];
    assert |a| == |b|;
    assert a == whole[..|a|] && b == whole[..|b|];
    assert x == whole[|a| + 1..] && y == whole[|b| + 1..];
  }

  lemma SamePrefix(p: string, x: string, y: string)
    requires p + x == p + y
    ensures x == y
  {
    assert x == (p + x)[|p|..] && y == (p + y)[|p|..];
  }

  /** On one network the key names transaction, asset, log index and address. */
  lemma EthKeyNames(network: string, t: string, a: string, i: nat, x: string, u: string, b: string, j: nat, y: string)
    requires NoColon(t) && NoColon(a) && NoColon(u) && NoColon(b)
    requires EthKey(network, t, a, i, x) == EthKey(network, u, b, j, y)
    ensures t == u && a == b && i == j && x == y
  {
    var p, q := Text.NatText(i) + ":" + x, Text.NatText(j) + ":" + y;
    SamePrefix(network + ":eth:", t + ":" + (a + ":" + p), u + ":" + (b + ":" + q));
    SplitAtColon(t, u, a + ":" + p, b + ":" + q);
    SplitAtColon(a, b, p, q);
    Text.NumberThenColon(i, j, x, y);
  }

  lemma Associate(p: string, a: string, b: string)
    ensures (p + a) + b == p + (a + b)
  {
  }

  lemma OuterNames(i: nat, x: string, j: nat, y: string)
    requires SlotText(Outer(i)) + ":" + x == SlotText(Outer(j)) + ":" + y
    ensures i == j && x == y
  {
    Associate("outer:", Text.NatText(i) + ":", x);
    Associate("outer:", Text.NatText(j) + ":", y);
    assert SlotText(Outer(i)) + ":" == "outer:" + (Text.NatText(i) + ":");
    assert SlotText(Outer(j)) + ":" == "outer:" + (Text.NatText(j) + ":");
    SamePrefix("outer:", Text.NatText(i) + ":" + x, Text.NatText(j) + ":" + y);
    Text.NumberThenColon(i, j, x, y);
  }

  lemma InnerNames(o: nat, i: nat, x: string, p: nat, j: nat, y: string)
    requires SlotText(Inner(o, i)) + ":" + x == SlotText(Inner(p, j)) + ":" + y
    ensures o == p && i == j && x == y
  {
    var a, b := Text.NatText(i) + ":" + x, Text.NatText(j) + ":" + y;
    InnerText(o, i, x);
    InnerText(p, j, y);
    SamePrefix("inner:", Text.NatText(o) + ":" + a, Text.NatText(p) + ":" + b);
    Text.NumberThenColon(o, p, a, b);
    Text.NumberThenColon(i, j, x, y);
  }

  lemma InnerText(o: nat, i: nat, x: string)
    ensures SlotText(Inner(o, i)) + ":" + x == "inner:" + (Text.NatText(o) + ":" + (Text.NatText(i) + ":" + x))
  {
    hide Text.NatText;
  }

  lemma SlotTextNames(s: Slot, x: string, t: Slot, y: string)
    requires SlotText(s) + ":" + x == SlotText(t) + ":" + y
    ensures s == t && x == y
  {
    assert (SlotText(s) + ":" + x)[0] == if s.Outer? then 'o' else 'i';
    assert (SlotText(t) + ":" + y)[0] == if t.Outer? then 'o' else 'i';
    if s.Outer? {
      OuterNames(s.index, x, t.index, y);
    } else {
      InnerNames(s.outer, s.index, x, t.outer, t.index, y);
    }
  }

  /** On one network the key names transaction, instruction slot and address. */
  lemma SolKeyNames(network: string, t: string, r: Slot, x: string, u: string, s: Slot, y: string)
    requires NoColon(t) && NoColon(u) && SolKey(network, t, r, x) == SolKey(network, u, s, y)
    ensures t == u && r == s && x == y
  {
    var p, q := SlotText(r) + ":" + x, SlotText(s) + ":" + y;
    SamePrefix(network + ":sol:", t + ":" + ("SOL:" + p), u + ":" + ("SOL:" + q));
    SplitAtColon(t, u, "SOL:" + p, "SOL:" + q);
    SamePrefix("SOL:", p, q);
    SlotTextNames(r, x, s, y);
  }

  // ----- the instructions of one Solana transaction

  datatype Group<T> = Group(index: nat, instructions: seq<T>)

  datatype Tx<T> = Tx(outer: seq<T>, inner: seq<Group<T>>)

  function OuterSlots<T>(outer: seq<T>): seq<(Slot, T)> {
    seq(|outer|, i requires 0 <= i < |outer| => (Outer(i), outer[i]))
  }

  function GroupSlots<T>(group: Group<T>): seq<(Slot, T)> {
    seq(|group.instructions|, i
        requires 0 <= i < |group.instructions| => (Inner(group.index, i), group.instructions[i]))
  }

  function InnerSlots<T>(groups: seq<Group<T>>): seq<(Slot, T)> {
    if groups == [] then [] else InnerSlots(groups[..|groups| - 1]) + GroupSlots(groups[|groups| - 1])
  }

  function Instructions<T>(tx: Tx<T>): seq<(Slot, T)> {
    OuterSlots(tx.outer) + InnerSlots(tx.inner)
  }

  method IterTransferInstructions<T>(tx: Tx<T>) returns (all: seq<(Slot, T)>)
    ensures all == Instructions(tx)
  {
    all := [];
    for i := 0 to |tx.outer|
      invariant all == OuterSlots(tx.outer)[..i]
    {
      all := all + [(Outer(i), tx.outer[i])];
    }
    for g := 0 to |tx.inner|
      invariant all == OuterSlots(tx.outer) + InnerSlots(tx.inner[..g])
    {
      var group := tx.inner[g];
      ghost var before := all;
      for i := 0 to |group.instructions|
        invariant all == before + GroupSlots(group)[..i]
      {
        all := all + [(Inner(group.index, i), group.instructions[i])];
      }
      assert tx.inner[..g + 1][..g] == tx.inner[..g];
      assert all == OuterSlots(tx.outer) + (InnerSlots(tx.inner[..g]) + GroupSlots(group));
    }
    assert tx.inner[..|tx.inner|] == tx.inner;
  }

  ghost predicate Distinct<T>(slots: seq<(Slot, T)>) {
    forall i, j :: 0 <= i < j < |slots| ==> slots[i].0 != slots[j].0
  }

  /** No two non-empty groups claim the same outer instruction. */
  ghost predicate GroupsApart<T>(groups: seq<Group<T>>) {
    forall p, q :: 0 <= p < q < |groups| && groups[p].instructions != [] && groups[q].instructions != [] ==>
      groups[p].index != groups[q].index
  }

  ghost predicate FromGroup<T>(groups: seq<Group<T>>, slot: Slot) {
    slot.Inner? && exists g :: 0 <= g < |groups| && groups[g].instructions != [] && groups[g].index == slot.outer
  }

  lemma {:induction false} InnerSlotsFrom<T>(groups: seq<Group<T>>)
    ensures forall k :: 0 <= k < |InnerSlots(groups)| ==> FromGroup(groups, InnerSlots(groups)[k].0)
  {
    if groups != [] {
      var n := |groups| - 1;
      var before := InnerSlots(groups[..n]);
      InnerSlotsFrom(groups[..n]);
      forall k | 0 <= k < |InnerSlots(groups)|
        ensures FromGroup(groups, InnerSlots(groups)[k].0)
      {
        if k < |before| {
          assert InnerSlots(groups)[k] == before[k];
          var g :| 0 <= g < n && groups[..n][g].instructions != [] && groups[..n][g].index == before[k].0.outer;
          assert groups[g] == groups[..n][g];
        } else {
          assert InnerSlots(groups)[k] == GroupSlots(groups[n])[k - |before|];
          assert groups[n].instructions != [];
        }
      }
    }
  }

  lemma {:induction false} ApartIsDistinct<T>(groups: seq<Group<T>>)
    requires GroupsApart(groups)
    ensures Distinct(InnerSlots(groups))
  {
    if groups != [] {
      var n := |groups| - 1;
      ApartIsDistinct(groups[..n]);
      InnerSlotsFrom(groups[..n]);
      assert forall k :: 0 <= k < |GroupSlots(groups[n])| ==> GroupSlots(groups[n])[k].0 == Inner(groups[n].index, k);
    }
  }

  /** A non-empty group contributes its first slot. */
  lemma {:induction false} FirstSlot<T>(groups: seq<Group<T>>, g: nat) returns (k: nat)
    requires g < |groups| && groups[g].instructions != []
    ensures k < |InnerSlots(groups)| && InnerSlots(groups)[k].0 == Inner(groups[g].index, 0)
    ensures k == |InnerSlots(groups[..g])|
  {
    var n := |groups| - 1;
    if g == n {
      k := |InnerSlots(groups[..n])|;
    } else {
      k := FirstSlot(groups[..n], g);
      assert groups[..n][..g] == groups[..g];
    }
  }

  lemma SlotsGrow<T>(groups: seq<Group<T>>, g: nat)
    requires g < |groups| && groups[g].instructions != []
    ensures |InnerSlots(groups[..g])| < |InnerSlots(groups)|
  {
    var k := FirstSlot(groups, g);
  }

  lemma SharedNotDistinct<T>(tx: Tx<T>, p: nat, q: nat)
    requires p < q < |tx.inner| && tx.inner[p].instructions != [] && tx.inner[q].instructions != []
    requires tx.inner[p].index == tx.inner[q].index
    ensures !Distinct(Instructions(tx))
  {
    hide InnerSlots;
    var i := FirstSlot(tx.inner, p);
    var j := FirstSlot(tx.inner, q);
    assert tx.inner[..q][..p] == tx.inner[..p];
    SlotsGrow(tx.inner[..q], p);
    var n, all := |tx.outer|, Instructions(tx);
    assert all[n + i] == InnerSlots(tx.inner)[i] && all[n + j] == InnerSlots(tx.inner)[j];
    assert all[n + i].0 == all[n + j].0;
  }

  lemma ApartAllDistinct<T>(tx: Tx<T>)
    requires GroupsApart(tx.inner)
    ensures Distinct(Instructions(tx))
  {
    hide InnerSlots, GroupsApart;
    InnerSlotsFrom(tx.inner);
    ApartIsDistinct(tx.inner);
    hide FromGroup;
    assert forall i :: 0 <= i < |tx.outer| ==> Instructions(tx)[i].0 == Outer(i);
  }

  /** The instructions of a transaction get different keys exactly when no two non-empty groups share an index. */
  lemma SlotsDistinctIff<T>(tx: Tx<T>)
    ensures Distinct(Instructions(tx)) <==> GroupsApart(tx.inner)
  {
    if GroupsApart(tx.inner) {
      ApartAllDistinct(tx);
    } else {
      var p, q :| 0 <= p < q < |tx.inner| && tx.inner[p].instructions != [] && tx.inner[q].instructions != [] &&
                  tx.inner[p].index == tx.inner[q].index;
      SharedNotDistinct(tx, p, q);
    }
  }
}
