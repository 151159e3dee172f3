/**
 The Bech32 checksum of wallet_service.py and withdrawal_provider_service/app.py (BIP 173; second constant from BIP
 350).
 */
module Bech32 {

  function Generator(i: nat): bv32 {
    match i
    case 0 => 0x3B6A57B2
    case 1 => 0x26508E6D
    case 2 => 0x1EA119FA
    case 3 => 0x3D4233DD
    case _ => 0x2A1462B3
  }

  function Xor(a: bv32, b: bv32): bv32 {
    a ^ b
  }

  predicate Bit(top: bv32, i: nat)
    requires i < 5
  {
    (top >> i) & 1 == 1
  }

  function Pick(top: bv32, i: nat): bv32
    requires i < 5
  {
    if Bit(top, i) then Generator(i) else 0
  }

  /** The generators selected by the lowest i bits of top, XORed together. */
  function Selected(top: bv32, i: nat): bv32
    requires i <= 5
  {
    if i == 0 then 0 else Xor(Selected(top, i - 1), Pick(top, i - 1))
  }

  /** The low 25 bits, moved up to make room for a symbol. */
  function Kept(chk: bv32): bv32 {
    (chk & 0x1FFFFFF) << 5
  }

  function Top(chk: bv32): bv32 {
    chk >> 25
  }

  function Shifted(chk: bv32): bv32 {
    Xor(Kept(chk), Selected(Top(chk), 5))
  }

  function Step(chk: bv32, symbol: bv32): bv32 {
    Xor(Shifted(chk), symbol)
  }

  /** The state after feeding symbols into a starting state. */
  function From(start: bv32, symbols: seq<bv32>): bv32 {
    if symbols == [] then start else Step(From(start, symbols[..|symbols| - 1]), symbols[|symbols| - 1])
  }

  function Polymod(symbols: seq<bv32>): bv32 {
    From(1, symbols)
  }

  // ----- XOR

  lemma XorLaws(a: bv32, b: bv32, c: bv32)
    ensures Xor(Xor(a, b), c) == Xor(Xor(a, c), b) == Xor(a, Xor(b, c))
    ensures Xor(a, 0) == a == Xor(0, a) && Xor(a, a) == 0 && (Xor(a, b) == 0 <==> a == b) && Xor(Xor(a, b), b) == a
  {
  }

  lemma XorPairs(a: bv32, b: bv32, c: bv32, d: bv32)
    ensures Xor(Xor(a, b), Xor(c, d)) == Xor(Xor(a, c), Xor(b, d))
  {
    XorLaws(Xor(a, b), c, d);
    XorLaws(a, b, c);
    XorLaws(Xor(a, c), b, d);
    hide Xor;
  }

  // ----- the loops

  method PolymodOf(symbols: seq<bv32>) returns (chk: bv32)
    ensures chk == Polymod(symbols)
  {
    hide Xor, Bit, Generator, Kept, Top, Selected, Shifted;
    chk := 1;
    for k := 0 to |symbols|
      invariant chk == From(1, symbols[..k])
    {
      assert symbols[..k + 1][..k] == symbols[..k];
      ghost var before := chk;
      var top := Top(chk);
      chk := Xor(Kept(chk), symbols[k]);
      SelectedNext(top, 0);
      XorLaws(chk, 0, 0);
      for i := 0 to 5
        invariant chk == Xor(Xor(Kept(before), symbols[k]), Selected(top, i))
      {
        SelectedNext(top, i);
        XorLaws(Xor(Kept(before), symbols[k]), Selected(top, i), Pick(top, i));
        XorLaws(chk, 0, 0);
        if Bit(top, i) {
          chk := Xor(chk, Generator(i));
        }
      }
      ShiftedMixed(before, symbols[k]);
    }
    assert symbols[..|symbols|] == symbols;
  }

  lemma SelectedNext(top: bv32, i: nat)
    requires i < 5
    ensures Selected(top, 0) == 0 && Selected(top, i + 1) == Xor(Selected(top, i), Pick(top, i))
  {
  }

  lemma ShiftedMixed(chk: bv32, symbol: bv32)
    ensures Xor(Xor(Kept(chk), symbol), Selected(Top(chk), 5)) == Step(chk, symbol)
  {
    hide Xor, Kept, Top, Selected;
    XorLaws(Kept(chk), symbol, Selected(Top(chk), 5));
  }

  // ----- one step is XOR-linear

  lemma PickLinear(a: bv32, b: bv32, i: nat)
    requires i < 5
    ensures Pick(Xor(a, b), i) == Xor(Pick(a, i), Pick(b, i))
  {
    hide Generator;
    BitLinear(a, b, i);
    XorLaws(Generator(i), Generator(i), 0);
    hide Bit, Xor;
  }

  lemma BitLinear(a: bv32, b: bv32, i: nat)
    requires i < 5
    ensures Bit(Xor(a, b), i) <==> (Bit(a, i) != Bit(b, i))
  {
    if i == 0 { assert Bit(Xor(a, b), 0) <==> (Bit(a, 0) != Bit(b, 0)); }
    if i == 1 { assert Bit(Xor(a, b), 1) <==> (Bit(a, 1) != Bit(b, 1)); }
    if i == 2 { assert Bit(Xor(a, b), 2) <==> (Bit(a, 2) != Bit(b, 2)); }
    if i == 3 { assert Bit(Xor(a, b), 3) <==> (Bit(a, 3) != Bit(b, 3)); }
    if i == 4 { assert Bit(Xor(a, b), 4) <==> (Bit(a, 4) != Bit(b, 4)); }
  }

  lemma {:induction false} SelectedLinear(a: bv32, b: bv32, i: nat)
    requires i <= 5
    ensures Selected(Xor(a, b), i) == Xor(Selected(a, i), Selected(b, i))
  {
    hide Xor, Pick;
    if i == 0 {
      XorLaws(0, 0, 0);
    } else {
      SelectedLinear(a, b, i - 1);
      PickLinear(a, b, i - 1);
      XorPairs(Selected(a, i - 1), Pick(a, i - 1), Selected(b, i - 1), Pick(b, i - 1));
    }
  }

  lemma PartsLinear(a: bv32, b: bv32)
    ensures Kept(Xor(a, b)) == Xor(Kept(a), Kept(b)) && Top(Xor(a, b)) == Xor(Top(a), Top(b))
  {
  }

  lemma ShiftedLinear(a: bv32, b: bv32)
    ensures Shifted(Xor(a, b)) == Xor(Shifted(a), Shifted(b))
  {
    hide Xor, Kept, Top, Selected;
    PartsLinear(a, b);
    SelectedLinear(Top(a), Top(b), 5);
    XorPairs(Kept(a), Selected(Top(a), 5), Kept(b), Selected(Top(b), 5));
  }

  // ----- one step is a bijection on 30-bit states

  predicate Small(chk: bv32) {
    chk < 0x40000000
  }

  function Low(x: bv32): bv32 {
    x & 31
  }

  /** The top bits, read back from the low five bits that the generators leave behind. */
  function TopBits(x: bv32): bv32 {
    (if x & 1 == 1 then 0x11 else 0) ^ (if x & 2 == 2 then 0xB else 0) ^ (if x & 4 == 4 then 0x16 else 0)
    ^ (if x & 8 == 8 then 0x5 else 0) ^ (if x & 16 == 16 then 0xA else 0)
  }

  function Join(top: bv32, kept: bv32): bv32 {
    (top << 25) | (kept >> 5)
  }

  function Unshifted(x: bv32): bv32 {
    Join(TopBits(x), Xor(x, Selected(TopBits(x), 5)))
  }

  /** The state before a step, from the state after it. */
  function Unstep(chk: bv32, symbol: bv32): bv32 {
    Unshifted(Xor(chk, symbol))
  }

  lemma SelectedOpen(top: bv32)
    ensures Selected(top, 5) ==
            Xor(Xor(Xor(Xor(Xor(0, Pick(top, 0)), Pick(top, 1)), Pick(top, 2)), Pick(top, 3)), Pick(top, 4))
  {
    hide Xor, Pick;
    SelectedNext(top, 0);
    SelectedNext(top, 1);
    SelectedNext(top, 2);
    SelectedNext(top, 3);
    SelectedNext(top, 4);
  }

  lemma SelectedLow(top: bv32)
    requires top < 32
    ensures Small(Selected(top, 5)) && TopBits(Selected(top, 5)) == top
  {
    hide Selected;
    SelectedOpen(top);
  }

  lemma TopBitsLow(x: bv32)
    ensures TopBits(x) < 32 && Low(Selected(TopBits(x), 5)) == Low(x)
  {
    hide Selected;
    SelectedOpen(TopBits(x));
  }

  lemma TopBitsSame(x: bv32, y: bv32)
    requires Low(x) == Low(y)
    ensures TopBits(x) == TopBits(y)
  {
    assert x & 1 == Low(x) & 1 && x & 2 == Low(x) & 2 && x & 4 == Low(x) & 4 && x & 8 == Low(x) & 8 &&
           x & 16 == Low(x) & 16;
    assert y & 1 == Low(y) & 1 && y & 2 == Low(y) & 2 && y & 4 == Low(y) & 4 && y & 8 == Low(y) & 8 &&
           y & 16 == Low(y) & 16;
  }

  lemma KeptParts(a: bv32)
    requires Small(a)
    ensures Top(a) < 32 && Low(Kept(a)) == 0 && Join(Top(a), Kept(a)) == a
  {
  }

  lemma LowXor(k: bv32, s: bv32)
    ensures Low(k) == 0 ==> Low(Xor(k, s)) == Low(s)
    ensures Low(k) == Low(s) ==> Low(Xor(k, s)) == 0
    ensures Small(k) && Small(s) ==> Small(Xor(k, s))
  {
  }

  lemma Joined(top: bv32, kept: bv32)
    requires top < 32 && Small(kept) && Low(kept) == 0
    ensures Small(Join(top, kept)) && Top(Join(top, kept)) == top && Kept(Join(top, kept)) == kept
  {
  }

  lemma ShiftUndone(a: bv32)
    requires Small(a)
    ensures Unshifted(Shifted(a)) == a
  {
    hide Xor, Kept, Top, Selected, TopBits, Low, Join;
    var s := Selected(Top(a), 5);
    KeptParts(a);
    SelectedLow(Top(a));
    LowXor(Kept(a), s);
    TopBitsSame(Shifted(a), s);
    XorLaws(Kept(a), s, 0);
  }

  lemma ShiftRedone(x: bv32)
    requires Small(x)
    ensures Small(Unshifted(x)) && Shifted(Unshifted(x)) == x
  {
    hide Xor, Kept, Top, Selected, TopBits, Low, Join, Small;
    var s := Selected(TopBits(x), 5);
    TopBitsLow(x);
    SelectedLow(TopBits(x));
    LowXor(x, s);
    Joined(TopBits(x), Xor(x, s));
    XorLaws(x, s, 0);
  }

  lemma SmallXor(a: bv32, b: bv32)
    ensures Small(a) && Small(b) ==> Small(Xor(a, b))
    ensures Small(Kept(a)) && Top(a) < 128
  {
  }

  lemma SelectedSmall(top: bv32)
    requires top < 128
    ensures Small(Selected(top, 5))
  {
    hide Selected;
    SelectedOpen(top);
  }

  /** With symbols below 2^30, the state stays below 2^30. */
  lemma StepSmall(chk: bv32, symbol: bv32)
    requires Small(symbol)
    ensures Small(Step(chk, symbol))
  {
    hide Xor, Kept, Top, Selected, Small;
    SmallXor(chk, chk);
    SelectedSmall(Top(chk));
    SmallXor(Kept(chk), Selected(Top(chk), 5));
    SmallXor(Shifted(chk), symbol);
  }

  /** For a fixed symbol a step is a bijection on the 30-bit states, and Unstep is its inverse. */
  lemma StepBijective(chk: bv32, symbol: bv32)
    requires Small(chk) && Small(symbol)
    ensures Unstep(Step(chk, symbol), symbol) == chk
    ensures Small(Unstep(chk, symbol)) && Step(Unstep(chk, symbol), symbol) == chk
  {
    hide Xor, Shifted, Unshifted, Small;
    SmallXor(chk, symbol);
    ShiftUndone(chk);
    ShiftRedone(Xor(chk, symbol));
    XorLaws(Shifted(chk), symbol, 0);
    XorLaws(chk, symbol, 0);
  }

  // ----- whole texts

  ghost predicate AllSmall(symbols: seq<bv32>) {
    forall i :: 0 <= i < |symbols| ==> Small(symbols[i])
  }

  lemma {:induction false} FromSmall(start: bv32, symbols: seq<bv32>)
    requires Small(start) && AllSmall(symbols)
    ensures Small(From(start, symbols))
  {
    hide Step, Small;
    if symbols != [] {
      var n := |symbols| - 1;
      FromSmall(start, symbols[..n]);
      StepSmall(From(start, symbols[..n]), symbols[n]);
    }
  }

  lemma PolymodSmall(symbols: seq<bv32>)
    requires AllSmall(symbols)
    ensures Polymod(symbols) < 0x40000000
  {
    assert Small(1);
    FromSmall(1, symbols);
  }

  function XorAll(a: seq<bv32>, b: seq<bv32>): (c: seq<bv32>)
    requires |a| == |b|
    ensures |c| == |a|
  {
    seq(|a|, i requires 0 <= i < |a| => Xor(a[i], b[i]))
  }

  /** The state is XOR-linear in start and symbols together. */
  lemma {:induction false} FromLinear(x: bv32, y: bv32, a: seq<bv32>, b: seq<bv32>)
    requires |a| == |b|
    ensures From(Xor(x, y), XorAll(a, b)) == Xor(From(x, a), From(y, b))
  {
    hide Xor, Shifted;
    if a != [] {
      var n := |a| - 1;
      assert XorAll(a, b)[..n] == XorAll(a[..n], b[..n]);
      FromLinear(x, y, a[..n], b[..n]);
      ShiftedLinear(From(x, a[..n]), From(y, b[..n]));
      XorPairs(Shifted(From(x, a[..n])), a[n], Shifted(From(y, b[..n])), b[n]);
    }
  }

  /** So the checksum is XOR-affine: how two texts' checksums differ depends only on how the texts differ. */
  lemma PolymodAffine(a: seq<bv32>, b: seq<bv32>)
    requires |a| == |b|
    ensures Xor(Polymod(a), Polymod(b)) == From(0, XorAll(a, b))
  {
    FromLinear(1, 1, a, b);
    XorLaws(1, 1, 0);
  }

  /** a and b have the same length and differ in position i only. */
  ghost predicate DifferAt(a: seq<bv32>, b: seq<bv32>, i: nat) {
    |a| == |b| && i < |a| && a[i] != b[i] && forall j :: 0 <= j < |a| && j != i ==> a[j] == b[j]
  }

  lemma XorInjective(p: bv32, a: bv32, b: bv32)
    ensures Xor(p, a) == Xor(p, b) <==> a == b
  {
  }

  /** Substituting exactly one symbol, wherever and whatever the length, changes the checksum. */
  lemma {:induction false} OneSubstitution(start: bv32, a: seq<bv32>, b: seq<bv32>, i: nat)
    requires Small(start) && AllSmall(a) && AllSmall(b) && DifferAt(a, b, i)
    ensures From(start, a) != From(start, b)
  {
    hide Xor, Shifted, Unshifted, Small;
    var n := |a| - 1;
    var p, q := From(start, a[..n]), From(start, b[..n]);
    FromSmall(start, a[..n]);
    FromSmall(start, b[..n]);
    if i == n {
      assert a[..n] == b[..n];
      XorInjective(Shifted(p), a[n], b[n]);
    } else {
      OneSubstitution(start, a[..n], b[..n], i);
      StepBijective(p, a[n]);
      StepBijective(q, a[n]);
    }
  }

  function High(code: bv32): bv32 {
    code >> 5
  }

  /** _bech32_hrp_expand, over character codes. */
  function HrpExpand(hrp: seq<bv32>): seq<bv32> {
    seq(|hrp|, i requires 0 <= i < |hrp| => High(hrp[i])) + [0] + seq(|hrp|, i requires 0 <= i < |hrp| => Low(hrp[i]))
  }

  /** _bech32_verify_checksum accepts either of the two constants. */
  predicate VerifyChecksum(hrp: seq<bv32>, data: seq<bv32>) {
    Polymod(HrpExpand(hrp) + data) in {1, 0x2BC830A3}
  }

  lemma HrpSmall(hrp: seq<bv32>)
    ensures AllSmall(HrpExpand(hrp))
  {
    forall i | 0 <= i < |hrp| ensures Small(High(hrp[i])) && Small(Low(hrp[i])) {
      CodeSmall(hrp[i]);
    }
    CodeSmall(0);
    hide Small, High, Low;
  }

  lemma CodeSmall(c: bv32)
    ensures Small(High(c)) && Small(Low(c)) && Small(0)
  {
  }

  /** Two accepted texts that differ in exactly one data symbol are not both Bech32 and not both Bech32m. */
  lemma AcceptedNeverOneApart(hrp: seq<bv32>, a: seq<bv32>, b: seq<bv32>, i: nat)
    requires AllSmall(a) && AllSmall(b) && DifferAt(a, b, i)
    requires VerifyChecksum(hrp, a) && VerifyChecksum(hrp, b)
    ensures Polymod(HrpExpand(hrp) + a) != Polymod(HrpExpand(hrp) + b)
  {
    hide From;
    var head := HrpExpand(hrp);
    HrpSmall(hrp);
    assert DifferAt(head + a, head + b, |head| + i);
    OneSubstitution(1, head + a, head + b, |head| + i);
  }
}
