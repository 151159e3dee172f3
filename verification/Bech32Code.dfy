/**
 Which code the Bech32 checksum is: arithmetic in GF(32), and the remainder modulo the generator polynomial of BIP 173.
 */
module Bech32Code {
  import opened Bech32

  // ----- the field with 32 elements

  /** The product of two polynomials over GF(2), kept as bit patterns. */
  function Carryless(a: bv32, b: bv32): bv32 {
    (if b & 1 == 1 then a else 0) ^ (if b & 2 == 2 then a << 1 else 0) ^ (if b & 4 == 4 then a << 2 else 0)
    ^ (if b & 8 == 8 then a << 3 else 0) ^ (if b & 16 == 16 then a << 4 else 0)
  }

  /** Subtract the modulus x^5 + x^3 + 1, moved up by k, if bit k + 5 is set. */
  function ReduceBit(p: bv32, k: bv3): bv32 {
    if (p >> k) & 0x20 == 0x20 then p ^ (0x29 << k) else p
  }

  /** Multiplication in GF(32). */
  function Mul(a: bv32, b: bv32): bv32 {
    ReduceBit(ReduceBit(ReduceBit(ReduceBit(Carryless(a, b), 3), 2), 1), 0)
  }

  /** Products stay below 32, 1 is neutral, and no two nonzero numbers have product 0: the modulus is irreducible. */
  lemma NoZeroDivisors(a: bv32, b: bv32)
    requires a < 32 && b < 32
    ensures Mul(a, b) < 32 && Mul(a, 1) == a && Mul(a, 0) == 0
    ensures Mul(a, b) == 0 <==> a == 0 || b == 0
  {
    assert Mul(a, 1) == a && Mul(a, 0) == 0 && Mul(0, b) == 0;
    assert Mul(a, b) == 0 ==> a == 0 || b == 0;
    assert Mul(a, b) < 32;
  }

  // ----- one step

  /** BIP 173's generator polynomial, x^6 + 29 x^5 + 22 x^4 + 20 x^3 + 21 x^2 + 29 x + 18, by degree. */
  function G(degree: nat): bv32 {
    match degree
    case 0 => 18
    case 1 => 29
    case 2 => 21
    case 3 => 20
    case 4 => 22
    case 5 => 29
    case 6 => 1
    case _ => 0
  }

  function Down(chk: bv32): bv32 {
    chk >> 5
  }

  /** The 30-bit state holds six symbols: the coefficients of a polynomial of degree below six. */
  function Coeff(chk: bv32, degree: nat): bv32
    decreases degree
  {
    if degree == 0 then Low(chk) else Coeff(Down(chk), degree - 1)
  }

  lemma Downs(chk: bv32)
    ensures Low(chk) == chk & 31 && Low(Down(chk)) == (chk >> 5) & 31 && Low(Down(Down(chk))) == (chk >> 10) & 31
    ensures Low(Down(Down(Down(chk)))) == (chk >> 15) & 31 && Low(Down(Down(Down(Down(chk))))) == (chk >> 20) & 31
    ensures Low(Down(Down(Down(Down(Down(chk)))))) == (chk >> 25) & 31
  {
  }

  lemma CoeffOpen(chk: bv32)
    ensures Coeff(chk, 0) == chk & 31 && Coeff(chk, 1) == (chk >> 5) & 31 && Coeff(chk, 2) == (chk >> 10) & 31
    ensures Coeff(chk, 3) == (chk >> 15) & 31 && Coeff(chk, 4) == (chk >> 20) & 31
    ensures Coeff(chk, 5) == (chk >> 25) & 31
  {
    hide Low, Down;
    Downs(chk);
    assert Coeff(chk, 5) == Coeff(Down(Down(Down(chk))), 2);
    assert Coeff(chk, 4) == Coeff(Down(Down(chk)), 2);
    assert Coeff(chk, 3) == Coeff(Down(chk), 2);
  }

  lemma LowerPacked(top: bv32)
    requires top < 32
    ensures Selected(top, 5) & 31 == Mul(top, G(0)) && (Selected(top, 5) >> 5) & 31 == Mul(top, G(1))
  {
    SelectedOpen(top);
    hide Selected;
  }

  lemma MiddlePacked(top: bv32)
    requires top < 32
    ensures (Selected(top, 5) >> 10) & 31 == Mul(top, G(2)) && (Selected(top, 5) >> 15) & 31 == Mul(top, G(3))
  {
    SelectedOpen(top);
    hide Selected;
  }

  lemma UpperPacked(top: bv32)
    requires top < 32
    ensures (Selected(top, 5) >> 20) & 31 == Mul(top, G(4)) && (Selected(top, 5) >> 25) & 31 == Mul(top, G(5))
  {
    SelectedOpen(top);
    hide Selected;
  }

  lemma AllPacked(top: bv32)
    requires top < 32
    ensures Coeff(Selected(top, 5), 0) == Mul(top, G(0)) && Coeff(Selected(top, 5), 1) == Mul(top, G(1))
    ensures Coeff(Selected(top, 5), 2) == Mul(top, G(2)) && Coeff(Selected(top, 5), 3) == Mul(top, G(3))
    ensures Coeff(Selected(top, 5), 4) == Mul(top, G(4)) && Coeff(Selected(top, 5), 5) == Mul(top, G(5))
  {
    hide Selected, Mul, Coeff, G;
    LowerPacked(top);
    MiddlePacked(top);
    UpperPacked(top);
    CoeffOpen(Selected(top, 5));
  }

  /** The constants that the top symbol selects add up to its products with BIP 173's generator coefficients. */
  lemma SelectedPacks(top: bv32, degree: nat)
    requires top < 32 && degree < 6
    ensures Coeff(Selected(top, 5), degree) == Mul(top, G(degree))
  {
    hide Selected, Mul, Coeff, G;
    AllPacked(top);
    assert degree == 0 || degree == 1 || degree == 2 || degree == 3 || degree == 4 || degree == 5;
  }

  lemma ShiftedParts(chk: bv32, degree: nat)
    requires Small(chk) && degree < 6
    ensures Coeff(Kept(chk), degree) == if degree == 0 then 0 else Coeff(chk, degree - 1)
    ensures Top(chk) == Coeff(chk, 5) < 32
  {
    CoeffOpen(Kept(chk));
    CoeffOpen(chk);
    hide Coeff;
  }

  lemma {:induction false} CoeffXor(a: bv32, b: bv32, degree: nat)
    ensures Coeff(Xor(a, b), degree) == Xor(Coeff(a, degree), Coeff(b, degree))
    decreases degree
  {
    hide Xor, Low, Down;
    PartsXor(a, b);
    if degree > 0 {
      CoeffXor(Down(a), Down(b), degree - 1);
    }
  }

  lemma PartsXor(a: bv32, b: bv32)
    ensures Low(Xor(a, b)) == Xor(Low(a), Low(b)) && Down(Xor(a, b)) == Xor(Down(a), Down(b))
  {
  }

  lemma {:induction false} CoeffSymbol(symbol: bv32, degree: nat)
    requires symbol < 32
    ensures Coeff(symbol, degree) == if degree == 0 then symbol else 0
    decreases degree
  {
    if degree > 0 {
      CoeffSymbol(0, degree - 1);
    }
  }

  lemma CoeffHigh(chk: bv32, degree: nat)
    requires Small(chk) && degree >= 6
    ensures Coeff(chk, degree) == 0
  {
    var three := Down(Down(Down(chk)));
    assert Down(Down(Down(three))) == 0;
    CoeffSymbol(0, degree - 6);
    assert Coeff(Down(three), degree - 4) == 0;
    assert Coeff(Down(Down(chk)), degree - 2) == 0;
  }

  /** A step multiplies the polynomial by x, reduces it modulo the generator polynomial and adds the symbol. */
  lemma StepIsTimesX(chk: bv32, symbol: bv32, degree: nat)
    requires Small(chk) && symbol < 32 && degree < 6
    ensures Coeff(Step(chk, symbol), degree) ==
            Xor(if degree == 0 then symbol else Coeff(chk, degree - 1), Mul(Coeff(chk, 5), G(degree)))
  {
    hide Xor, Coeff, Kept, Top, Selected, Mul, G, Small;
    var s := Selected(Top(chk), 5);
    ShiftedParts(chk, degree);
    SelectedPacks(Top(chk), degree);
    CoeffXor(Shifted(chk), symbol, degree);
    CoeffXor(Kept(chk), s, degree);
    CoeffSymbol(symbol, degree);
    XorLaws(Coeff(Kept(chk), degree), Coeff(s, degree), Coeff(symbol, degree));
    XorLaws(symbol, Coeff(s, degree), 0);
    XorLaws(Coeff(Shifted(chk), degree), 0, 0);
  }

  // ----- whole texts

  /** The coefficient at a degree of a polynomial written with its leading coefficient first. */
  function At(p: seq<bv32>, degree: int): bv32 {
    if 0 <= degree < |p| then p[|p| - 1 - degree] else 0
  }

  /** The part of a product's coefficient at a degree that the generator's k lowest coefficients contribute. */
  function Terms(q: seq<bv32>, degree: int, k: nat): bv32 {
    if k == 0 then 0 else Xor(Terms(q, degree, k - 1), Mul(At(q, degree - (k - 1)), G(k - 1)))
  }

  /** The coefficient of q times the generator polynomial. */
  function TimesG(q: seq<bv32>, degree: int): bv32 {
    Terms(q, degree, 7)
  }

  ghost predicate Symbols(p: seq<bv32>) {
    forall i :: 0 <= i < |p| ==> p[i] < 32
  }

  /** text == q * generator + remainder, where the remainder is a state. */
  ghost predicate Divides(text: seq<bv32>, q: seq<bv32>, remainder: bv32) {
    && Symbols(q) && Small(remainder)
    && forall degree: nat :: At(text, degree) == Xor(TimesG(q, degree), Coeff(remainder, degree))
  }

  lemma {:induction false} TermsAppend(q: seq<bv32>, top: bv32, degree: nat, k: nat)
    ensures Terms(q + [top], degree, k) ==
            Xor(Terms(q, degree - 1, k), if degree < k then Mul(top, G(degree)) else 0)
  {
    hide Xor, Mul, G;
    XorLaws(0, 0, 0);
    if k > 0 {
      TermsAppend(q, top, degree, k - 1);
      var term := Mul(At(q, degree - 1 - (k - 1)), G(k - 1));
      XorLaws(Terms(q, degree - 1, k - 1), if degree < k - 1 then Mul(top, G(degree)) else 0, term);
      XorLaws(Terms(q, degree - 1, k - 1), term, 0);
      assert degree != k - 1 ==> At(q + [top], degree - (k - 1)) == At(q, degree - 1 - (k - 1));
      MulZero(G(k - 1));
    }
  }

  lemma MulZero(a: bv32)
    ensures Mul(0, a) == 0
  {
  }

  lemma {:induction false} TermsNone(q: seq<bv32>, degree: int, k: nat)
    requires q == [] || degree < 0
    ensures Terms(q, degree, k) == 0
  {
    hide Xor, Mul, G;
    XorLaws(0, 0, 0);
    if k > 0 {
      TermsNone(q, degree, k - 1);
      MulZero(G(k - 1));
    }
  }

  lemma MulLead(a: bv32)
    requires a < 32
    ensures Mul(a, G(6)) == a
  {
    NoZeroDivisors(a, 0);
    hide Mul;
  }

  /** The quotient that long division builds: the symbols shifted out at the top, one a step. */
  function Quotient(start: bv32, symbols: seq<bv32>): seq<bv32> {
    if symbols == [] then []
    else
      var n := |symbols| - 1;
      Quotient(start, symbols[..n]) + [Coeff(From(start, symbols[..n]), 5)]
  }

  /** The checksum is the remainder of the text, with a leading 1, modulo the generator polynomial. */
  lemma {:induction false} PolymodIsRemainder(symbols: seq<bv32>)
    requires Symbols(symbols)
    ensures Divides([1] + symbols, Quotient(1, symbols), Polymod(symbols))
  {
    hide Coeff, Step, Xor, Small;
    if symbols == [] {
      forall degree: nat ensures At([1], degree) == Xor(TimesG([], degree), Coeff(1, degree)) {
        TermsNone([], degree, 7);
        CoeffSymbol(1, degree);
        XorLaws(Coeff(1, degree), 0, 0);
      }
      SmallSymbol(1);
    } else {
      var n := |symbols| - 1;
      PolymodIsRemainder(symbols[..n]);
      var chk := Polymod(symbols[..n]);
      assert [1] + symbols == ([1] + symbols[..n]) + [symbols[n]];
      DivideOn([1] + symbols[..n], Quotient(1, symbols[..n]), chk, symbols[n]);
    }
  }

  /** One step of long division. */
  lemma DivideOn(text: seq<bv32>, q: seq<bv32>, chk: bv32, symbol: bv32)
    requires Divides(text, q, chk) && symbol < 32
    ensures Divides(text + [symbol], q + [Coeff(chk, 5)], Step(chk, symbol))
  {
    hide Coeff, Step, Xor, TimesG, Mul, Small, G;
    var top := Coeff(chk, 5);
    ShiftedParts(chk, 5);
    SmallSymbol(symbol);
    StepSmall(chk, symbol);
    forall degree: nat
      ensures At(text + [symbol], degree) == Xor(TimesG(q + [top], degree), Coeff(Step(chk, symbol), degree))
    {
      DigitOn(text, q, chk, symbol, degree);
    }
  }

  lemma SmallSymbol(symbol: bv32)
    requires symbol < 32
    ensures Small(symbol)
  {
  }

  lemma DigitOn(text: seq<bv32>, q: seq<bv32>, chk: bv32, symbol: bv32, degree: nat)
    requires Divides(text, q, chk) && symbol < 32
    ensures At(text + [symbol], degree) == Xor(TimesG(q + [Coeff(chk, 5)], degree), Coeff(Step(chk, symbol), degree))
  {
    hide Coeff, Step, Xor, Mul, Small, G, Terms;
    TermsAppend(q, Coeff(chk, 5), degree, 7);
    SmallSymbol(symbol);
    StepSmall(chk, symbol);
    XorLaws(TimesG(q, degree - 1), 0, 0);
    if degree < 6 {
      StepIsTimesX(chk, symbol, degree);
      var moved, product := At(text + [symbol], degree), Mul(Coeff(chk, 5), G(degree));
      if degree == 0 {
        TermsNone(q, -1, 7);
        XorLaws(product, 0, 0);
        XorLaws(product, symbol, product);
        XorLaws(symbol, 0, 0);
      } else {
        XorPairs(TimesG(q, degree - 1), product, Coeff(chk, degree - 1), product);
        XorLaws(product, 0, 0);
        XorLaws(moved, 0, 0);
      }
    } else {
      CoeffHigh(Step(chk, symbol), degree);
      ShiftedParts(chk, 5);
      if degree == 6 {
        MulLead(Coeff(chk, 5));
      } else {
        CoeffHigh(chk, degree - 1);
      }
      assert At(text + [symbol], degree) == At(text, degree - 1);
      XorLaws(TimesG(q + [Coeff(chk, 5)], degree), 0, 0);
    }
  }

  lemma {:induction false} TermsSame(p: seq<bv32>, q: seq<bv32>, degree: int, k: nat)
    requires forall d: int :: degree - k < d <= degree ==> At(p, d) == At(q, d)
    ensures Terms(p, degree, k) == Terms(q, degree, k)
  {
    hide Xor, Mul, G, At;
    if k > 0 {
      TermsSame(p, q, degree, k - 1);
    }
  }

  /** The generator's leading coefficient is 1: quotients that agree above degree m agree at m. */
  lemma QuotientStep(text: seq<bv32>, p: seq<bv32>, q: seq<bv32>, a: bv32, b: bv32, m: nat)
    requires Divides(text, p, a) && Divides(text, q, b)
    requires forall degree: int :: degree > m ==> At(p, degree) == At(q, degree)
    ensures At(p, m) == At(q, m)
  {
    hide Xor, Mul, G, Coeff, Small, At;
    TermsSame(p, q, m + 6, 6);
    CoeffHigh(a, m + 6);
    CoeffHigh(b, m + 6);
    XorLaws(TimesG(p, m + 6), 0, 0);
    XorLaws(TimesG(q, m + 6), 0, 0);
    XorInjective(Terms(p, m + 6, 6), Mul(At(p, m), G(6)), Mul(At(q, m), G(6)));
    AtSymbol(p, m);
    AtSymbol(q, m);
    MulLead(At(p, m));
    MulLead(At(q, m));
  }

  lemma AtSymbol(p: seq<bv32>, degree: int)
    requires Symbols(p)
    ensures At(p, degree) < 32
  {
  }

  lemma {:induction false} QuotientsAgree(text: seq<bv32>, p: seq<bv32>, q: seq<bv32>, a: bv32, b: bv32, m: nat)
    requires Divides(text, p, a) && Divides(text, q, b)
    ensures forall degree: int :: degree >= m ==> At(p, degree) == At(q, degree)
    decreases |p| + |q| - m
  {
    if m < |p| + |q| {
      QuotientsAgree(text, p, q, a, b, m + 1);
      QuotientStep(text, p, q, a, b, m);
    }
    hide Divides;
  }

  lemma SixDetermine(a: bv32, b: bv32)
    requires Small(a) && Small(b) && a & 31 == b & 31 && (a >> 5) & 31 == (b >> 5) & 31
    requires (a >> 10) & 31 == (b >> 10) & 31 && (a >> 15) & 31 == (b >> 15) & 31
    requires (a >> 20) & 31 == (b >> 20) & 31 && (a >> 25) & 31 == (b >> 25) & 31
    ensures a == b
  {
  }

  lemma CoeffsDetermine(a: bv32, b: bv32)
    requires Small(a) && Small(b) && forall degree: nat :: degree < 6 ==> Coeff(a, degree) == Coeff(b, degree)
    ensures a == b
  {
    hide Coeff, Small;
    CoeffOpen(a);
    CoeffOpen(b);
    assert Coeff(a, 0) == Coeff(b, 0) && Coeff(a, 1) == Coeff(b, 1) && Coeff(a, 2) == Coeff(b, 2);
    assert Coeff(a, 3) == Coeff(b, 3) && Coeff(a, 4) == Coeff(b, 4) && Coeff(a, 5) == Coeff(b, 5);
    SixDetermine(a, b);
  }

  /** There is only one remainder, whatever the quotient. */
  lemma RemainderUnique(text: seq<bv32>, p: seq<bv32>, q: seq<bv32>, a: bv32, b: bv32)
    requires Divides(text, p, a) && Divides(text, q, b)
    ensures a == b
  {
    QuotientsAgree(text, p, q, a, b, 0);
    forall degree: nat | degree < 6 ensures Coeff(a, degree) == Coeff(b, degree) {
      TermsSame(p, q, degree, 7);
      XorInjective(TimesG(p, degree), Coeff(a, degree), Coeff(b, degree));
    }
    hide Coeff;
    CoeffsDetermine(a, b);
  }

  /** The text, with its prefix expanded and a leading 1, leaves this remainder modulo the generator polynomial. */
  ghost predicate Leaves(hrp: seq<bv32>, data: seq<bv32>, remainder: bv32) {
    exists q :: Divides([1] + (HrpExpand(hrp) + data), q, remainder)
  }

  /** A text is accepted exactly when it leaves the remainder 1 or BIP 350's constant. */
  lemma AcceptedIff(hrp: seq<bv32>, data: seq<bv32>)
    requires Symbols(data) && forall i :: 0 <= i < |hrp| ==> hrp[i] < 0x400
    ensures VerifyChecksum(hrp, data) <==> Leaves(hrp, data, 1) || Leaves(hrp, data, 0x2BC830A3)
  {
    hide Divides, From, Quotient;
    var symbols := HrpExpand(hrp) + data;
    ExpandedSymbols(hrp);
    PolymodIsRemainder(symbols);
    if Leaves(hrp, data, 1) {
      var q :| Divides([1] + symbols, q, 1);
      RemainderUnique([1] + symbols, Quotient(1, symbols), q, Polymod(symbols), 1);
    }
    if Leaves(hrp, data, 0x2BC830A3) {
      var q :| Divides([1] + symbols, q, 0x2BC830A3);
      RemainderUnique([1] + symbols, Quotient(1, symbols), q, Polymod(symbols), 0x2BC830A3);
    }
  }

  lemma ExpandedSymbols(hrp: seq<bv32>)
    requires forall i :: 0 <= i < |hrp| ==> hrp[i] < 0x400
    ensures Symbols(HrpExpand(hrp))
  {
  }

  // ----- one valid text of each standard

  ghost predicate Chain(symbols: seq<bv32>, states: seq<bv32>) {
    && |states| == |symbols| + 1
    && forall k :: 0 <= k < |symbols| ==> states[k + 1] == Step(states[k], symbols[k])
  }

  lemma {:induction false} ChainReaches(symbols: seq<bv32>, states: seq<bv32>)
    requires Chain(symbols, states)
    ensures From(states[0], symbols) == states[|symbols|]
  {
    hide Step;
    if symbols != [] {
      ChainReaches(symbols[..|symbols| - 1], states[..|symbols|]);
    }
  }

  lemma {:induction false} FromOn(start: bv32, a: seq<bv32>, b: seq<bv32>)
    ensures From(start, a + b) == From(From(start, a), b)
  {
    hide Step;
    if b == [] {
      assert a + b == a;
    } else {
      var n := |b| - 1;
      FromOn(start, a, b[..n]);
      assert (a + b)[..|a + b| - 1] == a + b[..n];
    }
  }

  lemma StepValue(chk: bv32, symbol: bv32)
    ensures Step(chk, symbol) ==
            Xor(Xor(Kept(chk), Xor(Xor(Xor(Xor(Xor(0, Pick(Top(chk), 0)), Pick(Top(chk), 1)), Pick(Top(chk), 2)),
                                           Pick(Top(chk), 3)), Pick(Top(chk), 4))), symbol)
  {
    hide Xor, Kept, Top, Pick, Selected;
    SelectedOpen(Top(chk));
  }

  lemma Bech32Half()
    ensures From(1, [3, 0, 1, 10, 28]) == 0x230055C
  {
    var states := [1, 0x23, 0x460, 0x8C01, 0x11802A, 0x230055C];
    StepValue(1, 3);
    StepValue(0x23, 0);
    StepValue(0x460, 1);
    StepValue(0x8C01, 10);
    StepValue(0x11802A, 28);
    hide Step;
    ChainReaches([3, 0, 1, 10, 28], states);
  }

  /** BIP 173's valid text A12UEL5L, in symbols. */
  lemma Bech32Text()
    ensures Polymod(HrpExpand([97]) + [10, 28, 25, 31, 20, 31]) == 1
    ensures VerifyChecksum([97], [10, 28, 25, 31, 20, 31])
  {
    var states := [0x230055C, 0x3D6AFC2B, 0x2F84386, 0x24622766, 1];
    StepValue(0x230055C, 25);
    StepValue(0x3D6AFC2B, 31);
    StepValue(0x2F84386, 20);
    StepValue(0x24622766, 31);
    hide Step;
    assert HrpExpand([97]) == [3, 0, 1];
    assert HrpExpand([97]) + [10, 28, 25, 31, 20, 31] == [3, 0, 1, 10, 28] + [25, 31, 20, 31];
    hide HrpExpand, From;
    Bech32Half();
    FromOn(1, [3, 0, 1, 10, 28], [25, 31, 20, 31]);
    ChainReaches([25, 31, 20, 31], states);
  }

  lemma Bech32mHalf()
    ensures From(1, [3, 0, 1, 31, 0]) == 0x23007E0
  {
    var states := [1, 0x23, 0x460, 0x8C01, 0x11803F, 0x23007E0];
    StepValue(1, 3);
    StepValue(0x23, 0);
    StepValue(0x460, 1);
    StepValue(0x8C01, 31);
    StepValue(0x11803F, 0);
    hide Step;
    ChainReaches([3, 0, 1, 31, 0], states);
  }

  /** BIP 350's valid text A1LQFN3A, in symbols. */
  lemma Bech32mText()
    ensures Polymod(HrpExpand([97]) + [31, 0, 9, 19, 17, 29]) == 0x2BC830A3
    ensures VerifyChecksum([97], [31, 0, 9, 19, 17, 29])
  {
    var states := [0x23007E0, 0x3D6AABBB, 0x2F2B18A, 0x253C66E3, 0x2BC830A3];
    StepValue(0x23007E0, 9);
    StepValue(0x3D6AABBB, 19);
    StepValue(0x2F2B18A, 17);
    StepValue(0x253C66E3, 29);
    hide Step;
    assert HrpExpand([97]) == [3, 0, 1];
    assert HrpExpand([97]) + [31, 0, 9, 19, 17, 29] == [3, 0, 1, 31, 0] + [9, 19, 17, 29];
    hide HrpExpand, From;
    Bech32mHalf();
    FromOn(1, [3, 0, 1, 31, 0], [9, 19, 17, 29]);
    ChainReaches([9, 19, 17, 29], states);
  }
}
