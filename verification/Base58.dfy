/**
 Base58 texts, as the wallet (wallet_service.py) and the provider (withdrawal_provider_service/app.py) decode them.
 */
module Base58 {
  import opened Tables

  type Byte = b: int | 0 <= b < 256

  const ALPHABET := "123456789" + "ABCDEFGH" + "JKLMN" + "PQRSTUVWXYZ" + "abcdefghijk" + "mnopqrstuvwxyz"

  /** str.find: the position of the first occurrence of c from position i on. */
  function Find(alphabet: string, c: char, i: nat): (found: Option<nat>)
    requires i <= |alphabet|
    ensures found.Some? ==> i <= found.value < |alphabet| && alphabet[found.value] == c
    ensures found.None? ==> c !in alphabet[i..]
    decreases |alphabet| - i
  {
    if i == |alphabet| then None
    else if alphabet[i] == c then Some(i)
    else Find(alphabet, c, i + 1)
  }

  function Digit(c: char): (d: Option<nat>)
    ensures d.Some? ==> d.value < 58 && ALPHABET[d.value] == c
    ensures d == Some(0) <==> c == '1'
  {
    assert |ALPHABET| == 58 && ALPHABET[0] == '1';
    Find(ALPHABET, c, 0)
  }

  function AddDigit(number: Option<nat>, digit: Option<nat>): Option<nat> {
    if number.None? || digit.None? then None else Some(number.value * 58 + digit.value)
  }

  /** The number a text denotes, most significant digit first. */
  function Number(raw: string): Option<nat> {
    if raw == [] then Some(0) else AddDigit(Number(raw[..|raw| - 1]), Digit(raw[|raw| - 1]))
  }

  /** int.to_bytes with the fewest bytes, big-endian; nothing for 0. */
  function Bytes(num: nat): seq<Byte> {
    if num == 0 then [] else Bytes(num / 256) + [num % 256]
  }

  function LeadingOnes(raw: string): (n: nat)
    ensures n <= |raw|
    ensures forall i :: 0 <= i < n ==> raw[i] == '1'
    ensures n < |raw| ==> raw[n] != '1'
  {
    if raw == [] || raw[0] != '1' then 0 else 1 + LeadingOnes(raw[1..])
  }

  function Zeros(n: nat): seq<Byte> {
    seq(n, i => 0)
  }

  function DecodeRaw(raw: string): Option<seq<Byte>> {
    var num := Number(raw);
    if num.None? then None else Some(Zeros(LeadingOnes(raw)) + Bytes(num.value))
  }

  method DecodeRawText(raw: string) returns (r: Option<seq<Byte>>)
    ensures r == DecodeRaw(raw)
  {
    var num := 0;
    for i := 0 to |raw|
      invariant Number(raw[..i]) == Some(num)
    {
      var digit := Digit(raw[i]);
      assert raw[..i + 1][..i] == raw[..i];
      if digit.None? {
        NotADigit(raw, i);
        return None;
      }
      num := num * 58 + digit.value;
    }
    assert raw[..|raw|] == raw;
    return Some(Zeros(LeadingOnes(raw)) + Bytes(num));
  }

  lemma {:induction false} NotADigit(raw: string, i: nat)
    requires i < |raw| && Digit(raw[i]).None?
    ensures Number(raw).None?
  {
    if i < |raw| - 1 {
      NotADigit(raw[..|raw| - 1], i);
    }
  }

  // ----- the bytes determine the number and the padding

  lemma {:induction false} BytesStartNonZero(num: nat)
    ensures Bytes(num) != [] ==> Bytes(num)[0] != 0
    ensures Bytes(num) == [] <==> num == 0
  {
    if num != 0 {
      BytesStartNonZero(num / 256);
    }
  }

  /** int.from_bytes, big-endian. */
  function FromBytes(bytes: seq<Byte>): nat {
    if bytes == [] then 0 else FromBytes(bytes[..|bytes| - 1]) * 256 + bytes[|bytes| - 1]
  }

  /** Reading the bytes back gives the number, whatever the padding. */
  lemma {:induction false} BytesReadBack(p: nat, num: nat)
    ensures FromBytes(Zeros(p) + Bytes(num)) == num
    decreases num, p
  {
    var whole := Zeros(p) + Bytes(num);
    if num != 0 {
      BytesReadBack(p, num / 256);
      assert whole[..|whole| - 1] == Zeros(p) + Bytes(num / 256);
    } else if p != 0 {
      BytesReadBack(p - 1, 0);
      assert whole[..|whole| - 1] == Zeros(p - 1) + Bytes(0);
    }
  }

  function LeadingZeros(bytes: seq<Byte>): nat {
    if bytes == [] || bytes[0] != 0 then 0 else 1 + LeadingZeros(bytes[1..])
  }

  lemma {:induction false} PaddingCounted(p: nat, m: nat)
    ensures LeadingZeros(Zeros(p) + Bytes(m)) == p
  {
    if p == 0 {
      BytesStartNonZero(m);
      assert Zeros(0) + Bytes(m) == Bytes(m);
    } else {
      PaddingCounted(p - 1, m);
      assert (Zeros(p) + Bytes(m))[1..] == Zeros(p - 1) + Bytes(m);
    }
  }

  lemma PaddingInjective(p: nat, m: nat, q: nat, n: nat)
    requires Zeros(p) + Bytes(m) == Zeros(q) + Bytes(n)
    ensures p == q && m == n
  {
    PaddingCounted(p, m);
    PaddingCounted(q, n);
    BytesReadBack(p, m);
    BytesReadBack(q, n);
  }

  // ----- the number and the padding determine the text

  lemma {:induction false} OnesAddNothing(raw: string, ones: nat)
    requires ones <= |raw| && forall i :: 0 <= i < ones ==> raw[i] == '1'
    ensures Number(raw) == Number(raw[ones..])
  {
    hide AddDigit, Digit;
    if |raw| == ones {
      AllOnes(raw);
    } else {
      var n, rest := |raw| - 1, raw[ones..];
      OnesAddNothing(raw[..n], ones);
      assert rest[..|rest| - 1] == raw[..n][ones..] && rest[|rest| - 1] == raw[n];
    }
  }

  lemma {:induction false} AllOnes(raw: string)
    requires forall i :: 0 <= i < |raw| ==> raw[i] == '1'
    ensures Number(raw) == Some(0)
  {
    if raw != [] {
      AllOnes(raw[..|raw| - 1]);
    }
  }

  lemma {:induction false} PositiveWithoutOnes(raw: string)
    requires raw != [] && raw[0] != '1' && Number(raw).Some?
    ensures Number(raw).value > 0
  {
    if |raw| > 1 {
      PositiveWithoutOnes(raw[..|raw| - 1]);
    }
  }

  /** Base-58 digits without a leading zero digit are unique. */
  lemma {:induction false} DigitsUnique(a: string, b: string)
    requires (a != [] ==> a[0] != '1') && (b != [] ==> b[0] != '1')
    requires Number(a).Some? && Number(a) == Number(b)
    ensures a == b
  {
    if a != [] { PositiveWithoutOnes(a); }
    if b != [] { PositiveWithoutOnes(b); }
    if a != [] && b != [] {
      var m, n := |a| - 1, |b| - 1;
      var x, y := Digit(a[m]).value, Digit(b[n]).value;
      LastDigit(Number(a[..m]).value, x, Number(b[..n]).value, y);
      DigitsUnique(a[..m], b[..n]);
      assert a == a[..m] + [a[m]] && b == b[..n] + [b[n]];
    }
  }

  lemma LastDigit(p: nat, x: nat, q: nat, y: nat)
    requires p * 58 + x == q * 58 + y && x < 58 && y < 58
    ensures p == q && x == y
  {
  }

  /** Two different texts that both decode give different byte strings. */
  lemma DecodeInjective(a: string, b: string)
    requires DecodeRaw(a).Some? && DecodeRaw(a) == DecodeRaw(b)
    ensures a == b
  {
    var p, q := LeadingOnes(a), LeadingOnes(b);
    PaddingInjective(p, Number(a).value, q, Number(b).value);
    OnesAddNothing(a, p);
    OnesAddNothing(b, q);
    DigitsUnique(a[p..], b[q..]);
    assert a == a[..p] + a[p..] && b == b[..q] + b[q..];
    assert a[..p] == b[..q];
  }

  // ----- an encoder: every byte string has a text

  /** The value of a character by where it lies; 0, I, O and l are left out. */
  function ValueOf(c: char): (v: Option<nat>)
    ensures v.Some? ==> v.value < 58
  {
    if '1' <= c <= '9' then Some(c as int - '1' as int)
    else if 'A' <= c <= 'H' then Some(9 + (c as int - 'A' as int))
    else if 'J' <= c <= 'N' then Some(17 + (c as int - 'J' as int))
    else if 'P' <= c <= 'Z' then Some(22 + (c as int - 'P' as int))
    else if 'a' <= c <= 'k' then Some(33 + (c as int - 'a' as int))
    else if 'm' <= c <= 'z' then Some(44 + (c as int - 'm' as int))
    else None
  }

  function Symbol(d: nat): char
    requires d < 58
  {
    ALPHABET[d]
  }

  lemma UpperInOrder(d: nat)
    requires d < 33
    ensures ValueOf(Symbol(d)) == Some(d)
  {
  }

  lemma LowerInOrder(d: nat)
    requires 33 <= d < 58
    ensures ValueOf(Symbol(d)) == Some(d)
  {
  }

  lemma SymbolInOrder(d: nat)
    requires d < 58
    ensures ValueOf(Symbol(d)) == Some(d)
  {
    hide ValueOf, Symbol;
    if d < 33 {
      UpperInOrder(d);
    } else {
      LowerInOrder(d);
    }
  }

  lemma SameValue(c: char, d: char)
    requires ValueOf(c).Some? && ValueOf(c) == ValueOf(d)
    ensures c == d
  {
  }

  lemma Listed(c: char)
    requires ValueOf(c).Some?
    ensures Digit(c).Some?
  {
    hide ValueOf;
    SymbolInOrder(ValueOf(c).value);
    SameValue(c, Symbol(ValueOf(c).value));
    assert ALPHABET[0..] == ALPHABET;
  }

  /** The digits are 1 to 9, A to Z without I and O, and a to z without l, in this order. */
  lemma DigitIsValue(c: char)
    ensures Digit(c) == ValueOf(c)
  {
    hide ValueOf, Find;
    if Digit(c).Some? {
      SymbolInOrder(Digit(c).value);
    } else if ValueOf(c).Some? {
      Listed(c);
    }
  }

  function Text58(num: nat): string {
    if num == 0 then "" else Text58(num / 58) + [Symbol(num % 58)]
  }

  function Ones(n: nat): string {
    seq(n, i => '1')
  }

  function Encode(bytes: seq<Byte>): string {
    Ones(LeadingZeros(bytes)) + Text58(FromBytes(bytes))
  }

  lemma {:induction false} Text58Reads(num: nat)
    ensures Number(Text58(num)) == Some(num)
    ensures Text58(num) != [] ==> Text58(num)[0] != '1'
  {
    hide Symbol, ValueOf, Digit;
    if num != 0 {
      Text58Reads(num / 58);
      SymbolInOrder(num % 58);
      DigitIsValue(Symbol(num % 58));
      assert Text58(num)[..|Text58(num)| - 1] == Text58(num / 58);
    }
  }

  lemma {:induction false} OnesCounted(n: nat, rest: string)
    requires rest != [] ==> rest[0] != '1'
    ensures LeadingOnes(Ones(n) + rest) == n
  {
    if n == 0 {
      assert Ones(0) + rest == rest;
    } else {
      OnesCounted(n - 1, rest);
      assert (Ones(n) + rest)[1..] == Ones(n - 1) + rest;
    }
  }

  lemma {:induction false} BytesOfNumber(bytes: seq<Byte>)
    requires bytes != [] ==> bytes[0] != 0
    ensures Bytes(FromBytes(bytes)) == bytes
  {
    if bytes != [] {
      var n := |bytes| - 1;
      BytesOfNumber(bytes[..n]);
      assert FromBytes(bytes) != 0;
      assert FromBytes(bytes) / 256 == FromBytes(bytes[..n]) && FromBytes(bytes) % 256 == bytes[n];
    }
  }

  lemma {:induction false} ZeroInFront(bytes: seq<Byte>)
    requires bytes != [] && bytes[0] == 0
    ensures FromBytes(bytes) == FromBytes(bytes[1..])
  {
    var n := |bytes| - 1;
    if n > 0 {
      ZeroInFront(bytes[..n]);
      assert bytes[1..][..n - 1] == bytes[..n][1..];
    }
  }

  lemma {:induction false} PaddedBytes(bytes: seq<Byte>)
    ensures Zeros(LeadingZeros(bytes)) + Bytes(FromBytes(bytes)) == bytes
  {
    if bytes == [] || bytes[0] != 0 {
      BytesOfNumber(bytes);
      assert Zeros(0) + bytes == bytes;
    } else {
      PaddedBytes(bytes[1..]);
      ZeroInFront(bytes);
      var n := LeadingZeros(bytes);
      assert Zeros(n) == [0] + Zeros(n - 1);
    }
  }

  /** Every byte string has a text that decodes to it; by injectivity it is the only one. */
  lemma EncodeDecodes(bytes: seq<Byte>)
    ensures DecodeRaw(Encode(bytes)) == Some(bytes)
  {
    var n, num := LeadingZeros(bytes), FromBytes(bytes);
    Text58Reads(num);
    OnesCounted(n, Text58(num));
    OnesAddNothing(Encode(bytes), n);
    assert Encode(bytes)[n..] == Text58(num);
    PaddedBytes(bytes);
  }

  // ----- with a checksum

  /**
   The payload in front of four checksum bytes; the checksum itself is any function of the payload. The
   wallet asks for at least 5 bytes in all, the provider for at least 4.
   */
  function Decode(checksum: seq<Byte> -> seq<Byte>, shortest: nat, raw: string): Option<seq<Byte>>
    requires shortest >= 4
  {
    var full := DecodeRaw(raw);
    if full.None? || |full.value| < shortest then None
    else
      var n := |full.value| - 4;
      if checksum(full.value[..n]) == full.value[n..] then Some(full.value[..n]) else None
  }

  /** A payload has only one accepted text. */
  lemma CheckedDecodeInjective(checksum: seq<Byte> -> seq<Byte>, shortest: nat, a: string, b: string)
    requires shortest >= 4 && Decode(checksum, shortest, a).Some?
    requires Decode(checksum, shortest, a) == Decode(checksum, shortest, b)
    ensures a == b
  {
    var x, y := DecodeRaw(a).value, DecodeRaw(b).value;
    assert x == x[..|x| - 4] + x[|x| - 4..];
    assert y == y[..|y| - 4] + y[|y| - 4..];
    DecodeInjective(a, b);
  }
}
