/** The little string handling the keys and replies depend on. */
module Text {

  predicate IsDigit(c: char) {
    '0' <= c <= '9'
  }

  /** str(n) for a row id. */
  function NatText(n: nat): (s: string)
    ensures |s| > 0 && (|s| == 1 <==> n < 10)
    ensures forall i :: 0 <= i < |s| ==> IsDigit(s[i])
  {
    if n < 10 then ["0123456789"[n]] else NatText(n / 10) + ["0123456789"[n % 10]]
  }

  /** The number that decimal digits denote. */
  function DigitsValue(s: string): int {
    if s == [] then 0 else DigitsValue(s[..|s| - 1]) * 10 + (s[|s| - 1] as int - '0' as int)
  }

  /** The text of a number is its decimal digits. */
  lemma {:induction false} NatTextReadsBack(n: nat)
    ensures DigitsValue(NatText(n)) == n
  {
    var s := NatText(n);
    assert s[|s| - 1] as int - '0' as int == n % 10;
    if n < 10 {
      assert s[..|s| - 1] == [];
    } else {
      NatTextReadsBack(n / 10);
      assert s[..|s| - 1] == NatText(n / 10);
    }
  }

  /** A number followed by a ':' can be read back from the front of a text. */
  lemma NumberThenColon(m: nat, n: nat, a: string, b: string)
    requires NatText(m) + ":" + a == NatText(n) + ":" + b
    ensures m == n && a == b
  {
    var x, y := NatText(m), NatText(n);
    var whole := x + ":" + a;
    assert whole == y + ":" + b;
    assert whole[|x|] == whole[|y|] == ':';
    assert forall i :: 0 <= i < |x| ==> whole[i] == x[i];
    assert forall i :: 0 <= i < |y| ==> whole[i] == y[i];
    assert |x| == |y|;
    assert x == whole[..|x|] && y == whole[..|y|];
    NatTextReadsBack(m);
    NatTextReadsBack(n);
    assert a == whole[|x| + 1..] && b == whole[|y| + 1..];
  }

  predicate IsSpace(c: char) {
    c == ' ' || '\t' <= c <= '\r'
  }

  function LStrip(s: string): string {
    if s != [] && IsSpace(s[0]) then LStrip(s[1..]) else s
  }

  function RStrip(s: string): string {
    if s != [] && IsSpace(s[|s| - 1]) then RStrip(s[..|s| - 1]) else s
  }

  /** str.strip() on ASCII white space. */
  function Strip(s: string): string {
    RStrip(LStrip(s))
  }

  predicate AllSpace(s: string) {
    forall i :: 0 <= i < |s| ==> IsSpace(s[i])
  }

  lemma {:induction false} RStripped(s: string)
    ensures RStrip(s) <= s && AllSpace(s[|RStrip(s)|..])
    ensures RStrip(s) != [] ==> !IsSpace(RStrip(s)[|RStrip(s)| - 1])
  {
    if s != [] && IsSpace(s[|s| - 1]) {
      var n, k := |s| - 1, |RStrip(s)|;
      RStripped(s[..n]);
      forall i | 0 <= i < |s| - k ensures IsSpace(s[k..][i]) {
        assert s[k..][i] == if k + i < n then s[..n][k..][i] else s[n];
      }
    }
  }

  lemma {:induction false} LStripped(s: string)
    ensures |LStrip(s)| <= |s| && LStrip(s) == s[|s| - |LStrip(s)|..] && AllSpace(s[..|s| - |LStrip(s)|])
    ensures LStrip(s) != [] ==> !IsSpace(LStrip(s)[0])
  {
    if s != [] && IsSpace(s[0]) {
      LStripped(s[1..]);
      var k := |s| - |LStrip(s)|;
      assert s[1..][k - 1..] == s[k..];
      forall i | 0 <= i < k ensures IsSpace(s[..k][i]) {
        assert s[..k][i] == if i == 0 then s[0] else s[1..][..k - 1][i - 1];
      }
    }
  }

  /** What is stripped is white space in front and behind, and nothing of it is left at either end. */
  lemma StripParts(s: string) returns (front: string, back: string)
    ensures s == front + Strip(s) + back && AllSpace(front) && AllSpace(back)
    ensures Strip(s) != [] ==> !IsSpace(Strip(s)[0]) && !IsSpace(Strip(s)[|Strip(s)| - 1])
  {
    LStripped(s);
    RStripped(LStrip(s));
    front, back := s[..|s| - |LStrip(s)|], LStrip(s)[|Strip(s)|..];
  }

  lemma StripIdempotent(s: string)
    ensures Strip(Strip(s)) == Strip(s)
  {
    var front, back := StripParts(s);
  }
}
