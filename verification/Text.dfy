/**
 Character-level text: case folding, hexadecimal and decimal literals, and the
 shapes (address, bytes32, hex string, digit string) that both payment gates
 test with regular expressions.
 */
module Text {

  function LowerChar(c: char): char {
    if 'A' <= c <= 'Z' then (c - 'A') + 'a' else c
  }

  function Lower(s: string): (r: string)
    ensures |r| == |s|
    ensures forall i :: 0 <= i < |s| ==> r[i] == LowerChar(s[i])
  {
    seq(|s|, i requires 0 <= i < |s| => LowerChar(s[i]))
  }

  /** Case-insensitive equality of two texts. */
  predicate SameFold(a: string, b: string) {
    Lower(a) == Lower(b)
  }

  predicate IsDigit(c: char) {
    '0' <= c <= '9'
  }

  predicate IsHexChar(c: char) {
    IsDigit(c) || 'a' <= c <= 'f' || 'A' <= c <= 'F'
  }

  function HexDigit(c: char): (d: nat)
    requires IsHexChar(c)
    ensures d < 16
  {
    if IsDigit(c) then (c - '0') as nat
    else if 'a' <= c <= 'f' then (c - 'a') as nat + 10
    else (c - 'A') as nat + 10
  }

  predicate AllHex(s: string) {
    forall i :: 0 <= i < |s| ==> IsHexChar(s[i])
  }

  predicate AllDigits(s: string) {
    forall i :: 0 <= i < |s| ==> IsDigit(s[i])
  }

  function HexValue(s: string): nat
    requires AllHex(s)
  {
    if s == "" then 0 else 16 * HexValue(s[..|s| - 1]) + HexDigit(s[|s| - 1])
  }

  function DecValue(s: string): nat
    requires AllDigits(s)
  {
    if s == "" then 0 else 10 * DecValue(s[..|s| - 1]) + (s[|s| - 1] - '0') as nat
  }

  /** One decimal digit or more. */
  predicate IsDigits(s: string) {
    |s| > 0 && AllDigits(s)
  }

  predicate HasPrefix0x(s: string) {
    |s| >= 2 && s[0] == '0' && s[1] == 'x'
  }

  /** A prefix 0x, then hex digits, perhaps none. */
  predicate IsHexString(s: string) {
    HasPrefix0x(s) && forall i :: 2 <= i < |s| ==> IsHexChar(s[i])
  }

  /** Twenty bytes. */
  predicate IsAddress(s: string) {
    |s| == 42 && IsHexString(s)
  }

  /** Thirty-two bytes. */
  predicate IsBytes32(s: string) {
    |s| == 66 && IsHexString(s)
  }

  /** Sixty-five bytes. */
  predicate IsSignature65(s: string) {
    |s| == 132 && IsHexString(s)
  }

  /** The bytes a 0x-literal denotes, as a number. */
  function Bytes(s: string): nat
    requires IsHexString(s)
  {
    HexValue(s[2..])
  }

  /** Letter case is the only freedom two spellings of the same folded text have. */
  lemma FoldedPointwise(a: string, b: string)
    requires SameFold(a, b)
    ensures |a| == |b|
    ensures forall i :: 0 <= i < |a| ==> LowerChar(a[i]) == LowerChar(b[i])
  {
    assert |Lower(a)| == |Lower(b)|;
    forall i | 0 <= i < |a| ensures LowerChar(a[i]) == LowerChar(b[i]) {
      assert Lower(a)[i] == Lower(b)[i];
    }
  }

  lemma {:induction false} HexValueFold(a: string, b: string)
    requires AllHex(a) && AllHex(b)
    requires |a| == |b| && forall i :: 0 <= i < |a| ==> LowerChar(a[i]) == LowerChar(b[i])
    ensures HexValue(a) == HexValue(b)
  {
    if a != "" {
      HexValueFold(a[..|a| - 1], b[..|b| - 1]);
    }
  }

  /** A hex literal that folds onto another one has its shape exactly when its
      prefix is spelled with a small `x`, and then it denotes the same bytes. */
  lemma FoldedHexLiteral(a: string, b: string)
    requires SameFold(a, b) && IsHexString(b)
    ensures IsHexString(a) <==> HasPrefix0x(a)
    ensures HasPrefix0x(a) ==> Bytes(a) == Bytes(b)
  {
    FoldedPointwise(a, b);
    forall i | 2 <= i < |a| ensures IsHexChar(a[i]) {
      assert LowerChar(a[i]) == LowerChar(b[i]) && IsHexChar(b[i]);
    }
    if HasPrefix0x(a) {
      HexValueFold(a[2..], b[2..]);
    }
  }

  /** Folding never turns a non-digit into a digit, so digit strings compare exactly. */
  lemma FoldedDigits(a: string, b: string)
    requires SameFold(a, b) && AllDigits(b)
    ensures a == b
  {
    FoldedPointwise(a, b);
    forall i | 0 <= i < |a| ensures a[i] == b[i] {
      assert LowerChar(a[i]) == LowerChar(b[i]) && IsDigit(b[i]);
    }
  }
}
