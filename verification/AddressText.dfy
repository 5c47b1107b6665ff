/** Splitting, joining and printing of address text. */
module AddressText {
  import opened Text

  function DigitChar(d: nat): (c: char)
    requires d < 10
    ensures IsDigit(c) && (c - '0') as nat == d
  {
    '0' + d as char
  }

  /** A number in decimal, without leading zeros. */
  function DecText(n: nat): string {
    if n < 10 then [DigitChar(n)] else DecText(n / 10) + [DigitChar(n % 10)]
  }

  lemma DecValueSnoc(s: string, d: char)
    requires AllDigits(s) && IsDigit(d)
    ensures AllDigits(s + [d]) && DecValue(s + [d]) == 10 * DecValue(s) + (d - '0') as nat
  {
    assert (s + [d])[..|s|] == s;
  }

  lemma {:induction false} DecTextValue(n: nat)
    ensures IsDigits(DecText(n)) && DecValue(DecText(n)) == n
  {
    if n >= 10 {
      DecTextValue(n / 10);
      DecValueSnoc(DecText(n / 10), DigitChar(n % 10));
    } else {
      DecValueSnoc("", DigitChar(n));
      assert "" + [DigitChar(n)] == [DigitChar(n)];
    }
  }

  function HexChar(d: nat): (c: char)
    requires d < 16
    ensures IsHexChar(c) && HexDigit(c) == d
  {
    if d < 10 then '0' + d as char else 'a' + (d - 10) as char
  }

  /** A number in lower-case hexadecimal, without leading zeros. */
  function HexText(n: nat): string {
    if n < 16 then [HexChar(n)] else HexText(n / 16) + [HexChar(n % 16)]
  }

  lemma HexValueSnoc(s: string, d: char)
    requires AllHex(s) && IsHexChar(d)
    ensures AllHex(s + [d]) && HexValue(s + [d]) == 16 * HexValue(s) + HexDigit(d)
  {
    assert (s + [d])[..|s|] == s;
  }

  lemma {:induction false} HexTextValue(n: nat)
    ensures AllHex(HexText(n)) && HexText(n) != "" && HexValue(HexText(n)) == n
    ensures n < 65536 ==> |HexText(n)| <= 4
  {
    if n >= 16 {
      HexTextValue(n / 16);
      HexValueSnoc(HexText(n / 16), HexChar(n % 16));
      if n < 65536 {
        HexTextLength(n / 16, 3);
      }
    } else {
      HexValueSnoc("", HexChar(n));
      assert "" + [HexChar(n)] == [HexChar(n)];
    }
  }

  lemma {:induction false} HexTextLength(n: nat, k: nat)
    requires (k == 3 && n < 4096) || (k == 2 && n < 256) || (k == 1 && n < 16)
    ensures |HexText(n)| <= k
    decreases k
  {
    if k > 1 && n >= 16 {
      HexTextLength(n / 16, k - 1);
    }
  }

  /** The pieces of a text between the separators, never none. */
  function Split(s: string, sep: char): (r: seq<string>)
    ensures |r| >= 1
  {
    if s == "" then [""]
    else
      var rest := Split(s[1..], sep);
      if s[0] == sep then [""] + rest else [[s[0]] + rest[0]] + rest[1..]
  }

  function Join(parts: seq<string>, sep: char): string {
    if parts == [] then "" else if |parts| == 1 then parts[0] else parts[0] + [sep] + Join(parts[1..], sep)
  }

  lemma {:induction false} SplitPlain(a: string, sep: char)
    requires sep !in a
    ensures Split(a, sep) == [a]
  {
    if a != "" {
      SplitPlain(a[1..], sep);
      assert [a[0]] + a[1..] == a;
    }
  }

  lemma {:induction false} SplitAt(a: string, sep: char, b: string)
    requires sep !in a
    ensures Split(a + [sep] + b, sep) == [a] + Split(b, sep)
  {
    var s := a + [sep] + b;
    if a == "" {
      assert s[1..] == b;
    } else {
      SplitAt(a[1..], sep, b);
      assert s[1..] == a[1..] + [sep] + b;
      assert [a[0]] + a[1..] == a;
    }
  }

  /** Splitting inverts joining when no part contains the separator. */
  lemma {:induction false} SplitJoin(parts: seq<string>, sep: char)
    requires parts != [] && forall i :: 0 <= i < |parts| ==> sep !in parts[i]
    ensures Split(Join(parts, sep), sep) == parts
  {
    if |parts| == 1 {
      SplitPlain(parts[0], sep);
    } else {
      SplitJoin(parts[1..], sep);
      SplitAt(parts[0], sep, Join(parts[1..], sep));
    }
  }

  lemma {:induction false} JoinAvoids(parts: seq<string>, sep: char, c: char)
    requires c != sep && forall i :: 0 <= i < |parts| ==> c !in parts[i]
    ensures c !in Join(parts, sep)
  {
    if |parts| > 1 {
      JoinAvoids(parts[1..], sep, c);
    }
  }
}
