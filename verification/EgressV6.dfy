/**
 zeus-secretariat/src/core/egress-guard.ts, IPv6: expanding address text to
 eight groups, prefix tests on the groups, and the whole private-or-reserved test.
 A group is the number `parseInt(g, 16)` yields, None for NaN: the source keeps
 it as text, one spelling per number.
 */
module EgressV6 {
  import opened Wrappers
  import opened Text
  import opened AddressText
  import opened Bits
  import opened EgressV4

  predicate IsSpace(c: char) {
    c == ' ' || c == '\t' || c == '\n' || c == '\r'
  }

  function TrimStart(s: string): string {
    if s != "" && IsSpace(s[0]) then TrimStart(s[1..]) else s
  }

  /** The longest prefix of hex digits. */
  function HexPrefix(s: string): (r: string)
    ensures AllHex(r)
  {
    if s != "" && IsHexChar(s[0]) then [s[0]] + HexPrefix(s[1..]) else ""
  }

  /** Leading hex digits read as a number, after white space, a sign and an 0x prefix; None when there are none. */
  function ParseIntHex(s: string): Option<int> {
    var trimmed := TrimStart(s);
    var signed := trimmed != "" && (trimmed[0] == '+' || trimmed[0] == '-');
    var unsigned := if signed then trimmed[1..] else trimmed;
    var digits := HexPrefix(if |unsigned| >= 2 && unsigned[0] == '0' && (unsigned[1] == 'x' || unsigned[1] == 'X')
                            then unsigned[2..] else unsigned);
    if digits == "" then None
    else if trimmed[0] == '-' then Some(0 - HexValue(digits) as int) else Some(HexValue(digits))
  }

  /** A bracket at the start and one at the end are dropped, each if present. */
  function StripBrackets(ip: string): string {
    var unbracketed := if ip != "" && ip[0] == '[' then ip[1..] else ip;
    if unbracketed != "" && unbracketed[|unbracketed| - 1] == ']' then unbracketed[..|unbracketed| - 1] else unbracketed
  }

  /** Brackets and zone id stripped. */
  function Clean(ip: string): string {
    Split(StripBrackets(ip), '%')[0]
  }

  // -- the dotted-quad tail -----------------------------------------------

  predicate IsQuadPart(part: string) {
    1 <= |part| <= 3 && AllDigits(part)
  }

  /** Position just after the last colon, 0 when there is none. */
  function AfterLastColon(s: string): (i: nat)
    ensures i <= |s|
  {
    if s == "" then 0 else if s[|s| - 1] == ':' then |s| else AfterLastColon(s[..|s| - 1])
  }

  predicate NoLineBreak(s: string) {
    '\n' !in s && '\r' !in s && '\U{2028}' !in s && '\U{2029}' !in s
  }

  /** The text with an embedded dotted quad rewritten as two groups; None when
      the quad is out of range. */
  function RewriteQuad(s: string): Option<string> {
    var i := AfterLastColon(s);
    var parts := Split(s[i..], '.');
    if i == 0 || !NoLineBreak(s[..i]) || |parts| != 4 || !(forall k :: 0 <= k < 4 ==> IsQuadPart(parts[k])) then Some(s)
    else
      var q := Quad(DecValue(parts[0]), DecValue(parts[1]), DecValue(parts[2]), DecValue(parts[3]));
      if !ValidQuad(q) then None
      else Some(s[..i] + HexText(q.a * 256 + q.b) + ":" + HexText(q.c * 256 + q.d))
  }

  // -- the double colon ---------------------------------------------------

  /** Position of the first "::", |s| when there is none. */
  function FirstDouble(s: string): (i: nat)
    ensures i <= |s|
    ensures i < |s| ==> i + 2 <= |s|
  {
    if |s| < 2 then |s| else if s[0] == ':' && s[1] == ':' then 0 else 1 + FirstDouble(s[1..])
  }

  function GroupsOf(s: string): seq<string> {
    if s == "" then [] else Split(s, ':')
  }

  function Parsed(groups: seq<string>): seq<Option<int>> {
    seq(|groups|, i requires 0 <= i < |groups| => ParseIntHex(groups[i]))
  }

  function Zeros(n: nat): seq<Option<int>> {
    seq(n, _ => Some(0))
  }

  /** The eight groups of a cleaned, quad-free text. */
  function ExpandGroups(s: string): Option<seq<Option<int>>> {
    var i := FirstDouble(s);
    if i == |s| then
      var head := Split(s, ':');
      if |head| > 8 then None else Some(Parsed(head) + Zeros(8 - |head|))
    else
      var rest := s[i + 2..];
      var head, tail := GroupsOf(s[..i]), GroupsOf(rest[..FirstDouble(rest)]);
      if |head| + |tail| > 8 then None else Some(Parsed(head) + Zeros(8 - |head| - |tail|) + Parsed(tail))
  }

  function ExpandV6(ip: string): (r: Option<seq<Option<int>>>)
    ensures r.Some? ==> |r.value| == 8
  {
    var rewritten := RewriteQuad(Clean(ip));
    if rewritten.None? then None else ExpandGroups(rewritten.value)
  }

  // -- prefixes -----------------------------------------------------------

  /** A group under a 16-bit mask; NaN masks to 0. */
  function MaskGroup(g: Option<int>, mask: nat): nat {
    And(if g.None? then 0 else g.value % 65536, mask)
  }

  /** The mask that keeps the high `rem` bits of a group. */
  function GroupMask(rem: nat): nat
    requires rem <= 16
  {
    And(0xffff * Pow2(16 - rem), 0xffff)
  }

  predicate GroupsInCidr(groups: seq<Option<int>>, prefix: seq<Option<int>>, bits: nat)
    requires |groups| == 8 && |prefix| == 8 && bits <= 128
  {
    && (forall i :: 0 <= i < bits / 16 ==> groups[i] == prefix[i])
    && (bits % 16 > 0 ==> MaskGroup(groups[bits / 16], GroupMask(bits % 16)) == MaskGroup(prefix[bits / 16], GroupMask(bits % 16)))
  }

  predicate InCidr(ip: string, prefix: string, bits: nat)
    requires bits <= 128
  {
    var groups, prefixGroups := ExpandV6(ip), ExpandV6(prefix);
    groups.Some? && prefixGroups.Some? && GroupsInCidr(groups.value, prefixGroups.value, bits)
  }

  /** v6InCidr as the source runs it: whole groups first, then the masked one. */
  method V6InCidr(ip: string, prefix: string, bits: nat) returns (inside: bool)
    requires bits <= 128
    ensures inside == InCidr(ip, prefix, bits)
  {
    var groups, prefixGroups := ExpandV6(ip), ExpandV6(prefix);
    if groups.None? || prefixGroups.None? {
      return false;
    }
    inside := CompareGroups(groups.value, prefixGroups.value, bits);
  }

  method CompareGroups(groups: seq<Option<int>>, prefix: seq<Option<int>>, bits: nat) returns (same: bool)
    requires |groups| == 8 && |prefix| == 8 && bits <= 128
    ensures same == GroupsInCidr(groups, prefix, bits)
  {
    var full, rem := bits / 16, bits % 16;
    var i := 0;
    while i < full
      invariant 0 <= i <= full <= 8
      invariant forall k :: 0 <= k < i ==> groups[k] == prefix[k]
    {
      if groups[i] != prefix[i] {
        return false;
      }
      i := i + 1;
    }
    if rem > 0 && MaskGroup(groups[full], GroupMask(rem)) != MaskGroup(prefix[full], GroupMask(rem)) {
      return false;
    }
    same := true;
  }

  const V6_BLOCKED: seq<(string, nat)> := [
    ("::1", 128), ("::", 128), ("::ffff:0:0", 96), ("fe80::", 10),
    ("fc00::", 7), ("ff00::", 8), ("64:ff9b::", 96), ("2002::", 16)
  ]

  /** The address lies behind prefix `i` of the table. */
  predicate HitsEntry(ip: string, i: nat)
    requires i < |V6_BLOCKED|
  {
    V6_BLOCKED[i].1 <= 128 && InCidr(ip, V6_BLOCKED[i].0, V6_BLOCKED[i].1)
  }

  predicate IsBlockedV6(ip: string) {
    exists i :: 0 <= i < |V6_BLOCKED| && HitsEntry(ip, i)
  }

  /** Bits 8 to 15 and 0 to 7 of a group. */
  function HighByte(g: Option<int>): nat {
    if g.None? then 0 else g.value / 256 % 256
  }

  function LowByte(g: Option<int>): nat {
    if g.None? then 0 else g.value % 256
  }

  predicate IsMapped(groups: seq<Option<int>>)
    requires |groups| == 8
  {
    (forall i :: 0 <= i < 5 ==> groups[i] == Some(0)) && groups[5] == Some(0xffff)
  }

  /** isPrivateOrReservedAddress, with its recursive branch for mapped addresses. */
  predicate IsPrivateOrReserved(address: string)
    decreases if ':' in address then 1 else 0
  {
    var ip := Clean(address);
    if ':' in ip then
      CleanKeepsLess(address);
      if IsBlockedV6(ip) then true
      else
        var groups := ExpandV6(ip);
        if groups.Some? && IsMapped(groups.value) then
          var embedded := Quad(HighByte(groups.value[6]), LowByte(groups.value[6]), HighByte(groups.value[7]), LowByte(groups.value[7]));
          QuadTextHasNoColon(embedded);
          IsPrivateOrReserved(QuadText(embedded))
        else false
    else IsBlockedV4(ip)
  }

  lemma DecTextDigits(n: nat)
    ensures AllDigits(DecText(n))
  {
    DecTextValue(n);
  }

  lemma QuadTextHasNoColon(q: Quad)
    ensures ':' !in QuadText(q)
  {
    DecTextDigits(q.a);
    DecTextDigits(q.b);
    DecTextDigits(q.c);
    DecTextDigits(q.d);
    JoinAvoids([DecText(q.a), DecText(q.b), DecText(q.c), DecText(q.d)], '.', ':');
  }

  lemma {:induction false} FirstPieceFrom(s: string, sep: char)
    ensures forall c :: c in Split(s, sep)[0] ==> c in s
  {
    if s != "" {
      FirstPieceFrom(s[1..], sep);
    }
  }

  lemma CleanKeepsLess(address: string)
    ensures forall c :: c in Clean(address) ==> c in address
  {
    FirstPieceFrom(StripBrackets(address), '%');
  }
}
