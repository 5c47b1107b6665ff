/**
 zeus-secretariat/src/core/egress-guard.ts, IPv4: mask tests over dotted quads,
 and the intervals they come to.
 */
module EgressV4 {
  import opened Text
  import opened AddressText
  import opened Bits

  datatype Quad = Quad(a: nat, b: nat, c: nat, d: nat)

  predicate ValidQuad(q: Quad) {
    q.a < 256 && q.b < 256 && q.c < 256 && q.d < 256
  }

  function QuadValue(q: Quad): nat {
    ((q.a * 256 + q.b) * 256 + q.c) * 256 + q.d
  }

  function QuadText(q: Quad): string {
    Join([DecText(q.a), DecText(q.b), DecText(q.c), DecText(q.d)], '.')
  }

  /** The number an octet spells; a part that is not a digit string counts as NaN, which masks to 0. */
  function OctetNumber(part: string): nat {
    if IsDigits(part) then DecValue(part) else 0
  }

  /** The octets appended to `acc` byte by byte, each cut to its low byte, in 32 bits. */
  function ReduceOctets(parts: seq<string>, acc: nat): nat
    decreases |parts|
  {
    if parts == [] then acc
    else ReduceOctets(parts[1..], Or(ShiftLeft32(acc, 8), And(OctetNumber(parts[0]), 0xff)))
  }

  function ToInt(ip: string): nat {
    ReduceOctets(Split(ip, '.'), 0)
  }

  function Mask(bits: nat): nat
    requires bits <= 32
  {
    if bits == 0 then 0 else ShiftLeft32(0xffff_ffff, 32 - bits)
  }

  predicate Ipv4InCidr(ip: string, range: string, bits: nat)
    requires bits <= 32
  {
    And(ToInt(ip), Mask(bits)) == And(ToInt(range), Mask(bits))
  }

  const V4_BLOCKED: seq<(Quad, nat)> := [
    (Quad(0, 0, 0, 0), 8), (Quad(10, 0, 0, 0), 8), (Quad(100, 64, 0, 0), 10), (Quad(127, 0, 0, 0), 8),
    (Quad(169, 254, 0, 0), 16), (Quad(172, 16, 0, 0), 12), (Quad(192, 0, 0, 0), 24), (Quad(192, 0, 2, 0), 24),
    (Quad(192, 168, 0, 0), 16), (Quad(198, 18, 0, 0), 15), (Quad(198, 51, 100, 0), 24), (Quad(203, 0, 113, 0), 24),
    (Quad(224, 0, 0, 0), 4), (Quad(240, 0, 0, 0), 4)
  ]

  predicate IsBlockedV4(ip: string) {
    exists i :: 0 <= i < |V4_BLOCKED| && Ipv4InCidr(ip, QuadText(V4_BLOCKED[i].0), V4_BLOCKED[i].1)
  }

  // ---------------------------------------------------------------------
  // The simple form
  // ---------------------------------------------------------------------

  /** First and last address of each blocked range. */
  const V4_INTERVALS: seq<(Quad, Quad)> := [
    (Quad(0, 0, 0, 0), Quad(0, 255, 255, 255)), (Quad(10, 0, 0, 0), Quad(10, 255, 255, 255)),
    (Quad(100, 64, 0, 0), Quad(100, 127, 255, 255)), (Quad(127, 0, 0, 0), Quad(127, 255, 255, 255)),
    (Quad(169, 254, 0, 0), Quad(169, 254, 255, 255)), (Quad(172, 16, 0, 0), Quad(172, 31, 255, 255)),
    (Quad(192, 0, 0, 0), Quad(192, 0, 0, 255)), (Quad(192, 0, 2, 0), Quad(192, 0, 2, 255)),
    (Quad(192, 168, 0, 0), Quad(192, 168, 255, 255)), (Quad(198, 18, 0, 0), Quad(198, 19, 255, 255)),
    (Quad(198, 51, 100, 0), Quad(198, 51, 100, 255)), (Quad(203, 0, 113, 0), Quad(203, 0, 113, 255)),
    (Quad(224, 0, 0, 0), Quad(239, 255, 255, 255)), (Quad(240, 0, 0, 0), Quad(255, 255, 255, 255))
  ]

  lemma MaskedOctet(n: nat)
    requires n < 256
    ensures And(n, 0xff) == n
  {
    ByteMask(n);
  }

  lemma OctetAppends(acc: nat, n: nat)
    requires acc < 0x100_0000 && n < 256
    ensures Or(ShiftLeft32(acc, 8), And(n, 0xff)) == acc * 256 + n
  {
    MaskedOctet(n);
    ShiftByte(acc);
    OrByte(acc, n);
  }

  /** Reading a printed quad gives its 32-bit value. */
  lemma ToIntOfText(q: Quad)
    requires ValidQuad(q)
    ensures ToInt(QuadText(q)) == QuadValue(q)
  {
    var parts := [DecText(q.a), DecText(q.b), DecText(q.c), DecText(q.d)];
    DecTextValue(q.a);
    DecTextValue(q.b);
    DecTextValue(q.c);
    DecTextValue(q.d);
    SplitJoin(parts, '.');
    ReduceFour(DecText(q.a), DecText(q.b), DecText(q.c), DecText(q.d));
  }

  lemma ReduceFour(a: string, b: string, c: string, d: string)
    requires OctetNumber(a) < 256 && OctetNumber(b) < 256 && OctetNumber(c) < 256 && OctetNumber(d) < 256
    ensures ReduceOctets([a, b, c, d], 0) == QuadValue(Quad(OctetNumber(a), OctetNumber(b), OctetNumber(c), OctetNumber(d)))
  {
    var x := OctetNumber(a);
    var y := x * 256 + OctetNumber(b);
    var z := y * 256 + OctetNumber(c);
    ReduceOne(a, [b, c, d], 0);
    ReduceOne(b, [c, d], x);
    ReduceOne(c, [d], y);
    ReduceOne(d, [], z);
    assert [d] + [] == [d] && [c] + [d] == [c, d] && [b] + [c, d] == [b, c, d] && [a] + [b, c, d] == [a, b, c, d];
  }

  lemma ReduceOne(part: string, rest: seq<string>, acc: nat)
    requires acc < 0x100_0000 && OctetNumber(part) < 256
    ensures ReduceOctets([part] + rest, acc) == ReduceOctets(rest, acc * 256 + OctetNumber(part))
  {
    OctetAppends(acc, OctetNumber(part));
    assert ([part] + rest)[1..] == rest;
  }

  /** The mask test compares 32-bit values after dropping the host bits. */
  lemma MaskComparesPrefixes(x: nat, r: nat, bits: nat)
    requires bits <= 32 && x < 0x1_0000_0000 && r < 0x1_0000_0000
    ensures And(x, Mask(bits)) == And(r, Mask(bits)) <==> x / Pow2(32 - bits) == r / Pow2(32 - bits)
  {
    PowValues();
    if bits == 0 {
      QuotientIs(x, Pow2(32), 0, x);
      QuotientIs(r, Pow2(32), 0, r);
    } else {
      PrefixMask(32 - bits);
      SameUnderMask(x, r, 32, 32 - bits);
    }
  }

  /** An aligned block of size `p` is an interval. */
  lemma BlockIsInterval(x: nat, lo: nat, p: nat)
    requires p > 0 && lo % p == 0
    ensures x / p == lo / p <==> lo <= x < lo + p
  {
    assert p * (lo / p) == lo;
    assert p * (x / p) + x % p == x;
    assert p * (x / p - lo / p) == p * (x / p) - p * (lo / p);
    MultipleGrows(p, x / p - lo / p);
  }

  /** A table entry and its interval describe the same aligned block. */
  lemma EntryIsAligned(i: nat)
    requires i < 14
    ensures |V4_BLOCKED| == |V4_INTERVALS| == 14
    ensures var (range, bits) := V4_BLOCKED[i];
      && bits <= 32 && ValidQuad(range) && range == V4_INTERVALS[i].0
      && QuadValue(range) % Pow2(32 - bits) == 0
      && QuadValue(range) + Pow2(32 - bits) == QuadValue(V4_INTERVALS[i].1) + 1
  {
    PowValues();
  }

  lemma EntryIsInterval(q: Quad, i: nat)
    requires ValidQuad(q) && i < 14
    ensures |V4_BLOCKED| == |V4_INTERVALS| == 14 && V4_BLOCKED[i].1 <= 32
    ensures Ipv4InCidr(QuadText(q), QuadText(V4_BLOCKED[i].0), V4_BLOCKED[i].1)
        <==> QuadValue(V4_INTERVALS[i].0) <= QuadValue(q) <= QuadValue(V4_INTERVALS[i].1)
  {
    EntryIsAligned(i);
    QuadInBlock(q, V4_BLOCKED[i].0, V4_BLOCKED[i].1);
  }

  /** Membership of a quad in a CIDR block with an aligned base. */
  lemma QuadInBlock(q: Quad, range: Quad, bits: nat)
    requires ValidQuad(q) && ValidQuad(range) && bits <= 32 && QuadValue(range) % Pow2(32 - bits) == 0
    ensures Ipv4InCidr(QuadText(q), QuadText(range), bits)
        <==> QuadValue(range) <= QuadValue(q) < QuadValue(range) + Pow2(32 - bits)
  {
    ToIntOfText(q);
    ToIntOfText(range);
    MaskComparesPrefixes(QuadValue(q), QuadValue(range), bits);
    BlockIsInterval(QuadValue(q), QuadValue(range), Pow2(32 - bits));
  }

  /** For every dotted quad, the list of masks blocks exactly the union of the 14 intervals. */
  lemma BlockedIsUnionOfIntervals(q: Quad)
    requires ValidQuad(q)
    ensures IsBlockedV4(QuadText(q))
        <==> exists i :: 0 <= i < |V4_INTERVALS| && QuadValue(V4_INTERVALS[i].0) <= QuadValue(q) <= QuadValue(V4_INTERVALS[i].1)
  {
    forall i | 0 <= i < 14
      ensures Ipv4InCidr(QuadText(q), QuadText(V4_BLOCKED[i].0), V4_BLOCKED[i].1)
          <==> QuadValue(V4_INTERVALS[i].0) <= QuadValue(q) <= QuadValue(V4_INTERVALS[i].1)
    {
      EntryIsInterval(q, i);
    }
  }
}
