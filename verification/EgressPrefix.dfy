/** What the group-by-group prefix test means for the 128-bit address. */
module EgressPrefix {
  import opened Wrappers
  import opened Bits
  import opened EgressV6

  predicate AreHextets(groups: seq<nat>) {
    forall i :: 0 <= i < |groups| ==> groups[i] < 65536
  }

  function AsGroups(groups: seq<nat>): (r: seq<Option<int>>)
    ensures |r| == |groups|
  {
    seq(|groups|, i requires 0 <= i < |groups| => Some(groups[i]))
  }

  /** The groups as one number, most significant first. */
  function Value(groups: seq<nat>): nat {
    if groups == [] then 0 else groups[0] * Pow2(16 * (|groups| - 1)) + Value(groups[1..])
  }

  lemma {:induction false} ValueBound(groups: seq<nat>)
    requires AreHextets(groups)
    ensures Value(groups) < Pow2(16 * |groups|)
  {
    if groups != [] {
      ValueBound(groups[1..]);
      var m := Pow2(16 * (|groups| - 1));
      Pow16();
      PowAdd(16, 16 * (|groups| - 1));
      assert (groups[0] + 1) * m <= 65536 * m by { ProductGrows(groups[0] + 1, 65536, m); }
    }
  }

  lemma Pow16()
    ensures Pow2(16) == 65536
  {
    PowValues();
  }

  lemma ProductGrows(a: nat, b: nat, m: nat)
    requires a <= b
    ensures a * m <= b * m
  {
    assert b * m - a * m == (b - a) * m;
  }

  /** Dropping a whole low group and then `e` more. */
  lemma QuotientOfHead(g: nat, m: nat, v: nat, e: nat)
    requires v < m && e > 0
    ensures m * e > 0 && (g * m + v) / (m * e) == g / e
  {
    var q, r := g / e, g % e;
    assert g == e * q + r;
    assert g * m == (m * e) * q + r * m by {
      assert g * m == (e * q + r) * m;
      assert (e * q) * m == (m * e) * q;
    }
    assert r * m + v < m * e by {
      ProductGrows(r + 1, e, m);
      assert (r + 1) * m == r * m + m;
    }
    assert m * e > 0;
    QuotientIs(g * m + v, m * e, q, r * m + v);
  }

  /** Dropping only low groups keeps the head as the top digits. */
  lemma QuotientOfTail(g: nat, k: nat, d: nat, v: nat)
    requires d > 0
    ensures (g * (k * d) + v) / d == g * k + v / d
  {
    assert g * (k * d) == d * (g * k);
    assert d * (v / d) + v % d == v;
    assert d * (g * k) + d * (v / d) == d * (g * k + v / d);
    QuotientIs(g * (k * d) + v, d, g * k + v / d, v % d);
  }

  /** Two-digit numbers in base `k` are equal digit by digit. */
  lemma DigitsDecide(p: nat, q: nat, g: nat, h: nat, k: nat, x: nat, y: nat)
    requires p == g * k + x && q == h * k + y && x < k && y < k
    ensures p == q <==> g == h && x == y
  {
    if p == q {
      assert k * (g - h) == g * k - h * k;
      MultipleGrows(k, g - h);
    }
  }

  lemma QuotientBound(v: nat, k: nat, d: nat)
    requires d > 0 && v < k * d
    ensures v / d < k
  {
    assert d * (v / d) + v % d == v && (v / d) * d == d * (v / d);
    if v / d >= k {
      ProductGrows(k, v / d, d);
    }
  }

  /** The groups agree on their first `bits` bits. */
  predicate SamePrefix(a: seq<nat>, b: seq<nat>, bits: nat)
    requires |a| == |b| && bits <= 16 * |a|
  {
    && (forall i :: 0 <= i < bits / 16 ==> a[i] == b[i])
    && (bits % 16 > 0 ==> a[bits / 16] / Pow2(16 - bits % 16) == b[bits / 16] / Pow2(16 - bits % 16))
  }

  lemma SamePrefixStep(a: seq<nat>, b: seq<nat>, bits: nat)
    requires |a| == |b| && 16 <= bits <= 16 * |a|
    ensures SamePrefix(a, b, bits) <==> a[0] == b[0] && SamePrefix(a[1..], b[1..], bits - 16)
  {
    var full := bits / 16;
    assert (bits - 16) / 16 == full - 1 && (bits - 16) % 16 == bits % 16;
    if a[0] == b[0] && SamePrefix(a[1..], b[1..], bits - 16) {
      forall i | 0 <= i < full ensures a[i] == b[i] {
        assert i > 0 ==> a[i] == a[1..][i - 1] && b[i] == b[1..][i - 1];
      }
    }
    if SamePrefix(a, b, bits) {
      forall i | 0 <= i < full - 1 ensures a[1..][i] == b[1..][i] {
        assert a[i + 1] == b[i + 1];
      }
    }
  }

  /** A prefix inside the first group: only that group matters. */
  lemma PartialGroupQuotient(a: seq<nat>, bits: nat)
    requires a != [] && 0 < bits < 16 && AreHextets(a)
    ensures Value(a) / Pow2(16 * |a| - bits) == a[0] / Pow2(16 - bits)
  {
    var rest := 16 * (|a| - 1);
    ValueBound(a[1..]);
    PowAdd(rest, 16 - bits);
    assert rest + (16 - bits) == 16 * |a| - bits;
    QuotientOfHead(a[0], Pow2(rest), Value(a[1..]), Pow2(16 - bits));
  }

  /** A prefix longer than the first group: the group and the rest decide. */
  lemma WholeGroupQuotient(a: seq<nat>, b: seq<nat>, k: nat, d: nat)
    requires a != [] && |a| == |b| && AreHextets(a) && AreHextets(b)
    requires d > 0 && Pow2(16 * (|a| - 1)) == k * d
    ensures Value(a) / d == Value(b) / d <==> a[0] == b[0] && Value(a[1..]) / d == Value(b[1..]) / d
  {
    var p, x := WholeGroupOf(a, k, d);
    var q, y := WholeGroupOf(b, k, d);
    DigitsDecide(p, q, a[0], b[0], k, x, y);
  }

  lemma WholeGroupOf(a: seq<nat>, k: nat, d: nat) returns (quotient: nat, tail: nat)
    requires a != [] && AreHextets(a) && d > 0 && Pow2(16 * (|a| - 1)) == k * d
    ensures quotient == Value(a) / d && tail == Value(a[1..]) / d
    ensures quotient == a[0] * k + tail && tail < k
  {
    quotient, tail := Value(a) / d, Value(a[1..]) / d;
    ValueBound(a[1..]);
    QuotientOfTail(a[0], k, d, Value(a[1..]));
    QuotientBound(Value(a[1..]), k, d);
  }

  /** Agreeing on the first `bits` bits is having equal quotients by the rest. */
  lemma {:induction false} SamePrefixIsSameQuotient(a: seq<nat>, b: seq<nat>, bits: nat)
    requires |a| == |b| && bits <= 16 * |a| && AreHextets(a) && AreHextets(b)
    ensures SamePrefix(a, b, bits) <==> Value(a) / Pow2(16 * |a| - bits) == Value(b) / Pow2(16 * |a| - bits)
    decreases |a|
  {
    if bits == 0 {
      ValueBound(a);
      ValueBound(b);
      QuotientIs(Value(a), Pow2(16 * |a|), 0, Value(a));
      QuotientIs(Value(b), Pow2(16 * |a|), 0, Value(b));
    } else if bits < 16 {
      PartialGroupQuotient(a, bits);
      PartialGroupQuotient(b, bits);
    } else {
      SamePrefixIsSameQuotient(a[1..], b[1..], bits - 16);
      WholeGroupPrefix(a, b, bits);
    }
  }

  lemma WholeGroupPrefix(a: seq<nat>, b: seq<nat>, bits: nat)
    requires |a| == |b| && 16 <= bits <= 16 * |a| && AreHextets(a) && AreHextets(b)
    requires SamePrefix(a[1..], b[1..], bits - 16)
        <==> Value(a[1..]) / Pow2(16 * |a[1..]| - (bits - 16)) == Value(b[1..]) / Pow2(16 * |a[1..]| - (bits - 16))
    ensures SamePrefix(a, b, bits) <==> Value(a) / Pow2(16 * |a| - bits) == Value(b) / Pow2(16 * |a| - bits)
  {
    var low := 16 * |a| - bits;
    assert 16 * |a[1..]| - (bits - 16) == low;
    PowAdd(bits - 16, low);
    assert (bits - 16) + low == 16 * (|a| - 1);
    WholeGroupQuotient(a, b, Pow2(bits - 16), Pow2(low));
    SamePrefixStep(a, b, bits);
  }

  /** The partial-group mask has its `rem` high bits set. */
  lemma GroupMaskValue(rem: nat)
    requires 0 < rem <= 16
    ensures Pow2(16 - rem) <= 65536 && GroupMask(rem) == 65536 - Pow2(16 - rem)
  {
    Pow16();
    PowGrows(16 - rem, 16);
    var p := Pow2(16 - rem);
    AndLowMask(0xffff * p, 16);
    QuotientIs(0xffff * p, 65536, p - 1, 65536 - p);
  }

  lemma MaskedGroupsAgree(x: nat, y: nat, rem: nat)
    requires x < 65536 && y < 65536 && 0 < rem < 16
    ensures MaskGroup(Some(x), GroupMask(rem)) == MaskGroup(Some(y), GroupMask(rem)) <==> x / Pow2(16 - rem) == y / Pow2(16 - rem)
  {
    Pow16();
    GroupMaskValue(rem);
    MaskedGroup(x, GroupMask(rem));
    MaskedGroup(y, GroupMask(rem));
    SameUnderMask(x, y, 16, 16 - rem);
  }

  lemma MaskedGroup(x: nat, mask: nat)
    requires x < 65536
    ensures MaskGroup(Some(x), mask) == And(x, mask)
  {
    assert x % 65536 == x;
  }

  /** v6InCidr holds exactly when the two 128-bit values agree after integer
      division by 2^(128 - bits), for every prefix length. */
  lemma PrefixTestIsQuotientTest(a: seq<nat>, b: seq<nat>, bits: nat)
    requires |a| == 8 && |b| == 8 && AreHextets(a) && AreHextets(b) && bits <= 128
    ensures GroupsInCidr(AsGroups(a), AsGroups(b), bits)
        <==> Value(a) / Pow2(128 - bits) == Value(b) / Pow2(128 - bits)
  {
    SamePrefixIsSameQuotient(a, b, bits);
    if bits % 16 > 0 {
      MaskedGroupsAgree(a[bits / 16], b[bits / 16], bits % 16);
    }
    GroupsMatchIffEqual(a, b, bits);
  }

  lemma GroupsMatchIffEqual(a: seq<nat>, b: seq<nat>, bits: nat)
    requires |a| == 8 && |b| == 8 && bits <= 128
    ensures (forall i :: 0 <= i < bits / 16 ==> AsGroups(a)[i] == AsGroups(b)[i]) <==> (forall i :: 0 <= i < bits / 16 ==> a[i] == b[i])
  {
    if forall i :: 0 <= i < bits / 16 ==> AsGroups(a)[i] == AsGroups(b)[i] {
      forall i | 0 <= i < bits / 16 ensures a[i] == b[i] {
        assert AsGroups(a)[i] == AsGroups(b)[i];
      }
    }
  }
}
