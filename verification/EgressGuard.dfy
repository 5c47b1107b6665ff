/** The egress guard's verdict on every printed address. */
module EgressGuard {
  import opened Wrappers
  import opened Text
  import opened AddressText
  import opened Bits
  import opened EgressV4
  import opened EgressV6
  import opened EgressPrefix
  import opened EgressForms

  /** Base address and prefix length of each blocked IPv6 block: loopback,
      unspecified, IPv4-mapped, link-local, unique local, multicast, NAT64, 6to4. */
  const V6_BLOCKS: seq<(seq<nat>, nat)> := [
    ([0, 0, 0, 0, 0, 0, 0, 1], 128), ([0, 0, 0, 0, 0, 0, 0, 0], 128),
    ([0, 0, 0, 0, 0, 0xffff, 0, 0], 96), ([0xfe80, 0, 0, 0, 0, 0, 0, 0], 10),
    ([0xfc00, 0, 0, 0, 0, 0, 0, 0], 7), ([0xff00, 0, 0, 0, 0, 0, 0, 0], 8),
    ([0x64, 0xff9b, 0, 0, 0, 0, 0, 0], 96), ([0x2002, 0, 0, 0, 0, 0, 0, 0], 16)
  ]

  /** Membership of an address in a block, as plain integer division. */
  predicate InBlock(groups: seq<nat>, base: seq<nat>, bits: nat)
    requires bits <= 128
  {
    Value(groups) / Pow2(128 - bits) == Value(base) / Pow2(128 - bits)
  }

  lemma HexOf1(c: char)
    requires IsHexChar(c)
    ensures HexValue([c]) == HexDigit(c)
  {
    assert [c][..0] == "";
  }

  lemma HexOf2(a: char, b: char)
    requires IsHexChar(a) && IsHexChar(b)
    ensures HexValue([a, b]) == 16 * HexDigit(a) + HexDigit(b)
  {
    HexOf1(a);
    assert [a, b][..1] == [a];
  }

  lemma HexOf4(a: char, b: char, c: char, d: char)
    requires IsHexChar(a) && IsHexChar(b) && IsHexChar(c) && IsHexChar(d)
    ensures HexValue([a, b, c, d]) == 4096 * HexDigit(a) + 256 * HexDigit(b) + 16 * HexDigit(c) + HexDigit(d)
  {
    HexOf2(a, b);
    assert [a, b, c, d][..3][..2] == [a, b];
    assert [a, b, c, d][..3] == [a, b, c];
  }

  /** The form each table entry is written in. */
  const V6_FORMS: seq<Form> := [
    Form([], ["1"], true, None), Form([], [], true, None), Form([], ["ffff", "0", "0"], true, None),
    Form(["fe80"], [], true, None), Form(["fc00"], [], true, None), Form(["ff00"], [], true, None),
    Form(["64", "ff9b"], [], true, None), Form(["2002"], [], true, None)
  ]

  lemma Unpadded(h: seq<nat>, z: seq<nat>, t: seq<nat>)
    ensures h == [] ==> h + z + t + [] == z + t
    ensures t == [] ==> h + z + t + [] == h + z
  {
    assert [] + z == z;
    assert (h + z) + [] == h + z;
    assert (z + t) + [] == z + t;
  }

  lemma Unprefixed(s: string, t: string)
    ensures "" + s + t == s + t
    ensures t + s + "" == t + s
  {
    assert "" + s == s;
  }

  lemma NoGroups()
    ensures AreGroupTexts([]) && HexValues([]) == []
  {
  }

  /** An address that ends with the elided run. */
  lemma HeadOnlyGroups(head: seq<string>)
    requires AreGroupTexts(head) && |head| <= 7
    ensures var f := Form(head, [], true, None); ValidForm(f) && Hextets(f) == HexValues(head) + ZeroRun(8 - |head|)
  {
    NoGroups();
    Unpadded(HexValues(head), ZeroRun(8 - |head|), []);
  }

  lemma HeadOnlyText(head: seq<string>)
    ensures BodyText(Form(head, [], true, None)) == Join(head, ':') + "::"
  {
    var f := Form(head, [], true, None);
    assert f.tail + QuadParts(f) == [] && Join([], ':') == "";
    Unprefixed("::", Join(head, ':'));
  }

  /** An address that begins with the elided run. */
  lemma TailOnlyGroups(tail: seq<string>)
    requires AreGroupTexts(tail) && |tail| <= 7
    ensures var f := Form([], tail, true, None); ValidForm(f) && Hextets(f) == ZeroRun(8 - |tail|) + HexValues(tail)
  {
    NoGroups();
    Unpadded([], ZeroRun(8 - |tail|), HexValues(tail));
  }

  lemma TailOnlyText(tail: seq<string>)
    ensures BodyText(Form([], tail, true, None)) == "::" + Join(tail, ':')
  {
    var f := Form([], tail, true, None);
    assert f.tail + QuadParts(f) == tail && Join(f.head, ':') == "";
    Unprefixed("::", Join(tail, ':'));
  }

  lemma OneAndZeros(g: string)
    requires IsGroupText(g)
    ensures HexValues([g]) + ZeroRun(7) == [HexValue(g), 0, 0, 0, 0, 0, 0, 0]
    ensures ZeroRun(7) + HexValues([g]) == [0, 0, 0, 0, 0, 0, 0, HexValue(g)]
  {
    assert HexValues([g]) == [HexValue(g)] && ZeroRun(7) == [0, 0, 0, 0, 0, 0, 0];
  }

  lemma HeadOne(g: string)
    requires IsGroupText(g)
    ensures var f := Form([g], [], true, None);
      ValidForm(f) && BodyText(f) == g + "::" && Hextets(f) == [HexValue(g), 0, 0, 0, 0, 0, 0, 0]
  {
    HeadOnlyText([g]);
    HeadOnlyGroups([g]);
    OneAndZeros(g);
  }

  lemma JoinTwo(g: string, h: string)
    ensures Join([g, h], ':') == g + ":" + h
  {
    assert [g, h][1..] == [h] && Join([h], ':') == h;
  }

  lemma TwoAndZeros(g: string, h: string)
    requires IsGroupText(g) && IsGroupText(h)
    ensures HexValues([g, h]) + ZeroRun(6) == [HexValue(g), HexValue(h), 0, 0, 0, 0, 0, 0]
  {
    assert HexValues([g, h]) == [HexValue(g), HexValue(h)] && ZeroRun(6) == [0, 0, 0, 0, 0, 0];
  }

  lemma HeadTwo(g: string, h: string)
    requires IsGroupText(g) && IsGroupText(h)
    ensures var f := Form([g, h], [], true, None);
      ValidForm(f) && BodyText(f) == g + ":" + h + "::" && Hextets(f) == [HexValue(g), HexValue(h), 0, 0, 0, 0, 0, 0]
  {
    HeadOnlyText([g, h]);
    HeadOnlyGroups([g, h]);
    JoinTwo(g, h);
    TwoAndZeros(g, h);
  }

  lemma TailOne(g: string)
    requires IsGroupText(g)
    ensures var f := Form([], [g], true, None);
      ValidForm(f) && BodyText(f) == "::" + g && Hextets(f) == [0, 0, 0, 0, 0, 0, 0, HexValue(g)]
  {
    TailOnlyText([g]);
    TailOnlyGroups([g]);
    OneAndZeros(g);
  }

  lemma JoinThree(g: string, h: string, k: string)
    ensures Join([g, h, k], ':') == g + ":" + (h + ":" + k)
  {
    assert [g, h, k][1..] == [h, k];
    JoinTwo(h, k);
  }

  lemma ZerosAndThree(g: string, h: string, k: string)
    requires IsGroupText(g) && IsGroupText(h) && IsGroupText(k)
    ensures ZeroRun(5) + HexValues([g, h, k]) == [0, 0, 0, 0, 0, HexValue(g), HexValue(h), HexValue(k)]
  {
    assert HexValues([g, h, k]) == [HexValue(g), HexValue(h), HexValue(k)] && ZeroRun(5) == [0, 0, 0, 0, 0];
  }

  lemma TailThree(g: string, h: string, k: string)
    requires IsGroupText(g) && IsGroupText(h) && IsGroupText(k)
    ensures var f := Form([], [g, h, k], true, None);
      ValidForm(f) && BodyText(f) == "::" + (g + ":" + (h + ":" + k))
      && Hextets(f) == [0, 0, 0, 0, 0, HexValue(g), HexValue(h), HexValue(k)]
  {
    TailOnlyText([g, h, k]);
    TailOnlyGroups([g, h, k]);
    JoinThree(g, h, k);
    ZerosAndThree(g, h, k);
  }

  lemma ElidedAll()
    ensures var f := Form([], [], true, None); ValidForm(f) && BodyText(f) == "::" && Hextets(f) == [0, 0, 0, 0, 0, 0, 0, 0]
  {
    TailOnlyText([]);
    TailOnlyGroups([]);
    assert ZeroRun(8) + HexValues([]) == [0, 0, 0, 0, 0, 0, 0, 0];
  }

  /** Table entry `i` is the text of its form, whose groups are block `i`. */
  ghost predicate EntryAgrees(i: nat)
    requires i < 8
  {
    && |V6_BLOCKED| == |V6_FORMS| == |V6_BLOCKS| == 8
    && ValidForm(V6_FORMS[i]) && BodyText(V6_FORMS[i]) == V6_BLOCKED[i].0 && V6_BLOCKED[i].1 == V6_BLOCKS[i].1 <= 128
    && Hextets(V6_FORMS[i]) == V6_BLOCKS[i].0 && AreHextets(V6_BLOCKS[i].0)
  }

  lemma LoopbackEntryAgrees()
    ensures EntryAgrees(0)
  {
    HexOf1('1');
    TailOne("1");
    assert "::" + "1" == "::1";
  }

  lemma UnspecifiedEntryAgrees()
    ensures EntryAgrees(1)
  {
    ElidedAll();
  }

  lemma MappedEntryAgrees()
    ensures EntryAgrees(2)
  {
    HexOf1('0');
    HexOf4('f', 'f', 'f', 'f');
    TailThree("ffff", "0", "0");
    assert "::" + ("ffff" + ":" + ("0" + ":" + "0")) == "::ffff:0:0";
  }

  lemma LinkLocalEntryAgrees()
    ensures EntryAgrees(3)
  {
    HexOf4('f', 'e', '8', '0');
    HeadOne("fe80");
    assert "fe80" + "::" == "fe80::";
  }

  lemma UniqueLocalEntryAgrees()
    ensures EntryAgrees(4)
  {
    HexOf4('f', 'c', '0', '0');
    HeadOne("fc00");
    assert "fc00" + "::" == "fc00::";
  }

  lemma MulticastEntryAgrees()
    ensures EntryAgrees(5)
  {
    HexOf4('f', 'f', '0', '0');
    HeadOne("ff00");
    assert "ff00" + "::" == "ff00::";
  }

  lemma Nat64Values()
    ensures IsGroupText("64") && IsGroupText("ff9b") && HexValue("64") == 0x64 && HexValue("ff9b") == 0xff9b
  {
    HexOf2('6', '4');
    HexOf4('f', 'f', '9', 'b');
  }

  lemma Nat64Text()
    ensures "64" + ":" + "ff9b" + "::" == "64:ff9b::"
  {
  }

  lemma Nat64Reads()
    ensures var f := Form(["64", "ff9b"], [], true, None);
      ValidForm(f) && BodyText(f) == "64:ff9b::" && Hextets(f) == [0x64, 0xff9b, 0, 0, 0, 0, 0, 0]
  {
    Nat64Values();
    HeadTwo("64", "ff9b");
    Nat64Text();
  }

  lemma Nat64EntryAgrees()
    ensures EntryAgrees(6)
  {
    Nat64Reads();
    assert V6_FORMS[6] == Form(["64", "ff9b"], [], true, None);
  }

  lemma SixToFourEntryAgrees()
    ensures EntryAgrees(7)
  {
    HexOf4('2', '0', '0', '2');
    HeadOne("2002");
    assert V6_FORMS[7] == Form(["2002"], [], true, None);
  }

  lemma EntriesAgree(i: nat)
    requires i < 8
    ensures EntryAgrees(i)
  {
    match i
    case 0 => LoopbackEntryAgrees();
    case 1 => UnspecifiedEntryAgrees();
    case 2 => MappedEntryAgrees();
    case 3 => LinkLocalEntryAgrees();
    case 4 => UniqueLocalEntryAgrees();
    case 5 => MulticastEntryAgrees();
    case 6 => Nat64EntryAgrees();
    case _ => SixToFourEntryAgrees();
  }

  lemma {:induction false} HexValueBound(s: string)
    requires AllHex(s)
    ensures HexValue(s) < Pow2(4 * |s|)
  {
    if s != "" {
      HexValueBound(s[..|s| - 1]);
      PowAdd(4, 4 * (|s| - 1));
      PowValues();
    }
  }

  lemma GroupBound(g: string)
    requires IsGroupText(g)
    ensures HexValue(g) < 65536
  {
    HexValueBound(g);
    PowGrows(4 * |g|, 16);
    Pow16();
  }

  lemma HextetsBound(f: Form)
    requires ValidForm(f)
    ensures AreHextets(Hextets(f))
  {
    forall i | 0 <= i < |f.head| ensures HexValues(f.head)[i] < 65536 {
      GroupBound(f.head[i]);
    }
    forall i | 0 <= i < |f.tail| ensures HexValues(f.tail)[i] < 65536 {
      GroupBound(f.tail[i]);
    }
    assert AreHextets(HexValues(f.head)) && AreHextets(HexValues(f.tail)) && AreHextets(QuadHextets(f));
  }

  /** The prefix test on two printed addresses is integer division on their groups. */
  lemma PrintedInCidr(f: Form, bracketed: bool, zone: Option<string>, base: Form, bits: nat)
    requires ValidForm(f) && ValidForm(base) && bits <= 128
    ensures InCidr(AddressForm(f, bracketed, zone), BodyText(base), bits) <==> InBlock(Hextets(f), Hextets(base), bits)
  {
    ExpandInvertsPrinting(f, bracketed, zone);
    ExpandInvertsPrinting(base, false, None);
    assert AddressForm(base, false, None) == BodyText(base);
    HextetsBound(f);
    HextetsBound(base);
    PrefixTestIsQuotientTest(Hextets(f), Hextets(base), bits);
  }

  /** Any block a table prefix describes: text against groups. */
  lemma EntryDecides(f: Form, bracketed: bool, zone: Option<string>, i: nat)
    requires ValidForm(f) && i < 8
    ensures |V6_BLOCKED| == |V6_BLOCKS| == 8 && V6_BLOCKED[i].1 <= 128 && V6_BLOCKS[i].1 <= 128
    ensures InCidr(AddressForm(f, bracketed, zone), V6_BLOCKED[i].0, V6_BLOCKED[i].1)
        <==> InBlock(Hextets(f), V6_BLOCKS[i].0, V6_BLOCKS[i].1)
  {
    EntriesAgree(i);
    PrintedInCidr(f, bracketed, zone, V6_FORMS[i], V6_BLOCKS[i].1);
  }

  lemma MappedEntryExpands()
    ensures |V6_BLOCKED| == 8 && V6_BLOCKED[2].1 == 96
    ensures ExpandV6(V6_BLOCKED[2].0) == Some(AsGroups([0, 0, 0, 0, 0, 0xffff, 0, 0]))
  {
    MappedEntryAgrees();
    ExpandInvertsPrinting(V6_FORMS[2], false, None);
    assert AddressForm(V6_FORMS[2], false, None) == BodyText(V6_FORMS[2]);
  }

  /** Every IPv4-mapped address is already blocked by the /96 entry, so the
      branch that looks at the embedded IPv4 address is never taken. */
  lemma MappedIsAlreadyBlocked(ip: string)
    requires ExpandV6(ip).Some? && IsMapped(ExpandV6(ip).value)
    ensures IsBlockedV6(ip)
  {
    MappedEntryExpands();
    MappedGroupsMatch(ExpandV6(ip).value);
    assert HitsEntry(ip, 2);
  }

  lemma MappedGroupsMatch(groups: seq<Option<int>>)
    requires |groups| == 8 && IsMapped(groups)
    ensures GroupsInCidr(groups, AsGroups([0, 0, 0, 0, 0, 0xffff, 0, 0]), 96)
  {
    var mapped := [0, 0, 0, 0, 0, 0xffff, 0, 0];
    forall i | 0 <= i < 6 ensures groups[i] == AsGroups(mapped)[i] {
      assert AsGroups(mapped)[i] == Some(mapped[i]);
    }
  }

  /** The whole test is the two block lists, whatever the text. */
  lemma GuardIsTheTwoLists(address: string)
    ensures IsPrivateOrReserved(address)
        == (if ':' in Clean(address) then IsBlockedV6(Clean(address)) else IsBlockedV4(Clean(address)))
  {
    var ip := Clean(address);
    if ':' in ip && ExpandV6(ip).Some? && IsMapped(ExpandV6(ip).value) {
      MappedIsAlreadyBlocked(ip);
    }
  }

  lemma FormHasColon(f: Form)
    requires ValidForm(f)
    ensures ':' in BodyText(f)
  {
    if f.elided {
      assert BodyText(f)[|Join(f.head, ':')|] == ':';
    } else {
      var parts := f.head + QuadParts(f);
      assert BodyText(f) == parts[0] + [':'] + Join(parts[1..], ':');
      assert BodyText(f)[|parts[0]|] == ':';
    }
  }

  /** The address lies in block `i`. */
  predicate LiesIn(groups: seq<nat>, i: nat)
    requires i < 8
  {
    |V6_BLOCKS| == 8 && V6_BLOCKS[i].1 <= 128 && InBlock(groups, V6_BLOCKS[i].0, V6_BLOCKS[i].1)
  }

  /** Printed IPv6 addresses are refused exactly when they lie in one of the eight blocks. */
  lemma GuardDecidesV6(f: Form, bracketed: bool, zone: Option<string>)
    requires ValidForm(f)
    ensures IsPrivateOrReserved(AddressForm(f, bracketed, zone)) <==> exists i :: 0 <= i < 8 && LiesIn(Hextets(f), i)
  {
    GuardIsTheTwoLists(AddressForm(f, bracketed, zone));
    CleanForm(f, bracketed, zone);
    FormHasColon(f);
    BlockedLiesInABlock(f);
  }

  lemma HitsItsBlock(f: Form, i: nat)
    requires ValidForm(f) && i < 8
    ensures |V6_BLOCKED| == 8 && (HitsEntry(BodyText(f), i) <==> LiesIn(Hextets(f), i))
  {
    assert AddressForm(f, false, None) == BodyText(f);
    EntryDecides(f, false, None, i);
  }

  lemma BlockedLiesInABlock(f: Form)
    requires ValidForm(f)
    ensures IsBlockedV6(BodyText(f)) <==> exists i :: 0 <= i < 8 && LiesIn(Hextets(f), i)
  {
    var ip, groups := BodyText(f), Hextets(f);
    HitsItsBlock(f, 0);
    if IsBlockedV6(ip) {
      var i :| 0 <= i < |V6_BLOCKED| && HitsEntry(ip, i);
      HitsItsBlock(f, i);
    }
    if i :| 0 <= i < 8 && LiesIn(groups, i) {
      HitsItsBlock(f, i);
    }
  }

  /** Printed IPv4 addresses are refused exactly when they lie in one of the 14 intervals. */
  lemma GuardDecidesV4(q: Quad)
    requires ValidQuad(q)
    ensures IsPrivateOrReserved(QuadText(q))
        <==> exists i :: 0 <= i < |V4_INTERVALS| && QuadValue(V4_INTERVALS[i].0) <= QuadValue(q) <= QuadValue(V4_INTERVALS[i].1)
  {
    GuardIsTheTwoLists(QuadText(q));
    QuadTextBody(q);
    assert AllBody(QuadText(q));
    CleanUnbracketed(QuadText(q), None);
    assert QuadText(q) + "" == QuadText(q);
    QuadTextHasNoColon(q);
    BlockedIsUnionOfIntervals(q);
  }
}
