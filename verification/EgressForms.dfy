/**
 The text forms of an IPv6 address (section 2.2 of RFC 4291): leading zeros, one
 "::" for a run of zero groups, a dotted-quad tail, with optional brackets and
 zone id. Expanding any of them gives back the address it was printed from.
 */
module EgressForms {
  import opened Wrappers
  import opened Text
  import opened AddressText
  import opened EgressV4
  import opened EgressV6
  import opened EgressPrefix

  /** `head`, an elided run of zeros when `elided`, `tail`, then the quad if any. */
  datatype Form = Form(head: seq<string>, tail: seq<string>, elided: bool, quad: Option<Quad>)

  predicate IsGroupText(g: string) {
    1 <= |g| <= 4 && AllHex(g)
  }

  predicate AreGroupTexts(groups: seq<string>) {
    forall i :: 0 <= i < |groups| ==> IsGroupText(groups[i])
  }

  function Shown(f: Form): nat {
    |f.head| + |f.tail| + (if f.quad.Some? then 2 else 0)
  }

  predicate ValidForm(f: Form) {
    && AreGroupTexts(f.head) && AreGroupTexts(f.tail)
    && (f.quad.Some? ==> ValidQuad(f.quad.value))
    && if f.elided then Shown(f) <= 7 else Shown(f) == 8 && f.tail == []
  }

  function QuadParts(f: Form): seq<string> {
    if f.quad.Some? then [QuadText(f.quad.value)] else []
  }

  function BodyText(f: Form): string {
    if f.elided then Join(f.head, ':') + "::" + Join(f.tail + QuadParts(f), ':')
    else Join(f.head + QuadParts(f), ':')
  }

  function AddressForm(f: Form, bracketed: bool, zone: Option<string>): string {
    (if bracketed then "[" else "") + BodyText(f)
    + (if zone.Some? then "%" + zone.value else "") + (if bracketed then "]" else "")
  }

  function HexValues(groups: seq<string>): (r: seq<nat>)
    requires AreGroupTexts(groups)
    ensures |r| == |groups|
  {
    seq(|groups|, i requires 0 <= i < |groups| => HexValue(groups[i]))
  }

  function QuadHextets(f: Form): seq<nat> {
    if f.quad.Some? then [f.quad.value.a * 256 + f.quad.value.b, f.quad.value.c * 256 + f.quad.value.d] else []
  }

  function ZeroRun(n: nat): seq<nat> {
    seq(n, _ => 0)
  }

  /** The eight groups the form stands for. */
  function Hextets(f: Form): (r: seq<nat>)
    requires ValidForm(f)
    ensures |r| == 8
  {
    HexValues(f.head) + ZeroRun(8 - Shown(f)) + HexValues(f.tail) + QuadHextets(f)
  }

  // ---------------------------------------------------------------------
  // Characters
  // ---------------------------------------------------------------------

  predicate IsBodyChar(c: char) {
    IsHexChar(c) || c == ':' || c == '.'
  }

  predicate AllBody(s: string) {
    forall i :: 0 <= i < |s| ==> IsBodyChar(s[i])
  }

  lemma {:induction false} JoinAllBody(parts: seq<string>, sep: char)
    requires IsBodyChar(sep) && forall i :: 0 <= i < |parts| ==> AllBody(parts[i])
    ensures AllBody(Join(parts, sep))
  {
    if |parts| > 1 {
      JoinAllBody(parts[1..], sep);
    }
  }

  lemma QuadTextBody(q: Quad)
    ensures AllBody(QuadText(q))
  {
    DecTextDigits(q.a);
    DecTextDigits(q.b);
    DecTextDigits(q.c);
    DecTextDigits(q.d);
    JoinAllBody([DecText(q.a), DecText(q.b), DecText(q.c), DecText(q.d)], '.');
  }

  lemma BodyTextBody(f: Form)
    requires ValidForm(f)
    ensures AllBody(BodyText(f))
  {
    if f.quad.Some? {
      QuadTextBody(f.quad.value);
    }
    JoinAllBody(f.head, ':');
    JoinAllBody(f.tail + QuadParts(f), ':');
    JoinAllBody(f.head + QuadParts(f), ':');
  }

  /** Brackets and zone id are stripped, whatever the zone. */
  lemma CleanForm(f: Form, bracketed: bool, zone: Option<string>)
    requires ValidForm(f)
    ensures Clean(AddressForm(f, bracketed, zone)) == BodyText(f)
  {
    BodyTextBody(f);
    Wrapped(BodyText(f), if zone.Some? then "%" + zone.value else "");
    if bracketed {
      CleanBracketed(BodyText(f), zone);
    } else {
      CleanUnbracketed(BodyText(f), zone);
    }
  }

  lemma Wrapped(body: string, zone: string)
    ensures "[" + body + zone + "]" == "[" + (body + zone) + "]"
    ensures "" + body + zone + "" == body + zone
  {
    assert "" + body == body;
  }

  lemma CleanBracketed(body: string, zone: Option<string>)
    requires AllBody(body)
    ensures Clean("[" + (body + (if zone.Some? then "%" + zone.value else "")) + "]") == body
  {
    StripPair(body + (if zone.Some? then "%" + zone.value else ""));
    FirstPiece(body, zone);
  }

  lemma StripPair(s: string)
    ensures StripBrackets("[" + s + "]") == s
  {
    assert ("[" + s + "]")[1..] == s + "]";
    assert (s + "]")[..|s|] == s;
  }

  lemma FirstPiece(body: string, zone: Option<string>)
    requires AllBody(body)
    ensures Split(body + (if zone.Some? then "%" + zone.value else ""), '%')[0] == body
  {
    if zone.Some? {
      assert body + ("%" + zone.value) == body + ['%'] + zone.value;
      SplitAt(body, '%', zone.value);
    } else {
      assert body + "" == body;
      SplitPlain(body, '%');
    }
  }

  lemma CleanUnbracketed(body: string, zone: Option<string>)
    requires AllBody(body)
    ensures Clean(body + (if zone.Some? then "%" + zone.value else "")) == body
  {
    var s := body + (if zone.Some? then "%" + zone.value else "");
    FirstPiece(body, zone);
    assert s != "" ==> s[0] != '[' by {
      assert body != "" ==> s[0] == body[0] && IsBodyChar(body[0]);
    }
    if s != "" && s[|s| - 1] == ']' {
      assert body != "" ==> IsBodyChar(body[|body| - 1]);
      var shorter := zone.value[..|zone.value| - 1];
      assert s[..|s| - 1] == body + ("%" + shorter);
      FirstPiece(body, Some(shorter));
    }
  }

  // ---------------------------------------------------------------------
  // The dotted-quad tail
  // ---------------------------------------------------------------------

  /** The same address with the quad spelled as two groups. */
  function Plain(f: Form): Form {
    if f.quad.None? then f
    else
      var groups := [HexText(f.quad.value.a * 256 + f.quad.value.b), HexText(f.quad.value.c * 256 + f.quad.value.d)];
      if f.elided then Form(f.head, f.tail + groups, true, None) else Form(f.head + groups, [], false, None)
  }

  lemma HexTextIsGroup(n: nat)
    requires n < 65536
    ensures IsGroupText(HexText(n)) && HexValue(HexText(n)) == n
  {
    HexTextValue(n);
  }

  lemma HexValuesAppend(groups: seq<string>, hi: string, lo: string)
    requires AreGroupTexts(groups) && IsGroupText(hi) && IsGroupText(lo)
    ensures AreGroupTexts(groups + [hi, lo])
    ensures HexValues(groups + [hi, lo]) == HexValues(groups) + [HexValue(hi), HexValue(lo)]
  {
  }

  lemma PlainIsSame(f: Form)
    requires ValidForm(f)
    ensures ValidForm(Plain(f)) && Hextets(Plain(f)) == Hextets(f)
  {
    if f.quad.Some? {
      var x, y := f.quad.value.a * 256 + f.quad.value.b, f.quad.value.c * 256 + f.quad.value.d;
      HexTextIsGroup(x);
      HexTextIsGroup(y);
      if f.elided {
        PlainElided(f, HexText(x), HexText(y), x, y);
      } else {
        PlainFull(f, HexText(x), HexText(y), x, y);
      }
    }
  }

  lemma PlainElided(f: Form, hi: string, lo: string, x: nat, y: nat)
    requires ValidForm(f) && f.elided && f.quad.Some? && QuadHextets(f) == [x, y]
    requires IsGroupText(hi) && IsGroupText(lo) && HexValue(hi) == x && HexValue(lo) == y
    ensures ValidForm(Form(f.head, f.tail + [hi, lo], true, None))
    ensures Hextets(Form(f.head, f.tail + [hi, lo], true, None)) == Hextets(f)
  {
    HexValuesAppend(f.tail, hi, lo);
    AppendAssociates(HexValues(f.head) + ZeroRun(8 - Shown(f)), HexValues(f.tail), [x, y]);
  }

  lemma PlainFull(f: Form, hi: string, lo: string, x: nat, y: nat)
    requires ValidForm(f) && !f.elided && f.quad.Some? && QuadHextets(f) == [x, y]
    requires IsGroupText(hi) && IsGroupText(lo) && HexValue(hi) == x && HexValue(lo) == y
    ensures ValidForm(Form(f.head + [hi, lo], [], false, None))
    ensures Hextets(Form(f.head + [hi, lo], [], false, None)) == Hextets(f)
  {
    HexValuesAppend(f.head, hi, lo);
    assert ZeroRun(0) == [] && HexValues([]) == [];
  }

  lemma AppendAssociates(a: seq<nat>, b: seq<nat>, c: seq<nat>)
    ensures a + (b + c) == a + b + c && a + b + c + [] == a + b + c
  {
  }

  lemma {:induction false} AfterLastColonOf(prefix: string, last: string)
    requires ':' !in last && (prefix == "" || prefix[|prefix| - 1] == ':')
    ensures AfterLastColon(prefix + last) == |prefix|
    decreases |last|
  {
    var s := prefix + last;
    if last == "" {
      assert s == prefix;
    } else {
      assert s[..|s| - 1] == prefix + last[..|last| - 1];
      AfterLastColonOf(prefix, last[..|last| - 1]);
    }
  }

  lemma {:induction false} JoinSnoc(parts: seq<string>, last: string, sep: char)
    requires parts != []
    ensures Join(parts + [last], sep) == Join(parts, sep) + [sep] + last
  {
    assert (parts + [last])[0] == parts[0] && (parts + [last])[1..] == parts[1..] + [last];
    if |parts| > 1 {
      JoinSnoc(parts[1..], last, sep);
    } else {
      assert parts[1..] + [last] == [last];
    }
  }

  /** Everything before the quad, up to and including the last colon. */
  function BeforeQuad(f: Form): string {
    if f.elided then Join(f.head, ':') + "::" + (if f.tail == [] then "" else Join(f.tail, ':') + ":")
    else Join(f.head, ':') + ":"
  }

  function QuadGroups(q: Quad): string {
    HexText(q.a * 256 + q.b) + ":" + HexText(q.c * 256 + q.d)
  }

  lemma QuadSplitsOff(f: Form)
    requires ValidForm(f) && f.quad.Some?
    ensures BodyText(f) == BeforeQuad(f) + QuadText(f.quad.value)
    ensures BodyText(Plain(f)) == BeforeQuad(f) + QuadGroups(f.quad.value)
  {
    if f.elided {
      QuadSplitsOffElided(f);
    } else {
      QuadSplitsOffFull(f);
    }
  }

  lemma QuadSplitsOffElided(f: Form)
    requires ValidForm(f) && f.quad.Some? && f.elided
    ensures BodyText(f) == BeforeQuad(f) + QuadText(f.quad.value)
    ensures BodyText(Plain(f)) == BeforeQuad(f) + QuadGroups(f.quad.value)
  {
    var q := f.quad.value;
    var head := Join(f.head, ':') + "::";
    var joined := if f.tail == [] then "" else Join(f.tail, ':') + ":";
    JoinLast(f.tail, QuadText(q));
    JoinLastTwo(f.tail, HexText(q.a * 256 + q.b), HexText(q.c * 256 + q.d));
    var groups := [HexText(q.a * 256 + q.b), HexText(q.c * 256 + q.d)];
    assert f.tail + groups + [] == f.tail + groups;
    assert BodyText(Plain(f)) == head + (joined + QuadGroups(q));
    Associate(head, joined, QuadGroups(q));
    Associate(head, joined, QuadText(q));
  }

  lemma QuadSplitsOffFull(f: Form)
    requires ValidForm(f) && f.quad.Some? && !f.elided
    ensures BodyText(f) == BeforeQuad(f) + QuadText(f.quad.value)
    ensures BodyText(Plain(f)) == BeforeQuad(f) + QuadGroups(f.quad.value)
  {
    var q := f.quad.value;
    JoinLast(f.head, QuadText(q));
    JoinLastTwo(f.head, HexText(q.a * 256 + q.b), HexText(q.c * 256 + q.d));
    var groups := [HexText(q.a * 256 + q.b), HexText(q.c * 256 + q.d)];
    assert f.head + groups + [] == f.head + groups;
  }

  lemma Associate(a: string, b: string, c: string)
    ensures a + (b + c) == a + b + c
  {
  }

  lemma JoinLast(parts: seq<string>, last: string)
    ensures Join(parts + [last], ':') == (if parts == [] then "" else Join(parts, ':') + ":") + last
  {
    if parts == [] {
      assert parts + [last] == [last];
    } else {
      JoinSnoc(parts, last, ':');
    }
  }

  lemma JoinLastTwo(parts: seq<string>, hi: string, lo: string)
    ensures Join(parts + [hi, lo], ':') == (if parts == [] then "" else Join(parts, ':') + ":") + (hi + ":" + lo)
  {
    assert parts + [hi, lo] == parts + [hi] + [lo];
    JoinLast(parts + [hi], lo);
    JoinLast(parts, hi);
  }

  lemma DecTextShort(n: nat)
    requires n < 256
    ensures IsQuadPart(DecText(n)) && DecValue(DecText(n)) == n
  {
    DecTextValue(n);
    assert n >= 10 ==> |DecText(n)| == |DecText(n / 10)| + 1;
    assert n >= 100 ==> |DecText(n / 10)| == |DecText(n / 10 / 10)| + 1;
  }

  lemma BodyHasNoLineBreak(s: string)
    requires AllBody(s)
    ensures NoLineBreak(s)
  {
  }

  lemma PartsOfQuad(q: Quad)
    requires ValidQuad(q)
    ensures var parts := Split(QuadText(q), '.');
      && |parts| == 4 && (forall k :: 0 <= k < 4 ==> IsQuadPart(parts[k]))
      && Quad(DecValue(parts[0]), DecValue(parts[1]), DecValue(parts[2]), DecValue(parts[3])) == q
  {
    DecTextShort(q.a);
    DecTextShort(q.b);
    DecTextShort(q.c);
    DecTextShort(q.d);
    SplitJoin([DecText(q.a), DecText(q.b), DecText(q.c), DecText(q.d)], '.');
  }

  lemma AppendGroups(prefix: string, hi: string, lo: string)
    ensures prefix + hi + ":" + lo == prefix + (hi + ":" + lo)
  {
  }

  lemma RewriteTail(prefix: string, q: Quad)
    requires AllBody(prefix) && prefix != "" && prefix[|prefix| - 1] == ':' && ValidQuad(q)
    ensures RewriteQuad(prefix + QuadText(q)) == Some(prefix + QuadGroups(q))
  {
    var s := prefix + QuadText(q);
    QuadTextHasNoColon(q);
    AfterLastColonOf(prefix, QuadText(q));
    assert s[..|prefix|] == prefix && s[|prefix|..] == QuadText(q);
    BodyHasNoLineBreak(prefix);
    PartsOfQuad(q);
    AppendGroups(prefix, HexText(q.a * 256 + q.b), HexText(q.c * 256 + q.d));
  }

  lemma BeforeQuadBody(f: Form)
    requires ValidForm(f) && f.quad.Some?
    ensures AllBody(BeforeQuad(f)) && BeforeQuad(f) != "" && BeforeQuad(f)[|BeforeQuad(f)| - 1] == ':'
  {
    JoinAllBody(f.head, ':');
    JoinAllBody(f.tail, ':');
  }

  /** The quad tail is rewritten into the plain form, and plain text is left alone. */
  lemma RewriteForm(f: Form)
    requires ValidForm(f)
    ensures RewriteQuad(BodyText(f)) == Some(BodyText(Plain(f)))
  {
    if f.quad.Some? {
      QuadSplitsOff(f);
      BeforeQuadBody(f);
      RewriteTail(BeforeQuad(f), f.quad.value);
    } else {
      NoDotInPlain(f);
      SplitPlain(BodyText(f)[AfterLastColon(BodyText(f))..], '.');
    }
  }

  lemma NoDotInPlain(f: Form)
    requires ValidForm(f) && f.quad.None?
    ensures '.' !in BodyText(f)
  {
    assert f.head + QuadParts(f) == f.head && f.tail + QuadParts(f) == f.tail;
    JoinAvoids(f.head, ':', '.');
    JoinAvoids(f.tail, ':', '.');
  }

  // ---------------------------------------------------------------------
  // The double colon and the groups
  // ---------------------------------------------------------------------

  lemma {:induction false} FirstDoubleSkips(a: string, rest: string)
    requires ':' !in a
    ensures FirstDouble(a + rest) == |a| + FirstDouble(rest)
  {
    if a == "" {
      assert a + rest == rest;
    } else {
      FirstDoubleSkips(a[1..], rest);
      assert (a + rest)[1..] == a[1..] + rest;
    }
  }

  /** Joined groups hold no "::"; the first one is the one that follows them. */
  lemma {:induction false} FirstDoubleAfterGroups(groups: seq<string>, rest: string)
    requires AreGroupTexts(groups) && (rest == "" || "::" <= rest)
    ensures FirstDouble(Join(groups, ':') + rest) == |Join(groups, ':')| + FirstDouble(rest)
  {
    if groups == [] {
      assert Join(groups, ':') + rest == rest;
    } else if |groups| == 1 {
      FirstDoubleSkips(groups[0], rest);
    } else {
      var later := Join(groups[1..], ':') + rest;
      FirstDoubleAfterGroups(groups[1..], rest);
      assert Join(groups, ':') + rest == groups[0] + (":" + later);
      FirstDoubleSkips(groups[0], ":" + later);
      JoinStartsWithGroup(groups[1..]);
      assert later[0] == Join(groups[1..], ':')[0];
      assert (":" + later)[1..] == later;
    }
  }

  lemma JoinStartsWithGroup(groups: seq<string>)
    requires groups != [] && AreGroupTexts(groups)
    ensures Join(groups, ':') != "" && IsHexChar(Join(groups, ':')[0])
  {
    assert IsGroupText(groups[0]);
  }

  lemma GroupsOfJoin(groups: seq<string>)
    requires AreGroupTexts(groups)
    ensures GroupsOf(Join(groups, ':')) == groups
  {
    if groups != [] {
      JoinStartsWithGroup(groups);
      SplitJoin(groups, ':');
    }
  }

  lemma {:induction false} HexPrefixOfHex(s: string)
    requires AllHex(s)
    ensures HexPrefix(s) == s
  {
    if s != "" {
      HexPrefixOfHex(s[1..]);
    }
  }

  lemma ParseGroupText(g: string)
    requires IsGroupText(g)
    ensures ParseIntHex(g) == Some(HexValue(g))
  {
    assert IsHexChar(g[0]);
    assert |g| >= 2 ==> IsHexChar(g[1]);
    HexPrefixOfHex(g);
  }

  lemma ParsedGroups(groups: seq<string>)
    requires AreGroupTexts(groups)
    ensures Parsed(groups) == AsGroups(HexValues(groups))
  {
    forall i | 0 <= i < |groups| ensures Parsed(groups)[i] == AsGroups(HexValues(groups))[i] {
      ParseGroupText(groups[i]);
    }
  }

  lemma FindDouble(head: seq<string>, tail: seq<string>)
    requires AreGroupTexts(head) && AreGroupTexts(tail)
    ensures var s, tailText := Join(head, ':') + "::" + Join(tail, ':'), Join(tail, ':');
      && FirstDouble(s) == |Join(head, ':')| < |s|
      && s[..FirstDouble(s)] == Join(head, ':') && s[FirstDouble(s) + 2..] == tailText
      && tailText[..FirstDouble(tailText)] == tailText
  {
    var tailText := Join(tail, ':');
    var s := Join(head, ':') + "::" + tailText;
    assert s == Join(head, ':') + ("::" + tailText);
    FirstDoubleAfterGroups(head, "::" + tailText);
    FirstDoubleAfterGroups(tail, "");
    assert tailText + "" == tailText;
  }

  lemma AsGroupsOfRuns(head: seq<nat>, zeros: nat, tail: seq<nat>)
    ensures AsGroups(head + ZeroRun(zeros) + tail + []) == AsGroups(head) + Zeros(zeros) + AsGroups(tail)
  {
    assert head + ZeroRun(zeros) + tail + [] == head + ZeroRun(zeros) + tail;
  }

  lemma NoQuadParts(f: Form)
    requires f.quad.None?
    ensures f.tail + QuadParts(f) == f.tail && f.head + QuadParts(f) == f.head
  {
  }

  lemma ExpandElided(f: Form)
    requires ValidForm(f) && f.quad.None? && f.elided
    ensures ExpandGroups(BodyText(f)) == Some(AsGroups(Hextets(f)))
  {
    NoQuadParts(f);
    FindDouble(f.head, f.tail);
    GroupsOfJoin(f.head);
    GroupsOfJoin(f.tail);
    ParsedGroups(f.head);
    ParsedGroups(f.tail);
    AsGroupsOfRuns(HexValues(f.head), 8 - Shown(f), HexValues(f.tail));
  }

  /** Plain text expands to the groups it shows, zeros filling the elided run. */
  lemma ExpandPlain(f: Form)
    requires ValidForm(f) && f.quad.None?
    ensures ExpandGroups(BodyText(f)) == Some(AsGroups(Hextets(f)))
  {
    if f.elided {
      ExpandElided(f);
    } else {
      var s := BodyText(f);
      NoQuadParts(f);
      FirstDoubleAfterGroups(f.head, "");
      assert s + "" == s;
      SplitJoin(f.head, ':');
      ParsedGroups(f.head);
      assert Parsed(f.head) + Zeros(0) == AsGroups(Hextets(f));
    }
  }

  /** expandV6 inverts printing: every text form of an address, bracketed or not,
      with any zone id, expands to the address's own eight groups. */
  lemma ExpandInvertsPrinting(f: Form, bracketed: bool, zone: Option<string>)
    requires ValidForm(f)
    ensures ExpandV6(AddressForm(f, bracketed, zone)) == Some(AsGroups(Hextets(f)))
  {
    CleanForm(f, bracketed, zone);
    RewriteForm(f);
    PlainIsSame(f);
    ExpandPlain(Plain(f));
  }
}
