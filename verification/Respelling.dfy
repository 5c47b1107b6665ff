/**
 One signed authorization under two spellings of its nonce. Typed-data hashing
 reads a bytes32 by its bytes, so the facilitator's gate accepts both.
 */
module Respelling {
  import opened Text
  import opened Json
  import opened Eip712
  import opened Verify

  /** The same message, up to how its nonce is spelled. */
  predicate SameMessage(m: Message, n: Message) {
    && IsBytes32(m.nonce) && IsBytes32(n.nonce) && Bytes(m.nonce) == Bytes(n.nonce)
    && n == m.(nonce := n.nonce)
  }

  /** Recovery depends on the bytes of the nonce, as EIP-712 encodes a bytes32. */
  ghost predicate ReadsBytes(recover: Recover) {
    forall domain, m, n, signature :: SameMessage(m, n) ==> recover(domain, m, signature) == recover(domain, n, signature)
  }

  function SwapCase(c: char): (d: char)
    requires IsHexChar(c)
    ensures IsHexChar(d) && LowerChar(d) == LowerChar(c)
    ensures !IsDigit(c) ==> d != c
  {
    if 'a' <= c <= 'f' then (c - 'a') + 'A' else if 'A' <= c <= 'F' then (c - 'A') + 'a' else c
  }

  /** A nonce with a letter in it has another spelling of the same 32 bytes. */
  lemma AnotherSpelling(nonce: string, i: nat)
    requires IsBytes32(nonce) && 2 <= i < |nonce| && !IsDigit(nonce[i])
    ensures var other := nonce[i := SwapCase(nonce[i])];
      other != nonce && IsBytes32(other) && Bytes(other) == Bytes(nonce)
  {
    var other := nonce[i := SwapCase(nonce[i])];
    HexValueFold(other[2..], nonce[2..]);
  }

  function SetField(j: Json, key: string, value: Json): Json {
    if j.Obj? then Obj(j.fields[key := value]) else j
  }

  /** The signed part with its nonce spelled otherwise. */
  function RespellSigned(inner: Json, nonce: string): Json {
    SetField(inner, "authorization", SetField(MaybeGet(inner, "authorization"), "nonce", Str(nonce)))
  }

  /** The request with its nonce spelled otherwise. */
  function Respell(request: Json, nonce: string): Json {
    var payload := MaybeGet(request, "paymentPayload");
    SetField(request, "paymentPayload", SetField(payload, "payload", RespellSigned(MaybeGet(payload, "payload"), nonce)))
  }

  lemma RespelledAuthorization(inner: Json, amount: nat, payTo: string, network: Network, nowMs: nat, recover: Recover, nonce: string)
    requires ReadsBytes(recover) && CheckAuthorization(inner, amount, payTo, network, nowMs, recover).Accept?
    requires var a := CheckAuthorization(inner, amount, payTo, network, nowMs, recover).authorization;
      IsBytes32(a.nonce) && IsBytes32(nonce) && Bytes(nonce) == Bytes(a.nonce)
    ensures var v := CheckAuthorization(inner, amount, payTo, network, nowMs, recover);
      CheckAuthorization(RespellSigned(inner, nonce), amount, payTo, network, nowMs, recover)
      == Accept(v.payer, v.authorization.(nonce := nonce))
  {
    var a := CheckAuthorization(inner, amount, payTo, network, nowMs, recover).authorization;
    var auth, other := MaybeGet(inner, "authorization"), MaybeGet(RespellSigned(inner, nonce), "authorization");
    assert auth.Obj? && other == SetField(auth, "nonce", Str(nonce));
    assert MaybeGet(RespellSigned(inner, nonce), "signature") == MaybeGet(inner, "signature");
    assert SameMessage(Message(a.from, a.to, a.value, a.validAfter, a.validBefore, a.nonce),
                       Message(a.from, a.to, a.value, a.validAfter, a.validBefore, nonce));
  }

  lemma RespelledTerms(payload: Json, requirements: Json, network: Network, nowMs: nat, recover: Recover, nonce: string)
    requires Readable(payload) && ReadsBytes(recover) && CheckTerms(payload, requirements, network, nowMs, recover).Accept?
    requires var a := CheckTerms(payload, requirements, network, nowMs, recover).authorization;
      IsBytes32(a.nonce) && IsBytes32(nonce) && Bytes(nonce) == Bytes(a.nonce)
    ensures var v := CheckTerms(payload, requirements, network, nowMs, recover);
      var other := SetField(payload, "payload", RespellSigned(MaybeGet(payload, "payload"), nonce));
      && Readable(other)
      && CheckTerms(other, requirements, network, nowMs, recover) == Accept(v.payer, v.authorization.(nonce := nonce))
  {
    var amount := AsNonNegativeInt(Get(requirements, "amount")).value;
    RespelledAuthorization(Get(payload, "payload"), amount, Get(requirements, "payTo").s, network, nowMs, recover, nonce);
  }

  /** Whatever version-2 request is accepted, its respelling is, with the same
      payer and the same authorization but for the text of the nonce. */
  lemma RespelledIsAccepted(request: Json, network: Network, nowMs: nat, recover: Recover, nonce: string)
    requires ReadsBytes(recover) && VerifyOffChain(request, network, nowMs, recover).Accept?
    requires MaybeGet(request, "x402Version") == Num(2.0)
    requires var a := VerifyOffChain(request, network, nowMs, recover).authorization;
      IsBytes32(a.nonce) && IsBytes32(nonce) && Bytes(nonce) == Bytes(a.nonce)
    ensures var v := VerifyOffChain(request, network, nowMs, recover);
      VerifyOffChain(Respell(request, nonce), network, nowMs, recover) == Accept(v.payer, v.authorization.(nonce := nonce))
  {
    var payload, requirements := Get(request, "paymentPayload"), Get(request, "paymentRequirements");
    RespelledTerms(payload, requirements, network, nowMs, recover, nonce);
    var other := Respell(request, nonce);
    assert Get(other, "paymentRequirements") == requirements && Get(other, "x402Version") == Num(2.0);
  }
}
