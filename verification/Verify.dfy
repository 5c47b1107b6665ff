/**
 The facilitator's off-chain verification (zeus-facilitator/src/verify.ts):
 v1 normalisation, the ordered structural checks and signature recovery, over
 untyped JSON. `Threw` is a TypeError that escapes to the HTTP layer.
 */
module Verify {
  import opened Wrappers
  import opened Text
  import opened Json
  import opened Eip712

  datatype Reason =
    | MalformedRequest
    | UnsupportedScheme
    | NetworkMismatch
    | AssetMismatch
    | PayToMismatch
    | AmountMismatch
    | VersionMismatch
    | DomainBindingMissing
    | DomainMismatch
    | AuthorizationMismatch
    | AuthorizationWindow
    | InvalidSignature

  datatype VerifiedAuthorization = VerifiedAuthorization(
    from: string, to: string, value: nat, validAfter: nat, validBefore: nat, nonce: string)

  datatype Verdict =
    | Accept(payer: string, authorization: VerifiedAuthorization)
    | Refuse(reason: Reason)
    | Threw

  datatype Network = Network(id: string, chainId: int, usdc: string, domainName: string, domainVersion: string)

  /** The EIP-712 domain the registry pins for a network. */
  function PinnedDomain(network: Network): Domain {
    Domain(network.domainName, network.domainVersion, network.chainId, network.usdc)
  }

  predicate IsAddressJson(j: Json) {
    j.Str? && IsAddress(j.s)
  }

  predicate IsSame(j: Json, s: string) {
    j.Str? && j.s == s
  }

  function AsNonNegativeInt(j: Json): Option<nat> {
    if j.Str? && IsDigits(j.s) then Some(DecValue(j.s)) else None
  }

  // ---------------------------------------------------------------------
  // x402 v1
  // ---------------------------------------------------------------------

  /** Names every JavaScript object answers to: a table lookup finds them too. */
  const INHERITED_NAMES: set<string> := {
    "constructor", "__proto__", "__defineGetter__", "__defineSetter__", "__lookupGetter__", "__lookupSetter__",
    "hasOwnProperty", "isPrototypeOf", "propertyIsEnumerable", "toLocaleString", "toString", "valueOf"
  }

  /** A canonical network id: eip155, a colon, digits. */
  predicate IsEip155(s: string) {
    |s| > 7 && s[..7] == "eip155:" && AllDigits(s[7..])
  }

  /** The canonical network a v1 name stands for; Undefined when it names none. */
  function AliasV1Network(j: Json): Json {
    if !j.Str? then Undefined
    else if j.s == "base-sepolia" then Str("eip155:84532")
    else if j.s == "x-layer" then Str("eip155:196")
    else if j.s in INHERITED_NAMES then Inherited(j.s)
    else if IsEip155(j.s) then j
    else Undefined
  }

  datatype Normalization =
    | Normalized(paymentPayload: Json, paymentRequirements: Json)
    | NotV1
    | NormalizeThrew

  function NormalizeV1(request: Json): Normalization
    requires Readable(request)
  {
    var payload := Get(request, "paymentPayload");
    var requirements := Get(request, "paymentRequirements");
    if Get(request, "x402Version") != Num(1.0) then NotV1
    else if !Readable(payload) then NormalizeThrew
    else if Get(payload, "x402Version") != Num(1.0) then NotV1
    else if !IsSame(Get(payload, "scheme"), "exact") then NotV1
    else if !Readable(requirements) then NormalizeThrew
    else if !IsSame(Get(requirements, "scheme"), "exact") then NotV1
    else
      var inner := Get(payload, "payload");
      if !TypeofObject(inner) || inner.Null? then NotV1
      else if !Get(inner, "signature").Str? then NotV1
      else
        var authorization := Get(inner, "authorization");
        if !TypeofObject(authorization) || authorization.Null? then NotV1
        else NormalizeTerms(Get(payload, "network"), requirements, inner)
  }

  /** The canonical terms of v1 requirements, once both sides have the v1 shape. */
  function NormalizeTerms(payloadNetwork: Json, requirements: Json, inner: Json): Normalization
    requires Readable(requirements)
  {
    var networkId := Coalesce(AliasV1Network(Get(requirements, "network")), AliasV1Network(payloadNetwork));
    var amount := Coalesce(Get(requirements, "maxAmountRequired"), Get(requirements, "amount"));
    var asset := Get(requirements, "asset");
    var payTo := Get(requirements, "payTo");
    if !Truthy(networkId) || !amount.Str? || !Truthy(amount) || !IsAddressJson(asset) || !IsAddressJson(payTo)
    then NotV1
    else
      var extraRaw := Get(requirements, "extra");
      var extra := if TypeofObject(extraRaw) && !extraRaw.Null? then extraRaw else Undefined;
      var timeoutRaw := Get(requirements, "maxTimeoutSeconds");
      var timeout := if timeoutRaw.Num? then timeoutRaw else Num(60.0);
      var terms := Obj(map["scheme" := Str("exact"), "network" := networkId, "amount" := amount, "asset" := asset,
                           "payTo" := payTo, "maxTimeoutSeconds" := timeout, "extra" := extra]);
      Normalized(Obj(map["x402Version" := Num(1.0), "accepted" := terms, "payload" := inner]), terms)
  }

  // ---------------------------------------------------------------------
  // The ordered checks on a canonical envelope
  // ---------------------------------------------------------------------

  function CheckTerms(payload: Json, requirements: Json, network: Network, nowMs: nat, recover: Recover): Verdict
    requires Readable(payload)
  {
    if !Readable(requirements) then Threw
    else if !IsSame(Get(requirements, "scheme"), "exact") then Refuse(UnsupportedScheme)
    else
      var accepted := Get(payload, "accepted");
      if !Readable(accepted) then Threw
      else if !IsSame(Get(accepted, "scheme"), "exact") then Refuse(UnsupportedScheme)
      else if !IsSame(Get(requirements, "network"), network.id) || !IsSame(Get(accepted, "network"), network.id)
      then Refuse(NetworkMismatch)
      else if !IsUsdc(Get(requirements, "asset"), network) || !IsUsdc(Get(accepted, "asset"), network)
      then Refuse(AssetMismatch)
      else
        var name := MaybeGet(Get(requirements, "extra"), "name");
        var version := MaybeGet(Get(requirements, "extra"), "version");
        var payloadName := MaybeGet(Get(accepted, "extra"), "name");
        var payloadVersion := MaybeGet(Get(accepted, "extra"), "version");
        if !name.Str? || name.s == "" || !version.Str? || version.s == "" then Refuse(DomainBindingMissing)
        else if name.s != network.domainName || version.s != network.domainVersion then Refuse(DomainMismatch)
        else if (!payloadName.Undefined? && !IsSame(payloadName, network.domainName))
             || (!payloadVersion.Undefined? && !IsSame(payloadVersion, network.domainVersion))
        then Refuse(DomainMismatch)
        else
          var amount := AsNonNegativeInt(Get(requirements, "amount"));
          var payTo := Get(requirements, "payTo");
          var acceptedPayTo := Get(accepted, "payTo");
          if amount.None? || amount.value == 0 then Refuse(AmountMismatch)
          else if !IsAddressJson(payTo) then Refuse(PayToMismatch)
          else if Readable(acceptedPayTo) && !acceptedPayTo.Str? then Threw
          else if !acceptedPayTo.Str? || !SameFold(payTo.s, acceptedPayTo.s) then Refuse(PayToMismatch)
          else CheckAuthorization(Get(payload, "payload"), amount.value, payTo.s, network, nowMs, recover)
  }

  predicate IsUsdc(j: Json, network: Network) {
    IsAddressJson(j) && SameFold(j.s, network.usdc)
  }

  function CheckAuthorization(inner: Json, amount: nat, payTo: string, network: Network, nowMs: nat, recover: Recover): Verdict {
    var auth := MaybeGet(inner, "authorization");
    if !Truthy(auth) then Refuse(MalformedRequest)
    else if !IsAddressJson(Get(auth, "from")) || !IsAddressJson(Get(auth, "to"))
         || !Get(auth, "nonce").Str? || !IsBytes32(Get(auth, "nonce").s)
    then Refuse(MalformedRequest)
    else
      var value := AsNonNegativeInt(Get(auth, "value"));
      var validAfter := AsNonNegativeInt(Get(auth, "validAfter"));
      var validBefore := AsNonNegativeInt(Get(auth, "validBefore"));
      if value.None? || validAfter.None? || validBefore.None? then Refuse(MalformedRequest)
      else if value.value != amount then Refuse(AmountMismatch)
      else if !SameFold(Get(auth, "to").s, payTo) then Refuse(AuthorizationMismatch)
      else if validBefore.value <= nowMs / 1000 then Refuse(AuthorizationWindow)
      else if validAfter.value > nowMs / 1000 then Refuse(AuthorizationWindow)
      else
        var authorization := VerifiedAuthorization(Get(auth, "from").s, Get(auth, "to").s, value.value,
                                                   validAfter.value, validBefore.value, Get(auth, "nonce").s);
        CheckSignature(MaybeGet(inner, "signature"), authorization, network, recover)
  }

  function CheckSignature(signature: Json, a: VerifiedAuthorization, network: Network, recover: Recover): Verdict {
    if !signature.Str? || !IsSignature65(signature.s) then Refuse(InvalidSignature)
    else
      var recovered := recover(PinnedDomain(network),
                               Message(a.from, a.to, a.value, a.validAfter, a.validBefore, a.nonce), signature.s);
      if recovered.None? || !SameFold(recovered.value, a.from) then Refuse(InvalidSignature)
      else Accept(recovered.value, a)
  }

  function VerifyOffChain(request: Json, network: Network, nowMs: nat, recover: Recover): Verdict {
    if !TypeofObject(request) || request.Null? || !Get(request, "x402Version").Num?
       || !TypeofObject(Get(request, "paymentPayload")) || !TypeofObject(Get(request, "paymentRequirements"))
    then Refuse(MalformedRequest)
    else
      var version := Get(request, "x402Version").n;
      var payload := Get(request, "paymentPayload");
      if version != 1.0 && version != 2.0 then Refuse(VersionMismatch)
      else if version == 1.0 then
        match NormalizeV1(request)
        case NormalizeThrew => Threw
        case NotV1 => Refuse(VersionMismatch)
        case Normalized(p, r) => CheckTerms(p, r, network, nowMs, recover)
      else if !Readable(payload) then Threw
      else if Get(payload, "x402Version") != Num(2.0) then Refuse(VersionMismatch)
      else CheckTerms(payload, Get(request, "paymentRequirements"), network, nowMs, recover)
  }

  // ---------------------------------------------------------------------
  // What verification guarantees
  // ---------------------------------------------------------------------

  /** The normalised v1 envelope as a request that calls itself version 2. */
  function RelabelledV2(n: Normalization): Json
    requires n.Normalized? && n.paymentPayload.Obj?
  {
    Obj(map["x402Version" := Num(2.0),
            "paymentPayload" := Obj(n.paymentPayload.fields["x402Version" := Num(2.0)]),
            "paymentRequirements" := n.paymentRequirements])
  }

  /** Verification of one side only: every check on `accepted` is left out. */
  function CheckRequirementsOnly(inner: Json, requirements: Json, network: Network, nowMs: nat, recover: Recover): Verdict
    requires Readable(requirements)
  {
    var name := MaybeGet(Get(requirements, "extra"), "name");
    var version := MaybeGet(Get(requirements, "extra"), "version");
    var amount := AsNonNegativeInt(Get(requirements, "amount"));
    var payTo := Get(requirements, "payTo");
    if !IsSame(Get(requirements, "scheme"), "exact") then Refuse(UnsupportedScheme)
    else if !IsSame(Get(requirements, "network"), network.id) then Refuse(NetworkMismatch)
    else if !IsUsdc(Get(requirements, "asset"), network) then Refuse(AssetMismatch)
    else if !name.Str? || name.s == "" || !version.Str? || version.s == "" then Refuse(DomainBindingMissing)
    else if name.s != network.domainName || version.s != network.domainVersion then Refuse(DomainMismatch)
    else if amount.None? || amount.value == 0 then Refuse(AmountMismatch)
    else if !IsAddressJson(payTo) then Refuse(PayToMismatch)
    else CheckAuthorization(inner, amount.value, payTo.s, network, nowMs, recover)
  }

  /** When both sides carry the same terms, the cross-checks decide nothing. */
  lemma EqualTermsNeedNoCrossCheck(payload: Json, terms: Json, network: Network, nowMs: nat, recover: Recover)
    requires Readable(payload) && Readable(terms) && Get(payload, "accepted") == terms
    ensures !CheckTerms(payload, terms, network, nowMs, recover).Threw? ==>
              CheckTerms(payload, terms, network, nowMs, recover)
              == CheckRequirementsOnly(Get(payload, "payload"), terms, network, nowMs, recover)
    ensures IsAddressJson(Get(terms, "payTo")) ==> !CheckTerms(payload, terms, network, nowMs, recover).Threw?
    ensures IsAddressJson(Get(terms, "payTo")) ==> CheckTerms(payload, terms, network, nowMs, recover) != Refuse(PayToMismatch)
  {
  }

  /** The shape of what normalisation builds. */
  lemma NormalizedShape(request: Json)
    requires Readable(request) && NormalizeV1(request).Normalized?
    ensures var n := NormalizeV1(request);
      && n.paymentPayload.Obj? && n.paymentRequirements.Obj?
      && Get(n.paymentPayload, "accepted") == n.paymentRequirements
      && Get(n.paymentPayload, "payload") == Get(Get(request, "paymentPayload"), "payload")
      && Get(n.paymentRequirements, "scheme") == Str("exact")
      && IsAddressJson(Get(n.paymentRequirements, "payTo"))
  {
  }

  /** v1 normalisation preserves meaning: the v1 request gets the verdict of its
      version-2 relabelling, and of the requirements alone, so no cross-check
      between `accepted` and `requirements` can ever decide it or throw. */
  lemma NormalizationPreservesVerdict(request: Json, network: Network, nowMs: nat, recover: Recover)
    requires Readable(request) && NormalizeV1(request).Normalized?
    ensures NormalizeV1(request).paymentPayload.Obj? && Readable(NormalizeV1(request).paymentRequirements)
    ensures VerifyOffChain(request, network, nowMs, recover)
         == VerifyOffChain(RelabelledV2(NormalizeV1(request)), network, nowMs, recover)
    ensures VerifyOffChain(request, network, nowMs, recover)
         == CheckRequirementsOnly(Get(Get(request, "paymentPayload"), "payload"),
                                  NormalizeV1(request).paymentRequirements, network, nowMs, recover)
    ensures !VerifyOffChain(request, network, nowMs, recover).Threw?
    ensures VerifyOffChain(request, network, nowMs, recover) != Refuse(PayToMismatch)
  {
    var n := NormalizeV1(request);
    NormalizedShape(request);
    OnlyObjectsNormalize(request);
    VersionOneShape(request, network, nowMs, recover);
    RelabelledReads(n);
    VersionTwoShape(RelabelledV2(n), network, nowMs, recover);
    EqualTermsNeedNoCrossCheck(n.paymentPayload, n.paymentRequirements, network, nowMs, recover);
    EqualTermsNeedNoCrossCheck(Get(RelabelledV2(n), "paymentPayload"), n.paymentRequirements, network, nowMs, recover);
  }

  lemma RelabelledReads(n: Normalization)
    requires n.Normalized? && n.paymentPayload.Obj?
    ensures var v2 := RelabelledV2(n); var payload := Get(v2, "paymentPayload");
      && v2.Obj? && Get(v2, "x402Version") == Num(2.0) && Get(v2, "paymentRequirements") == n.paymentRequirements
      && payload.Obj? && Get(payload, "x402Version") == Num(2.0)
      && Get(payload, "accepted") == Get(n.paymentPayload, "accepted")
      && Get(payload, "payload") == Get(n.paymentPayload, "payload")
  {
  }

  /** A version-2 request is checked as it stands. */
  lemma VersionTwoShape(request: Json, network: Network, nowMs: nat, recover: Recover)
    requires request.Obj? && Get(request, "x402Version") == Num(2.0)
    requires Get(request, "paymentPayload").Obj? && Get(request, "paymentRequirements").Obj?
    requires Get(Get(request, "paymentPayload"), "x402Version") == Num(2.0)
    ensures VerifyOffChain(request, network, nowMs, recover)
         == CheckTerms(Get(request, "paymentPayload"), Get(request, "paymentRequirements"), network, nowMs, recover)
  {
  }

  /** A version-1 request is checked as normalised. */
  lemma VersionOneShape(request: Json, network: Network, nowMs: nat, recover: Recover)
    requires request.Obj? && Get(request, "x402Version") == Num(1.0)
    requires Get(request, "paymentPayload").Obj? && Get(request, "paymentRequirements").Obj?
    requires NormalizeV1(request).Normalized? && Readable(NormalizeV1(request).paymentPayload)
    ensures VerifyOffChain(request, network, nowMs, recover)
         == CheckTerms(NormalizeV1(request).paymentPayload, NormalizeV1(request).paymentRequirements, network, nowMs, recover)
  {
  }

  lemma OnlyObjectsNormalize(request: Json)
    requires Readable(request) && NormalizeV1(request).Normalized?
    ensures request.Obj? && Get(request, "x402Version") == Num(1.0)
    ensures Get(request, "paymentPayload").Obj? && Get(request, "paymentRequirements").Obj?
  {
  }

  /** What acceptance says of the authorization: proper shapes, a positive value,
      an open window, and a signature over these very fields that recovers to the payer. */
  ghost predicate Sound(v: Verdict, network: Network, nowMs: nat, recover: Recover)
    requires v.Accept?
  {
    var a := v.authorization;
    && IsAddress(a.from) && IsAddress(a.to) && IsBytes32(a.nonce) && a.value > 0
    && a.validAfter <= nowMs / 1000 < a.validBefore
    && SameFold(v.payer, a.from)
    && exists signature :: IsSignature65(signature) &&
         recover(PinnedDomain(network), Message(a.from, a.to, a.value, a.validAfter, a.validBefore, a.nonce), signature) == Some(v.payer)
  }

  lemma AcceptedAuthorizationIsSound(inner: Json, amount: nat, payTo: string, network: Network, nowMs: nat, recover: Recover)
    requires amount > 0 && CheckAuthorization(inner, amount, payTo, network, nowMs, recover).Accept?
    ensures Sound(CheckAuthorization(inner, amount, payTo, network, nowMs, recover), network, nowMs, recover)
  {
    var signature := MaybeGet(inner, "signature");
    assert signature.Str? && IsSignature65(signature.s);
  }

  lemma AcceptedTermsAreSound(payload: Json, requirements: Json, network: Network, nowMs: nat, recover: Recover)
    requires Readable(payload) && CheckTerms(payload, requirements, network, nowMs, recover).Accept?
    ensures Sound(CheckTerms(payload, requirements, network, nowMs, recover), network, nowMs, recover)
  {
    var amount := AsNonNegativeInt(Get(requirements, "amount")).value;
    AcceptedAuthorizationIsSound(Get(payload, "payload"), amount, Get(requirements, "payTo").s, network, nowMs, recover);
  }

  /** Whatever the version, an accepted authorization is sound. */
  lemma AcceptedIsWellFormed(request: Json, network: Network, nowMs: nat, recover: Recover)
    requires VerifyOffChain(request, network, nowMs, recover).Accept?
    ensures Sound(VerifyOffChain(request, network, nowMs, recover), network, nowMs, recover)
  {
    if Get(request, "x402Version").n == 1.0 {
      var n := NormalizeV1(request);
      AcceptedTermsAreSound(n.paymentPayload, n.paymentRequirements, network, nowMs, recover);
    } else {
      AcceptedTermsAreSound(Get(request, "paymentPayload"), Get(request, "paymentRequirements"), network, nowMs, recover);
    }
  }

  // ---------------------------------------------------------------------
  // One payment in both versions
  // ---------------------------------------------------------------------

  /** The terms of a payment and its signed part, free of any envelope. */
  datatype Payment = Payment(network: string, amount: string, asset: string, payTo: string, timeout: real, extra: Json, signed: Json)

  /** As an official v1 client writes it, with the network under the name `alias`. */
  function V1Request(p: Payment, alias: string): Json {
    Obj(map["x402Version" := Num(1.0),
            "paymentPayload" := Obj(map["x402Version" := Num(1.0), "scheme" := Str("exact"), "network" := Str(alias),
                                        "payload" := p.signed]),
            "paymentRequirements" := V1Requirements(p, alias)])
  }

  function V1Requirements(p: Payment, alias: string): Json {
    Obj(map["scheme" := Str("exact"), "network" := Str(alias), "asset" := Str(p.asset), "maxAmountRequired" := Str(p.amount),
            "payTo" := Str(p.payTo), "maxTimeoutSeconds" := Num(p.timeout), "extra" := p.extra])
  }

  function Terms(p: Payment): Json {
    Obj(map["scheme" := Str("exact"), "network" := Str(p.network), "amount" := Str(p.amount), "asset" := Str(p.asset),
            "payTo" := Str(p.payTo), "maxTimeoutSeconds" := Num(p.timeout), "extra" := p.extra])
  }

  /** As a v2 client writes it. */
  function V2Request(p: Payment): Json {
    Obj(map["x402Version" := Num(2.0),
            "paymentPayload" := Obj(map["x402Version" := Num(2.0), "accepted" := Terms(p), "payload" := p.signed]),
            "paymentRequirements" := Terms(p)])
  }

  predicate IsSigned(j: Json) {
    j.Obj? && Get(j, "signature").Str? && Get(j, "authorization").Obj?
  }

  /** Normalisation reads back what the v1 client wrote: the canonical terms, field for field. */
  lemma NormalizationReadsV1(p: Payment, alias: string)
    requires AliasV1Network(Str(alias)) == Str(p.network) && p.network != ""
    requires p.amount != "" && IsAddress(p.asset) && IsAddress(p.payTo)
    requires p.extra.Undefined? || p.extra.Obj?
    requires IsSigned(p.signed)
    ensures NormalizeV1(V1Request(p, alias))
         == Normalized(Obj(map["x402Version" := Num(1.0), "accepted" := Terms(p), "payload" := p.signed]), Terms(p))
  {
    V1EnvelopeReads(p, alias);
    V1ShapeNormalizes(V1Request(p, alias));
    RequirementsRead(p, alias);
  }

  lemma V1EnvelopeReads(p: Payment, alias: string)
    ensures var request := V1Request(p, alias);
      var payload, requirements := Get(request, "paymentPayload"), Get(request, "paymentRequirements");
      && Get(request, "x402Version") == Num(1.0) && payload.Obj? && requirements == V1Requirements(p, alias)
      && Get(payload, "x402Version") == Num(1.0) && Get(payload, "scheme") == Str("exact")
      && Get(payload, "network") == Str(alias) && Get(payload, "payload") == p.signed
      && Get(requirements, "scheme") == Str("exact")
  {
  }

  /** A request of the v1 shape is normalised by its requirements. */
  lemma V1ShapeNormalizes(request: Json)
    requires Readable(request)
    requires var payload, requirements := Get(request, "paymentPayload"), Get(request, "paymentRequirements");
      && Get(request, "x402Version") == Num(1.0) && Readable(payload) && Readable(requirements)
      && Get(payload, "x402Version") == Num(1.0) && Get(payload, "scheme") == Str("exact")
      && Get(requirements, "scheme") == Str("exact") && IsSigned(Get(payload, "payload"))
    ensures var payload, requirements := Get(request, "paymentPayload"), Get(request, "paymentRequirements");
      NormalizeV1(request) == NormalizeTerms(Get(payload, "network"), requirements, Get(payload, "payload"))
  {
  }

  lemma RequirementsRead(p: Payment, alias: string)
    requires AliasV1Network(Str(alias)) == Str(p.network) && p.network != ""
    requires p.amount != "" && IsAddress(p.asset) && IsAddress(p.payTo)
    requires p.extra.Undefined? || p.extra.Obj?
    ensures NormalizeTerms(Str(alias), V1Requirements(p, alias), p.signed)
         == Normalized(Obj(map["x402Version" := Num(1.0), "accepted" := Terms(p), "payload" := p.signed]), Terms(p))
  {
  }

  lemma TermsDecide(p: Payment, payload: Json, network: Network, nowMs: nat, recover: Recover)
    requires IsAddress(p.payTo)
    requires Readable(payload) && Get(payload, "accepted") == Terms(p) && Get(payload, "payload") == p.signed
    ensures CheckTerms(payload, Terms(p), network, nowMs, recover)
         == CheckRequirementsOnly(p.signed, Terms(p), network, nowMs, recover)
  {
    EqualTermsNeedNoCrossCheck(payload, Terms(p), network, nowMs, recover);
  }

  lemma VersionTwoVerdict(p: Payment, network: Network, nowMs: nat, recover: Recover)
    requires IsAddress(p.payTo)
    ensures VerifyOffChain(V2Request(p), network, nowMs, recover)
         == CheckRequirementsOnly(p.signed, Terms(p), network, nowMs, recover)
  {
    V2EnvelopeReads(p);
    TermsDecide(p, Get(V2Request(p), "paymentPayload"), network, nowMs, recover);
    VersionTwoShape(V2Request(p), network, nowMs, recover);
  }

  lemma V2EnvelopeReads(p: Payment)
    ensures var request := V2Request(p); var payload := Get(request, "paymentPayload");
      && Get(request, "x402Version") == Num(2.0) && Get(request, "paymentRequirements") == Terms(p)
      && payload.Obj? && Get(payload, "x402Version") == Num(2.0)
      && Get(payload, "accepted") == Terms(p) && Get(payload, "payload") == p.signed
  {
  }

  lemma VersionOneVerdict(p: Payment, alias: string, network: Network, nowMs: nat, recover: Recover)
    requires IsAddress(p.payTo)
    requires NormalizeV1(V1Request(p, alias))
          == Normalized(Obj(map["x402Version" := Num(1.0), "accepted" := Terms(p), "payload" := p.signed]), Terms(p))
    ensures VerifyOffChain(V1Request(p, alias), network, nowMs, recover)
         == CheckRequirementsOnly(p.signed, Terms(p), network, nowMs, recover)
  {
    var payload := Obj(map["x402Version" := Num(1.0), "accepted" := Terms(p), "payload" := p.signed]);
    V1EnvelopeReads(p, alias);
    VersionOneShape(V1Request(p, alias), network, nowMs, recover);
    TermsDecide(p, payload, network, nowMs, recover);
  }

  /** The same payment gets the same verdict in either version. */
  lemma VersionsAgree(p: Payment, alias: string, network: Network, nowMs: nat, recover: Recover)
    requires AliasV1Network(Str(alias)) == Str(p.network) && p.network != ""
    requires p.amount != "" && IsAddress(p.asset) && IsAddress(p.payTo)
    requires p.extra.Undefined? || p.extra.Obj?
    requires IsSigned(p.signed)
    ensures VerifyOffChain(V1Request(p, alias), network, nowMs, recover) == VerifyOffChain(V2Request(p), network, nowMs, recover)
  {
    NormalizationReadsV1(p, alias);
    VersionOneVerdict(p, alias, network, nowMs, recover);
    VersionTwoVerdict(p, network, nowMs, recover);
  }
}
