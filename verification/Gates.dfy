/**
 The two independently written gates: what the Secretariat calls VALID, sent
 through `buildFacilitatorRequest`, can be refused off chain only for the
 conditions listed in `ResidualRefusal`.
 */
module Gates {
  import opened Wrappers
  import opened Text
  import opened Json
  import opened Eip712
  import opened Verify
  import opened PaymentVerifier

  /** `x402-facilitator-client.ts`: the /settle envelope for a signed payload. */
  function BuildFacilitatorRequest(payload: Json): Json {
    var accepted := Field(payload, "accepted");
    var resource, extra := Field(payload, "resource"), Field(accepted, "extra");
    var terms := map["scheme" := Field(accepted, "scheme"), "network" := Field(accepted, "network"),
                     "asset" := Field(accepted, "asset"), "amount" := Field(accepted, "amount"),
                     "payTo" := Field(accepted, "payTo"),
                     "maxTimeoutSeconds" := Field(accepted, "maxTimeoutSeconds")];
    var withResource := if Truthy(resource) then terms["resource" := resource] else terms;
    var requirements := if Truthy(extra) then withResource["extra" := extra] else withResource;
    Obj(map["x402Version" := Field(payload, "x402Version"), "paymentPayload" := payload,
            "paymentRequirements" := Obj(requirements)])
  }

  /** The intent and the network registry are well formed and the resolver
      returns the pinned domain. Nothing here speaks of the payload. */
  predicate Pinned(intent: Intent, domain: Domain, network: Network) {
    && IsDigits(intent.value) && DecValue(intent.value) > 0
    && IsBytes32(intent.nonce)
    && IsEip155(network.id)
    && domain == PinnedDomain(network)
  }

  /** What the facilitator may still say about the terms of a VALID payload, in order. */
  function TermsRefusal(payload: Json, network: Network): Option<Reason> {
    var accepted := Field(payload, "accepted");
    var extra := Field(accepted, "extra");
    if !IsSame(Field(accepted, "scheme"), "exact") then Some(UnsupportedScheme)
    else if !IsSame(Field(accepted, "network"), network.id) then Some(NetworkMismatch)
    else if !PrefixedAsStored(Field(accepted, "asset")) then Some(AssetMismatch)
    else if !IsSame(Field(extra, "name"), network.domainName) || !IsSame(Field(extra, "version"), network.domainVersion)
    then Some(DomainMismatch)
    else if !PrefixedAsStored(Field(accepted, "payTo")) then Some(PayToMismatch)
    else None
  }

  /** What it may still say about the authorization, once the terms have passed. */
  function AuthorizationRefusal(inner: Json, nowMs: nat): Option<Reason> {
    var validAfter := AsNonNegativeInt(Field(Field(inner, "authorization"), "validAfter"));
    var validBefore := AsNonNegativeInt(Field(Field(inner, "authorization"), "validBefore"));
    var signature := Field(inner, "signature");
    if validAfter.None? || validBefore.None? then Some(MalformedRequest)
    else if validBefore.value <= nowMs / 1000 || validAfter.value > nowMs / 1000 then Some(AuthorizationWindow)
    else if !signature.Str? || |signature.s| != 132 then Some(InvalidSignature)
    else None
  }

  function ResidualRefusal(payload: Json, network: Network, nowMs: nat): Option<Reason> {
    if TermsRefusal(payload, network).Some? then TermsRefusal(payload, network)
    else AuthorizationRefusal(Field(payload, "payload"), nowMs)
  }

  /** An address spelled with a small `x` after the zero. */
  predicate PrefixedAsStored(j: Json) {
    j.Str? && HasPrefix0x(j.s)
  }

  /** The fields spelled the way the store and the registry spell them. */
  predicate SpelledAsPersisted(payload: Json, network: Network) {
    var accepted := Field(payload, "accepted");
    var extra := Field(accepted, "extra");
    var auth := Field(Field(payload, "payload"), "authorization");
    && PrefixedAsStored(Field(accepted, "asset")) && PrefixedAsStored(Field(accepted, "payTo"))
    && IsSame(Field(extra, "name"), network.domainName) && IsSame(Field(extra, "version"), network.domainVersion)
    && AsNonNegativeInt(Field(auth, "validAfter")).Some? && AsNonNegativeInt(Field(auth, "validBefore")).Some?
  }

  /** The facts a VALID verdict carries, in the facilitator's vocabulary. */
  ghost predicate Bound(payload: Json, intent: Intent, network: Network, host: Host) {
    var accepted := Field(payload, "accepted");
    var inner := Field(payload, "payload");
    var auth := Field(inner, "authorization");
    && Field(accepted, "network").Str? && Field(accepted, "asset").Str? && Field(accepted, "payTo").Str?
    && Field(auth, "from").Str? && Field(auth, "to").Str? && Field(auth, "nonce").Str?
    && Field(accepted, "amount") == Str(intent.value) && Field(auth, "value") == Str(intent.value)
    && (IsAddress(Field(accepted, "asset").s) <==> HasPrefix0x(Field(accepted, "asset").s))
    && SameFold(Field(accepted, "asset").s, network.usdc)
    && (IsAddress(Field(accepted, "payTo").s) <==> HasPrefix0x(Field(accepted, "payTo").s))
    && SameFold(Field(accepted, "payTo").s, Field(auth, "to").s)
    && IsAddress(Field(auth, "from").s) && IsAddress(Field(auth, "to").s)
    && IsBytes32(Field(auth, "nonce").s)
  }

  lemma ValidIsBound(payload: Json, intent: Intent, domain: Domain, network: Network, host: Host)
    requires Conforms(host) && Pinned(intent, domain, network)
    requires VerifyPayment(payload, Some(intent), Some(domain), host).Valid?
    ensures PayloadShapeIsValid(payload)
    ensures Bound(payload, intent, network, host)
  {
    var accepted := Field(payload, "accepted");
    var auth := Field(Field(payload, "payload"), "authorization");
    assert CheckBinding(payload, intent, domain, host).None?;
    FoldedDigits(Field(accepted, "amount").s, intent.value);
    FoldedDigits(Field(auth, "value").s, intent.value);
    FoldedPointwise(Field(auth, "nonce").s, intent.nonce);
    FoldedHexLiteral(Field(accepted, "asset").s, domain.verifyingContract);
    FoldedHexLiteral(Field(accepted, "payTo").s, Field(auth, "to").s);
    FoldedPointwise(Field(accepted, "asset").s, domain.verifyingContract);
    FoldedPointwise(Field(accepted, "payTo").s, Field(auth, "to").s);
  }

  /** On the served network the domain names are present, non-empty strings. */
  lemma ValidNamesDomain(payload: Json, intent: Intent, domain: Domain, network: Network, host: Host)
    requires Pinned(intent, domain, network)
    requires VerifyPayment(payload, Some(intent), Some(domain), host).Valid?
    requires IsSame(Field(Field(payload, "accepted"), "network"), network.id)
    ensures var extra := Field(Field(payload, "accepted"), "extra");
      && Truthy(extra) && Readable(extra)
      && Field(extra, "name").Str? && Field(extra, "name").s != ""
      && Field(extra, "version").Str? && Field(extra, "version").s != ""
  {
    assert CheckBinding(payload, intent, domain, host).None?;
    assert CheckDomainExtra(Field(payload, "accepted"), domain, host).None?;
  }

  lemma RequestFields(payload: Json)
    requires PayloadShapeIsValid(payload)
    ensures var request := BuildFacilitatorRequest(payload); var r := Get(request, "paymentRequirements");
      var accepted := Field(payload, "accepted");
      && Readable(request) && Readable(r)
      && Get(request, "x402Version") == Num(2.0) && Get(request, "paymentPayload") == payload
      && Get(r, "scheme") == Field(accepted, "scheme") && Get(r, "network") == Field(accepted, "network")
      && Get(r, "asset") == Field(accepted, "asset") && Get(r, "amount") == Field(accepted, "amount")
      && Get(r, "payTo") == Field(accepted, "payTo")
      && (Truthy(Field(accepted, "extra")) ==> Get(r, "extra") == Field(accepted, "extra"))
  {
  }

  /** The two copies of the terms in a built request never disagree: whatever the
      payload's terms are, the facilitator's verdict is that of the requirements
      alone, and it never throws. */
  lemma BuiltRequestAgreesWithItself(payload: Json, network: Network, nowMs: nat, recover: Recover)
    requires PayloadShapeIsValid(payload)
    ensures var request := BuildFacilitatorRequest(payload);
      && Readable(request) && Readable(Get(request, "paymentRequirements"))
      && VerifyOffChain(request, network, nowMs, recover)
         == CheckRequirementsOnly(Field(payload, "payload"), Get(request, "paymentRequirements"), network, nowMs, recover)
      && !VerifyOffChain(request, network, nowMs, recover).Threw?
  {
    VersionTwoChecksTerms(payload, network, nowMs, recover);
    RequestFields(payload);
    var requirements := Get(BuildFacilitatorRequest(payload), "paymentRequirements");
    NoExtraNoName(payload);
    CopiesNeedNoCrossCheck(payload, requirements, network, nowMs, recover);
  }

  lemma NoExtraNoName(payload: Json)
    requires PayloadShapeIsValid(payload)
    ensures var extra := Field(Field(payload, "accepted"), "extra");
      !Truthy(extra) ==>
        && Get(Get(BuildFacilitatorRequest(payload), "paymentRequirements"), "extra").Undefined?
        && Field(extra, "name").Undefined? && Field(extra, "version").Undefined?
  {
  }

  lemma CopiesNeedNoCrossCheck(payload: Json, requirements: Json, network: Network, nowMs: nat, recover: Recover)
    requires PayloadShapeIsValid(payload) && Readable(requirements)
    requires var accepted := Field(payload, "accepted"); var extra := Field(accepted, "extra");
      && Get(requirements, "scheme") == Field(accepted, "scheme") && Get(requirements, "network") == Field(accepted, "network")
      && Get(requirements, "asset") == Field(accepted, "asset") && Get(requirements, "payTo") == Field(accepted, "payTo")
      && (if Truthy(extra) then Get(requirements, "extra") == extra
          else Get(requirements, "extra").Undefined? && Field(extra, "name").Undefined? && Field(extra, "version").Undefined?)
    ensures CheckTerms(payload, requirements, network, nowMs, recover)
         == CheckRequirementsOnly(Field(payload, "payload"), requirements, network, nowMs, recover)
    ensures !CheckTerms(payload, requirements, network, nowMs, recover).Threw?
  {
  }

  /** The facilitator's checks on the terms, given what VALID binds. */
  lemma TermsAgree(payload: Json, requirements: Json, intent: Intent, network: Network, host: Host, nowMs: nat)
    requires IsDigits(intent.value) && DecValue(intent.value) > 0
    requires PayloadShapeIsValid(payload) && Bound(payload, intent, network, host)
    requires var accepted := Field(payload, "accepted"); var extra := Field(accepted, "extra");
      && Readable(requirements)
      && Get(requirements, "scheme") == Field(accepted, "scheme") && Get(requirements, "network") == Field(accepted, "network")
      && Get(requirements, "asset") == Field(accepted, "asset") && Get(requirements, "amount") == Field(accepted, "amount")
      && Get(requirements, "payTo") == Field(accepted, "payTo")
      && (IsSame(Field(accepted, "network"), network.id) ==>
            && Get(requirements, "extra") == extra && Field(extra, "name").Str? && Field(extra, "name").s != ""
            && Field(extra, "version").Str? && Field(extra, "version").s != "")
    ensures CheckTerms(payload, requirements, network, nowMs, host.recover)
         == if TermsRefusal(payload, network).Some? then Refuse(TermsRefusal(payload, network).value)
            else CheckAuthorization(Field(payload, "payload"), DecValue(intent.value),
                                    Field(Field(payload, "accepted"), "payTo").s, network, nowMs, host.recover)
  {
  }

  /** The facilitator's checks on the authorization, given what VALID binds. */
  lemma AuthorizationAgrees(payload: Json, intent: Intent, domain: Domain, network: Network, host: Host, nowMs: nat)
    requires Conforms(host) && Pinned(intent, domain, network)
    requires VerifyPayment(payload, Some(intent), Some(domain), host).Valid?
    requires PayloadShapeIsValid(payload) && Bound(payload, intent, network, host)
    ensures AuthorizationOutcome(payload, intent, nowMs,
              CheckAuthorization(Field(payload, "payload"), DecValue(intent.value),
                                 Field(Field(payload, "accepted"), "payTo").s, network, nowMs, host.recover))
  {
    var auth := Field(Field(payload, "payload"), "authorization");
    assert CheckBinding(payload, intent, domain, host).None?;
    assert SameFold(Field(auth, "to").s, Field(Field(payload, "accepted"), "payTo").s);
  }

  /** Refused for the residual reason, or accepted with the intent's own fields. */
  predicate AuthorizationOutcome(payload: Json, intent: Intent, nowMs: nat, v: Verdict)
    requires IsDigits(intent.value)
  {
    match AuthorizationRefusal(Field(payload, "payload"), nowMs)
    case Some(reason) => v == Refuse(reason)
    case None => v.Accept? && PaysIntent(v, intent)
  }

  predicate PaysIntent(v: Verdict, intent: Intent)
    requires v.Accept? && IsDigits(intent.value)
  {
    var a := v.authorization;
    && SameFold(a.from, intent.authorizer) && SameFold(a.to, intent.payTo)
    && a.value == DecValue(intent.value) && SameFold(a.nonce, intent.nonce)
    && a.validAfter == intent.validAfter && a.validBefore == intent.validBefore
    && SameFold(v.payer, intent.authorizer)
  }

  /** The gates agree exactly: for a VALID payload the facilitator's verdict is
      the residual refusal, or acceptance of the very fields the intent binds. */
  lemma GatesAgree(payload: Json, intent: Intent, domain: Domain, network: Network, host: Host, nowMs: nat)
    requires Conforms(host) && Pinned(intent, domain, network)
    requires VerifyPayment(payload, Some(intent), Some(domain), host).Valid?
    ensures var v := VerifyOffChain(BuildFacilitatorRequest(payload), network, nowMs, host.recover);
      match ResidualRefusal(payload, network, nowMs)
      case Some(reason) => v == Refuse(reason)
      case None => v.Accept? && PaysIntent(v, intent)
  {
    var request := BuildFacilitatorRequest(payload);
    ValidIsBound(payload, intent, domain, network, host);
    RequestFields(payload);
    var requirements := Get(request, "paymentRequirements");
    VersionTwoChecksTerms(payload, network, nowMs, host.recover);
    if IsSame(Field(Field(payload, "accepted"), "network"), network.id) {
      ValidNamesDomain(payload, intent, domain, network, host);
    }
    TermsAgree(payload, requirements, intent, network, host, nowMs);
    AuthorizationAgrees(payload, intent, domain, network, host, nowMs);
  }

  lemma VersionTwoChecksTerms(payload: Json, network: Network, nowMs: nat, recover: Recover)
    requires PayloadShapeIsValid(payload)
    ensures var request := BuildFacilitatorRequest(payload);
      && Readable(request) && Readable(Get(request, "paymentRequirements"))
      && VerifyOffChain(request, network, nowMs, recover)
         == CheckTerms(payload, Get(request, "paymentRequirements"), network, nowMs, recover)
  {
    RequestFields(payload);
  }

  /** A VALID payload is refused for a reason other than scheme, exact network
      id, time window or signature length exactly when, on the served network
      and scheme, one of its fields is spelled unlike the persisted one. */
  lemma OnlySpellingSeparatesTheGates(payload: Json, intent: Intent, domain: Domain, network: Network, host: Host, nowMs: nat)
    requires Conforms(host) && Pinned(intent, domain, network)
    requires VerifyPayment(payload, Some(intent), Some(domain), host).Valid?
    ensures var v := VerifyOffChain(BuildFacilitatorRequest(payload), network, nowMs, host.recover);
      && !v.Threw?
      && ((v.Refuse? && v.reason !in {UnsupportedScheme, NetworkMismatch, AuthorizationWindow, InvalidSignature})
          <==> (IsSame(Field(Field(payload, "accepted"), "scheme"), "exact")
                && IsSame(Field(Field(payload, "accepted"), "network"), network.id)
                && !SpelledAsPersisted(payload, network)))
  {
    GatesAgree(payload, intent, domain, network, host, nowMs);
    ResidualIsSpelling(payload, network, nowMs);
  }

  lemma ResidualIsSpelling(payload: Json, network: Network, nowMs: nat)
    ensures var r := ResidualRefusal(payload, network, nowMs);
      (r.Some? && r.value !in {UnsupportedScheme, NetworkMismatch, AuthorizationWindow, InvalidSignature})
      <==> (IsSame(Field(Field(payload, "accepted"), "scheme"), "exact")
            && IsSame(Field(Field(payload, "accepted"), "network"), network.id)
            && !SpelledAsPersisted(payload, network))
  {
  }

  /** What a VALID payload authorizes is what the intent says, down to the bytes. */
  lemma AcceptedPaysTheIntent(payload: Json, intent: Intent, domain: Domain, network: Network, host: Host, nowMs: nat)
    requires Conforms(host) && Pinned(intent, domain, network)
    requires IsHexString(intent.authorizer) && IsHexString(intent.payTo)
    requires VerifyPayment(payload, Some(intent), Some(domain), host).Valid?
    requires VerifyOffChain(BuildFacilitatorRequest(payload), network, nowMs, host.recover).Accept?
    ensures var a := VerifyOffChain(BuildFacilitatorRequest(payload), network, nowMs, host.recover).authorization;
      && IsAddress(a.from) && IsAddress(a.to) && IsBytes32(a.nonce)
      && Bytes(a.from) == Bytes(intent.authorizer) && Bytes(a.to) == Bytes(intent.payTo)
      && a.value == DecValue(intent.value) && Bytes(a.nonce) == Bytes(intent.nonce)
  {
    GatesAgree(payload, intent, domain, network, host, nowMs);
    var request := BuildFacilitatorRequest(payload);
    AcceptedIsWellFormed(request, network, nowMs, host.recover);
    var a := VerifyOffChain(request, network, nowMs, host.recover).authorization;
    FoldedHexLiteral(a.from, intent.authorizer);
    FoldedHexLiteral(a.to, intent.payTo);
    FoldedHexLiteral(a.nonce, intent.nonce);
  }

  // ---------------------------------------------------------------------
  // The gates can be passed
  // ---------------------------------------------------------------------

  /** The payload states the intent's own fields, as an honest wallet would, and
      its texts denote the intent's time window. */
  predicate StatesIntent(payload: Json, intent: Intent, network: Network) {
    StatesIntentNaming(payload, intent, network, network.domainName)
  }

  /** The same with the token's name spelled as `name`. */
  predicate StatesIntentNaming(payload: Json, intent: Intent, network: Network, name: string) {
    var accepted, inner := Field(payload, "accepted"), Field(payload, "payload");
    var extra, auth := Field(accepted, "extra"), Field(inner, "authorization");
    && Field(payload, "x402Version") == Num(2.0)
    && Field(accepted, "scheme") == Str("exact") && Field(accepted, "network") == Str(intent.network)
    && Field(accepted, "asset") == Str(intent.asset) && Field(accepted, "amount") == Str(intent.value)
    && Field(accepted, "payTo") == Str(intent.payTo)
    && extra.Obj? && Field(extra, "name") == Str(name) && Field(extra, "version") == Str(network.domainVersion)
    && Field(extra, "chainId").Undefined? && Field(extra, "verifyingContract").Undefined?
    && Field(auth, "from") == Str(intent.authorizer) && Field(auth, "to") == Str(intent.payTo)
    && Field(auth, "value") == Str(intent.value) && Field(auth, "nonce") == Str(intent.nonce)
    && Denotes(Field(auth, "validAfter"), intent.validAfter) && Denotes(Field(auth, "validBefore"), intent.validBefore)
  }

  predicate Denotes(j: Json, time: int) {
    j.Str? && IsDigits(j.s) && DecValue(j.s) == time <= MAX_SAFE_INTEGER
  }

  /** Such a payload, for texts that denote the window: what a wallet sends. */
  function WalletPayload(intent: Intent, network: Network, name: string, validAfter: string, validBefore: string,
                         signature: string): Json {
    Obj(map["x402Version" := Num(2.0), "accepted" := WalletTerms(intent, network, name),
            "payload" := Obj(map["signature" := Str(signature),
                                 "authorization" := WalletAuthorization(intent, validAfter, validBefore)])])
  }

  function WalletTerms(intent: Intent, network: Network, name: string): Json {
    Obj(map["scheme" := Str("exact"), "network" := Str(intent.network), "asset" := Str(intent.asset),
            "amount" := Str(intent.value), "payTo" := Str(intent.payTo),
            "extra" := Obj(map["name" := Str(name), "version" := Str(network.domainVersion)])])
  }

  function WalletAuthorization(intent: Intent, validAfter: string, validBefore: string): Json {
    Obj(map["from" := Str(intent.authorizer), "to" := Str(intent.payTo), "value" := Str(intent.value),
            "validAfter" := Str(validAfter), "validBefore" := Str(validBefore), "nonce" := Str(intent.nonce)])
  }

  lemma WalletPayloadStatesIntent(intent: Intent, network: Network, name: string, validAfter: string, validBefore: string,
                                  signature: string)
    requires Denotes(Str(validAfter), intent.validAfter) && Denotes(Str(validBefore), intent.validBefore)
    ensures StatesIntentNaming(WalletPayload(intent, network, name, validAfter, validBefore, signature), intent, network, name)
    ensures Field(Field(WalletPayload(intent, network, name, validAfter, validBefore, signature), "payload"), "signature") == Str(signature)
  {
    WalletEnvelopeReads(intent, network, name, validAfter, validBefore, signature);
    WalletTermsRead(intent, network, name);
    WalletAuthorizationReads(intent, validAfter, validBefore);
  }

  lemma WalletEnvelopeReads(intent: Intent, network: Network, name: string, validAfter: string, validBefore: string,
                            signature: string)
    ensures var payload := WalletPayload(intent, network, name, validAfter, validBefore, signature);
      var inner := Field(payload, "payload");
      && Field(payload, "x402Version") == Num(2.0) && Field(payload, "accepted") == WalletTerms(intent, network, name)
      && Field(inner, "signature") == Str(signature)
      && Field(inner, "authorization") == WalletAuthorization(intent, validAfter, validBefore)
  {
  }

  lemma WalletTermsRead(intent: Intent, network: Network, name: string)
    ensures var accepted := WalletTerms(intent, network, name); var extra := Field(accepted, "extra");
      && Field(accepted, "scheme") == Str("exact") && Field(accepted, "network") == Str(intent.network)
      && Field(accepted, "asset") == Str(intent.asset) && Field(accepted, "amount") == Str(intent.value)
      && Field(accepted, "payTo") == Str(intent.payTo)
      && extra.Obj? && Field(extra, "name") == Str(name) && Field(extra, "version") == Str(network.domainVersion)
      && Field(extra, "chainId").Undefined? && Field(extra, "verifyingContract").Undefined?
  {
  }

  lemma WalletAuthorizationReads(intent: Intent, validAfter: string, validBefore: string)
    ensures var auth := WalletAuthorization(intent, validAfter, validBefore);
      && Field(auth, "from") == Str(intent.authorizer) && Field(auth, "to") == Str(intent.payTo)
      && Field(auth, "value") == Str(intent.value) && Field(auth, "nonce") == Str(intent.nonce)
      && Field(auth, "validAfter") == Str(validAfter) && Field(auth, "validBefore") == Str(validBefore)
  {
  }

  /** Its signature recovers to the authorizer over the intent's own message. */
  predicate SignsIntent(payload: Json, intent: Intent, network: Network, host: Host) {
    var signature := Field(Field(payload, "payload"), "signature");
    && IsDigits(intent.value)
    && signature.Str? && IsSignature65(signature.s)
    && host.recover(PinnedDomain(network),
                    Message(intent.authorizer, intent.payTo, DecValue(intent.value), intent.validAfter, intent.validBefore, intent.nonce),
                    signature.s) == Some(intent.authorizer)
  }

  /** The intent was made for this network, between proper addresses. */
  predicate ForNetwork(intent: Intent, network: Network) {
    && IsAddress(intent.authorizer) && IsAddress(intent.payTo) && IsAddress(network.usdc)
    && intent.network == network.id && intent.asset == network.usdc
    && network.domainName != "" && network.domainVersion != ""
  }

  lemma HonestBinding(payload: Json, intent: Intent, domain: Domain, network: Network, host: Host, name: string)
    requires Conforms(host) && Pinned(intent, domain, network) && ForNetwork(intent, network)
    requires SameFold(name, network.domainName)
    requires StatesIntentNaming(payload, intent, network, name) && SignsIntent(payload, intent, network, host)
    ensures PayloadShapeIsValid(payload) && CheckBinding(payload, intent, domain, host).None?
  {
  }

  /** An honestly signed payload is VALID. */
  lemma HonestPayloadIsValid(payload: Json, intent: Intent, domain: Domain, network: Network, host: Host)
    requires Conforms(host) && Pinned(intent, domain, network) && ForNetwork(intent, network)
    requires StatesIntent(payload, intent, network) && SignsIntent(payload, intent, network, host)
    ensures VerifyPayment(payload, Some(intent), Some(domain), host) == Valid(intent.paymentIntentId, intent.authorizer)
  {
    HonestBinding(payload, intent, domain, network, host, network.domainName);
  }

  lemma HonestResidual(payload: Json, intent: Intent, network: Network, host: Host, nowMs: nat)
    requires ForNetwork(intent, network) && StatesIntent(payload, intent, network) && SignsIntent(payload, intent, network, host)
    ensures ResidualRefusal(payload, network, nowMs)
         == if intent.validAfter <= nowMs / 1000 < intent.validBefore then None else Some(AuthorizationWindow)
  {
    assert TermsRefusal(payload, network).None?;
  }

  /** And the facilitator accepts it exactly while its window is open. */
  lemma HonestPayloadPassesBothGates(payload: Json, intent: Intent, domain: Domain, network: Network, host: Host, nowMs: nat)
    requires Conforms(host) && Pinned(intent, domain, network) && ForNetwork(intent, network)
    requires StatesIntent(payload, intent, network) && SignsIntent(payload, intent, network, host)
    ensures VerifyPayment(payload, Some(intent), Some(domain), host).Valid?
    ensures VerifyOffChain(BuildFacilitatorRequest(payload), network, nowMs, host.recover).Accept?
        <==> intent.validAfter <= nowMs / 1000 < intent.validBefore
  {
    HonestPayloadIsValid(payload, intent, domain, network, host);
    HonestResidual(payload, intent, network, host, nowMs);
    GatesAgree(payload, intent, domain, network, host, nowMs);
  }

  /** A wallet that writes the token's name in small letters. */
  predicate NamesInSmallLetters(payload: Json, intent: Intent, network: Network) {
    StatesIntentNaming(payload, intent, network, Lower(network.domainName))
  }

  lemma LowerFolds(s: string)
    ensures SameFold(Lower(s), s)
    ensures (exists i :: 0 <= i < |s| && 'A' <= s[i] <= 'Z') ==> Lower(s) != s
  {
    forall i | 0 <= i < |s| ensures Lower(Lower(s))[i] == Lower(s)[i] {
      assert LowerChar(LowerChar(s[i])) == LowerChar(s[i]);
    }
    if i :| 0 <= i < |s| && 'A' <= s[i] <= 'Z' {
      assert Lower(s)[i] != s[i];
    }
  }

  /** The gates do disagree: for every token whose name has a capital letter, an
      honestly signed payload that writes the name in small letters is VALID and
      is refused by the facilitator, at any time. */
  lemma SmallLettersPassOneGate(payload: Json, intent: Intent, domain: Domain, network: Network, host: Host, nowMs: nat, i: nat)
    requires Conforms(host) && Pinned(intent, domain, network) && ForNetwork(intent, network)
    requires NamesInSmallLetters(payload, intent, network) && SignsIntent(payload, intent, network, host)
    requires i < |network.domainName| && 'A' <= network.domainName[i] <= 'Z'
    ensures VerifyPayment(payload, Some(intent), Some(domain), host) == Valid(intent.paymentIntentId, intent.authorizer)
    ensures VerifyOffChain(BuildFacilitatorRequest(payload), network, nowMs, host.recover) == Refuse(DomainMismatch)
  {
    LowerFolds(network.domainName);
    HonestBinding(payload, intent, domain, network, host, Lower(network.domainName));
    GatesAgree(payload, intent, domain, network, host, nowMs);
    assert TermsRefusal(payload, network) == Some(DomainMismatch);
  }

  /** The failing input itself: the payload a wallet builds for the intent with
      the name in small letters, whatever its texts for the window. */
  lemma WalletInSmallLetters(intent: Intent, domain: Domain, network: Network, host: Host, nowMs: nat, i: nat,
                             validAfter: string, validBefore: string, signature: string)
    requires Conforms(host) && Pinned(intent, domain, network) && ForNetwork(intent, network)
    requires Denotes(Str(validAfter), intent.validAfter) && Denotes(Str(validBefore), intent.validBefore)
    requires SignsIntent(WalletPayload(intent, network, Lower(network.domainName), validAfter, validBefore, signature),
                         intent, network, host)
    requires i < |network.domainName| && 'A' <= network.domainName[i] <= 'Z'
    ensures var payload := WalletPayload(intent, network, Lower(network.domainName), validAfter, validBefore, signature);
      && VerifyPayment(payload, Some(intent), Some(domain), host) == Valid(intent.paymentIntentId, intent.authorizer)
      && VerifyOffChain(BuildFacilitatorRequest(payload), network, nowMs, host.recover) == Refuse(DomainMismatch)
  {
    WalletPayloadStatesIntent(intent, network, Lower(network.domainName), validAfter, validBefore, signature);
    SmallLettersPassOneGate(WalletPayload(intent, network, Lower(network.domainName), validAfter, validBefore, signature),
                            intent, domain, network, host, nowMs, i);
  }
}
