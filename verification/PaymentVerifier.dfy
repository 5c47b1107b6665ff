/**
 The Secretariat's own gate (zeus-secretariat/src/core/eip3009-verifier.ts):
 a signed payload is VALID only when every field is bound to the persisted
 intent. Comparisons fold letter case; the facilitator's mostly do not.
 */
module PaymentVerifier {
  import opened Wrappers
  import opened Text
  import opened Json
  import opened Eip712
  import opened Verify

  /** The persisted fields of a durable payment intent that verification reads. */
  datatype Intent = Intent(paymentIntentId: string, operationId: string, authorizer: string, payTo: string,
                           value: string, asset: string, network: string, nonce: string,
                           validAfter: int, validBefore: int)

  /** Conversions of the host language: `Number(text)` when it is a safe
      integer, `BigInt(text)` when it does not throw, and `String(value)`. */
  datatype Host = Host(number: string -> Option<int>, bigint: string -> Option<int>, text: Json -> string, recover: Recover)

  const MAX_SAFE_INTEGER: int := 0x1F_FFFF_FFFF_FFFF

  /** What the conversions do on plain digit strings, the only inputs they are pinned on. */
  ghost predicate Conforms(host: Host) {
    && (forall s :: IsDigits(s) ==> host.bigint(s) == Some(DecValue(s)))
    && (forall s :: IsDigits(s) ==>
          host.number(s) == if DecValue(s) <= MAX_SAFE_INTEGER then Some(DecValue(s)) else None)
  }

  datatype Code =
    | RequestNotFound
    | MalformedPayload
    | X402VersionMismatch
    | NetworkNotBound
    | DomainNotBound
    | AssetNotBound
    | PayToNotBound
    | ValueNotBound
    | AuthorizerNotBound
    | NonceNotBound
    | ValidAfterNotBound
    | ValidBeforeNotBound
    | SignatureInvalid

  datatype Verification = Valid(paymentIntentId: string, authorizer: string) | Invalid(code: Code)

  /** Letters after which a network name counts as a named EVM chain. */
  const EVM_ALIASES: seq<string> := [
    "base", "x-layer", "xlayer", "bot-chain", "ethereum", "sepolia", "optimism", "arbitrum", "polygon",
    "avalanche", "abstract", "peaq", "story", "educhain"
  ]

  predicate IsEvmNetwork(network: string) {
    IsEip155(network) || exists i :: 0 <= i < |EVM_ALIASES| && EVM_ALIASES[i] <= Lower(network)
  }

  /** Field access for a value already known to be present. */
  function Field(j: Json, key: string): Json {
    MaybeGet(j, key)
  }

  predicate PayloadShapeIsValid(payload: Json) {
    var accepted := Field(payload, "accepted");
    var inner := Field(payload, "payload");
    var auth := Field(inner, "authorization");
    && Field(payload, "x402Version") == Num(2.0)
    && Truthy(accepted)
    && Field(accepted, "network").Str? && Field(accepted, "amount").Str?
    && Field(accepted, "asset").Str? && Field(accepted, "payTo").Str?
    && Truthy(inner) && Field(inner, "signature").Str?
    && Truthy(auth)
    && Field(auth, "from").Str? && Field(auth, "to").Str? && Field(auth, "value").Str?
    && Field(auth, "validAfter").Str? && Field(auth, "validBefore").Str? && Field(auth, "nonce").Str?
  }

  /** An absent value binds nothing; a present one must be the same up to letter case. */
  predicate SameOptional(payloadValue: Json, domainValue: string, host: Host) {
    payloadValue.Undefined?
    || SameFold(if payloadValue.Str? then payloadValue.s else host.text(payloadValue), domainValue)
  }

  function CheckBinding(payload: Json, intent: Intent, domain: Domain, host: Host): Option<Code>
    requires PayloadShapeIsValid(payload)
  {
    var accepted := Field(payload, "accepted");
    var auth := Field(Field(payload, "payload"), "authorization");
    var validAfter := host.number(Field(auth, "validAfter").s);
    var validBefore := host.number(Field(auth, "validBefore").s);
    if !SameFold(Field(accepted, "network").s, intent.network) then Some(NetworkNotBound)
    else if !SameFold(Field(accepted, "asset").s, intent.asset) then Some(AssetNotBound)
    else if !SameFold(domain.verifyingContract, intent.asset)
         || !SameFold(domain.verifyingContract, Field(accepted, "asset").s) then Some(DomainNotBound)
    else if !SameFold(Field(accepted, "payTo").s, intent.payTo) then Some(PayToNotBound)
    else if !SameFold(Field(accepted, "amount").s, intent.value) then Some(ValueNotBound)
    else if !SameFold(Field(auth, "from").s, intent.authorizer) then Some(AuthorizerNotBound)
    else if !SameFold(Field(auth, "to").s, intent.payTo) then Some(PayToNotBound)
    else if !SameFold(Field(auth, "value").s, intent.value) then Some(ValueNotBound)
    else if !SameFold(Field(auth, "nonce").s, intent.nonce) then Some(NonceNotBound)
    else if validAfter != Some(intent.validAfter) then Some(ValidAfterNotBound)
    else if validBefore != Some(intent.validBefore) then Some(ValidBeforeNotBound)
    else CheckDomainExtra(accepted, domain, host)
  }

  function CheckDomainExtra(accepted: Json, domain: Domain, host: Host): Option<Code>
    requires Field(accepted, "network").Str?
  {
    var raw := Field(accepted, "extra");
    var extra := if TypeofObject(raw) && !raw.Null? then raw else Undefined;
    var name, version := Field(extra, "name"), Field(extra, "version");
    if IsEvmNetwork(Field(accepted, "network").s)
       && (!name.Str? || name.s == "" || !version.Str? || version.s == "")
    then Some(DomainNotBound)
    else if Readable(extra)
         && (!SameOptional(name, domain.name, host) || !SameOptional(version, domain.version, host)
             || !SameOptional(Field(extra, "chainId"), host.text(Num(domain.chainId as real)), host)
             || !SameOptional(Field(extra, "verifyingContract"), domain.verifyingContract, host))
    then Some(DomainNotBound)
    else None
  }

  /** `intent` is what the store holds for the request; `domain` is what the
      resolver answers, None when it throws. */
  function VerifyPayment(payload: Json, intent: Option<Intent>, domain: Option<Domain>, host: Host): Verification {
    if intent.None? then Invalid(RequestNotFound)
    else if !TypeofObject(payload) || payload.Null? then Invalid(MalformedPayload)
    else if Get(payload, "x402Version") != Num(2.0) then Invalid(X402VersionMismatch)
    else if !PayloadShapeIsValid(payload) then Invalid(MalformedPayload)
    else if domain.None? then Invalid(DomainNotBound)
    else
      var binding := CheckBinding(payload, intent.value, domain.value, host);
      if binding.Some? then Invalid(binding.value)
      else
        var auth := Field(Field(payload, "payload"), "authorization");
        var signature := Field(Field(payload, "payload"), "signature").s;
        if !IsAddress(Field(auth, "from").s) || !IsAddress(Field(auth, "to").s)
           || !IsAddress(domain.value.verifyingContract)
           || !IsHexString(Field(auth, "nonce").s) || !IsHexString(signature)
        then Invalid(MalformedPayload)
        else
          var value := host.bigint(Field(auth, "value").s);
          var validAfter := host.bigint(Field(auth, "validAfter").s);
          var validBefore := host.bigint(Field(auth, "validBefore").s);
          if value.None? || validAfter.None? || validBefore.None? then Invalid(SignatureInvalid)
          else
            var recovered := host.recover(domain.value,
                                          Message(Field(auth, "from").s, Field(auth, "to").s, value.value,
                                                  validAfter.value, validBefore.value, Field(auth, "nonce").s), signature);
            if recovered.None? || !SameFold(recovered.value, Field(auth, "from").s) then Invalid(SignatureInvalid)
            else Valid(intent.value.paymentIntentId, intent.value.authorizer)
  }
}
