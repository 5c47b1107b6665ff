/** From a VALID payload to money on chain: gates, facilitator, token and client together. */
module EndToEnd {
  import opened Wrappers
  import opened Text
  import opened Json
  import opened Eip712
  import opened Verify
  import opened PaymentVerifier
  import opened Gates
  import opened Respelling
  import opened Token
  import opened Settlement
  import opened SettlementTheorems
  import opened FacilitatorClient

  predicate WellFormed(a: VerifiedAuthorization) {
    IsAddress(a.from) && IsAddress(a.to) && IsBytes32(a.nonce)
  }

  /** encodeSettleCalldata: the verified fields, as the contract reads them. */
  function Calldata(a: VerifiedAuthorization): Authorization
    requires WellFormed(a)
  {
    Authorization(Bytes(a.from), Bytes(a.to), a.value, a.validAfter, a.validBefore, Bytes(a.nonce))
  }

  /** Call `c` settles what verification accepted from the request. */
  predicate Serves(w: World, c: nat, verdict: Verdict) {
    && c in w.calls && verdict.Accept? && WellFormed(verdict.authorization)
    && w.calls[c].nonce == verdict.authorization.nonce
    && w.calls[c].calldata == Calldata(verdict.authorization)
  }

  predicate PaysExactly(a: Authorization, intent: Intent)
    requires IsDigits(intent.value) && IsHexString(intent.authorizer) && IsHexString(intent.payTo) && IsHexString(intent.nonce)
  {
    && a.from == Bytes(intent.authorizer) && a.to == Bytes(intent.payTo)
    && a.value == DecValue(intent.value) && a.nonce == Bytes(intent.nonce)
    && a.validAfter == intent.validAfter && a.validBefore == intent.validBefore
  }

  /** If `submit` answers SUBMITTED for a payload the Secretariat called VALID,
      the token holds one and only one landed transfer for the intent's nonce,
      under the returned hash, of exactly the intent's value between its parties. */
  lemma SubmittedPaysTheIntent(payload: Json, intent: Intent, domain: Domain, network: Network, host: Host, nowMs: nat,
                               ledger: Ledger, steps: seq<Step>, w: World, c: nat, h: string)
    requires Conforms(host) && Pinned(intent, domain, network)
    requires IsHexString(intent.authorizer) && IsHexString(intent.payTo)
    requires VerifyPayment(payload, Some(intent), Some(domain), host).Valid?
    requires After(ledger, steps) == Some(w)
    requires Serves(w, c, VerifyOffChain(BuildFacilitatorRequest(payload), network, nowMs, host.recover))
    requires w.calls[c].phase.Replied? && Classify(Received(w.calls[c].phase.reply)) == Submitted(Str(h))
    ensures exists k :: 0 <= k < |w.log| && w.log[k].via == Some(h) && PaysExactly(w.log[k].authorization, intent)
    ensures forall j, k :: 0 <= j < k < |w.log| ==>
              !(PaysExactly(w.log[j].authorization, intent) && PaysExactly(w.log[k].authorization, intent))
  {
    AcceptedPaysTheIntent(payload, intent, domain, network, host, nowMs);
    GatesAgree(payload, intent, domain, network, host, nowMs);
    SubmittedMeansLanded(ledger, steps, w, c, h);
    AtMostOneTransfer(ledger, steps, w);
    var k :| 0 <= k < |w.log| && w.log[k] == Landed(w.calls[c].calldata, Some(h));
  }

  /** If it answers REJECTED instead and the call's send did not throw after its
      request had left, then in no continuation whatever does a transfer for the
      intent land under a transaction of this call. */
  lemma RejectedLeavesTheIntentUnpaid(intent: Intent, ledger: Ledger, steps: seq<Step>, w: World, c: nat,
                                      more: seq<Step>, later: World)
    requires IsDigits(intent.value) && IsHexString(intent.authorizer) && IsHexString(intent.payTo) && IsHexString(intent.nonce)
    requires After(ledger, steps) == Some(w) && c in w.calls && w.calls[c].phase.Replied?
    requires Classify(Received(w.calls[c].phase.reply)).Rejected? && !ThrewAfterDeparture(ledger, steps, c)
    requires After(ledger, steps + more) == Some(later)
    ensures c in later.calls && later.calls[c] == w.calls[c]
    ensures forall k :: 0 <= k < |later.log| && PaysExactly(later.log[k].authorization, intent)
                        ==> later.log[k].via.None? || later.log[k].via != later.calls[c].sent
  {
    RejectedMovesNothing(ledger, steps, w, c);
    assert !PaidBy(later, c);
    RepliedStays(ledger, steps, w, c, more);
  }

  // ---------------------------------------------------------------------
  // Two broadcasts of one authorization
  // ---------------------------------------------------------------------

  /** One accepted version-2 request whose nonce has a letter in it is enough:
      with that letter's case swapped the gate accepts it again, for the same
      calldata, and one process broadcasts both. */
  lemma OneAuthorizationTwoBroadcasts(request: Json, network: Network, nowMs: nat, recover: Recover, i: nat, ledger: Ledger)
    returns (other: Json, steps: seq<Step>, w: World)
    requires ReadsBytes(recover) && VerifyOffChain(request, network, nowMs, recover).Accept?
    requires MaybeGet(request, "x402Version") == Num(2.0)
    requires var a := VerifyOffChain(request, network, nowMs, recover).authorization;
      && WellFormed(a) && 2 <= i < |a.nonce| && !IsDigit(a.nonce[i])
      && UsedPair(Calldata(a)) !in ledger.used
    ensures VerifyOffChain(other, network, nowMs, recover).Accept?
    ensures After(ledger, steps) == Some(w)
    ensures Serves(w, 0, VerifyOffChain(request, network, nowMs, recover))
    ensures Serves(w, 1, VerifyOffChain(other, network, nowMs, recover))
    ensures w.calls[0].calldata == w.calls[1].calldata && w.calls[0].instance == w.calls[1].instance
    ensures w.calls[0].returned && w.calls[1].returned && w.calls[0].sent != w.calls[1].sent
  {
    var a := VerifyOffChain(request, network, nowMs, recover).authorization;
    var nonce := a.nonce[i := SwapCase(a.nonce[i])];
    AnotherSpelling(a.nonce, i);
    other := Respell(request, nonce);
    RespelledIsAccepted(request, network, nowMs, recover, nonce);
    steps, w := TwoSpellingsBroadcastTwice(ledger, Calldata(a), a.nonce, nonce);
  }
}
