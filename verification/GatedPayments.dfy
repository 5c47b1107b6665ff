/** Orders whose payload passed both gates, in the payment system as a whole. */
module GatedPayments {
  import opened Wrappers
  import opened Json
  import opened Text
  import opened Eip712
  import opened Verify
  import opened PaymentVerifier
  import opened Gates
  import opened Token
  import opened FacilitatorClient
  import opened EndToEnd
  import opened PaymentSystem
  import D = DurableSubmission
  import I = IntentStore
  import S = Settlement
  import Safety = SettlementSafety
  import Theorems = SettlementTheorems
  import Settle

  /** The Secretariat found the payload VALID for the intent, the facilitator's
      gate passed its request at this time, and these are the fields it accepted. */
  ghost predicate PassedBothGates(payload: Json, intent: Intent, domain: Domain, network: Network, host: Host, nowMs: nat, a: Authorization) {
    var verdict := VerifyOffChain(BuildFacilitatorRequest(payload), network, nowMs, host.recover);
    && Conforms(host) && Pinned(intent, domain, network)
    && IsHexString(intent.authorizer) && IsHexString(intent.payTo)
    && VerifyPayment(payload, Some(intent), Some(domain), host).Valid?
    && verdict.Accept? && WellFormed(verdict.authorization) && a == Calldata(verdict.authorization)
  }

  /** Paying the intent exactly, for any intent. */
  predicate PaysFor(a: Authorization, intent: Intent) {
    && IsDigits(intent.value) && IsHexString(intent.authorizer) && IsHexString(intent.payTo) && IsHexString(intent.nonce)
    && PaysExactly(a, intent)
  }

  /** Whenever a VALID payload passes, what is settled is the intent. */
  lemma PassedIsTheIntent(payload: Json, intent: Intent, domain: Domain, network: Network, host: Host, nowMs: nat, a: Authorization)
    requires PassedBothGates(payload, intent, domain, network, host, nowMs, a)
    ensures PaysFor(a, intent)
  {
    AcceptedPaysTheIntent(payload, intent, domain, network, host, nowMs);
    GatesAgree(payload, intent, domain, network, host, nowMs);
  }

  /** A transfer of exactly the intent landed under this hash. */
  ghost predicate PaidUnder(w: S.World, intent: Intent, txHash: string) {
    exists k :: 0 <= k < |w.log| && w.log[k].via == Some(txHash) && PaysFor(w.log[k].authorization, intent)
  }

  /** Two transfers never both pay the intent. */
  predicate PaidOnce(w: S.World, intent: Intent) {
    forall j, k :: 0 <= j < k < |w.log| ==> !(PaysFor(w.log[j].authorization, intent) && PaysFor(w.log[k].authorization, intent))
  }

  /** From the wallet's payload to the database and the chain: over every run of
      the whole system, an order the Secretariat found VALID and a facilitator
      passed stands in SETTLEMENT_PENDING, untouched by unguarded writers, only
      when one and only one transfer of exactly the intent's value between its
      parties has landed, under the hash on record. */
  lemma PendingOrdersArePaidExactly(terms: Terms, ledger: Ledger, steps: seq<Step>, sys: System, id: string,
                                    payload: Json, intent: Intent, domain: Domain, network: Network, host: Host, nowMs: nat)
    requires PassedBothGates(payload, intent, domain, network, host, nowMs, terms(id))
    requires After(terms, ledger, steps) == Some(sys)
    requires id in sys.durable.rows && id !in sys.durable.unguarded && sys.durable.rows[id].state == SETTLEMENT_PENDING
    ensures exists h :: sys.durable.rows[id].txHash == Some(Str(h)) && PaidUnder(sys.chain, intent, h)
    ensures PaidOnce(sys.chain, intent)
  {
    PassedIsTheIntent(payload, intent, domain, network, host, nowMs, terms(id));
    PendingIsPaid(terms, ledger, steps, sys, id, intent);
  }

  lemma PendingIsPaid(terms: Terms, ledger: Ledger, steps: seq<Step>, sys: System, id: string, intent: Intent)
    requires PaysFor(terms(id), intent) && After(terms, ledger, steps) == Some(sys)
    requires id in sys.durable.rows && id !in sys.durable.unguarded && sys.durable.rows[id].state == SETTLEMENT_PENDING
    ensures exists h :: sys.durable.rows[id].txHash == Some(Str(h)) && PaidUnder(sys.chain, intent, h)
    ensures PaidOnce(sys.chain, intent)
  {
    PendingIntentsArePaid(terms, ledger, steps, sys, id);
    OneIntentOnePayment(terms, ledger, steps, sys, id);
    var h :| sys.durable.rows[id].txHash == Some(Str(h)) && Safety.LandedVia(sys.chain, h, terms(id));
    assert PaidUnder(sys.chain, intent, h);
    forall j, k | 0 <= j < k < |sys.chain.log|
      ensures !(PaysFor(sys.chain.log[j].authorization, intent) && PaysFor(sys.chain.log[k].authorization, intent))
    {
      assert !(Spends(sys, j, terms(id)) && Spends(sys, k, terms(id)));
    }
  }

  // ---------------------------------------------------------------------
  // A run that gets there
  // ---------------------------------------------------------------------

  /** The run, one step longer. */
  lemma Do(terms: Terms, ledger: Ledger, steps: seq<Step>, sys: System, step: Step) returns (longer: seq<Step>, next: System)
    requires After(terms, ledger, steps) == Some(sys) && Enabled(terms, sys, step)
    ensures longer == steps + [step] && next == Apply(terms, sys, step) && After(terms, ledger, longer) == Some(next)
  {
    longer, next := steps + [step], Apply(terms, sys, step);
    assert longer[..|steps|] == steps;
  }

  lemma DoDurable(terms: Terms, ledger: Ledger, steps: seq<Step>, sys: System, d: D.Step) returns (longer: seq<Step>, next: System)
    requires After(terms, ledger, steps) == Some(sys) && !d.AnswerArrives? && !d.Recover? && D.Enabled(sys.durable, d)
    ensures After(terms, ledger, longer) == Some(next)
    ensures next == System(D.Apply(sys.durable, d), sys.chain, sys.calls)
  {
    longer, next := Do(terms, ledger, steps, sys, Durable(d));
  }

  lemma DoOnChain(terms: Terms, ledger: Ledger, steps: seq<Step>, sys: System, c: S.Step) returns (longer: seq<Step>, next: System)
    requires After(terms, ledger, steps) == Some(sys) && S.Enabled(sys.chain, c)
    ensures After(terms, ledger, longer) == Some(next)
    ensures next == System(sys.durable, S.Apply(sys.chain, c), sys.calls)
  {
    longer, next := Do(terms, ledger, steps, sys, Chain(c));
  }

  function Submitting(id: string): D.System {
    D.System(map[id := I.Row(SUBMITTING, None)], map[0 := D.Submitter(id, D.InFlight, true, true)], map[], {}, {})
  }

  lemma RunToDeparture(terms: Terms, ledger: Ledger, id: string) returns (steps: seq<Step>, sys: System)
    ensures After(terms, ledger, steps) == Some(sys)
    ensures sys == System(Submitting(id), S.Genesis(ledger), map[])
  {
    steps, sys := [], System(D.START, S.Genesis(ledger), map[]);
    steps, sys := DoDurable(terms, ledger, steps, sys, D.CreateIntent(id, true));
    steps, sys := DoDurable(terms, ledger, steps, sys, D.Begin(0, id));
    assert sys.durable == D.System(map[id := I.Row(AUTHORIZED, None)], map[0 := D.Submitter(id, D.Reading, false, false)], map[], {}, {});
    steps, sys := DoDurable(terms, ledger, steps, sys, D.ReadState(0));
    assert sys.durable == D.System(map[id := I.Row(AUTHORIZED, None)], map[0 := D.Submitter(id, D.Marking, false, false)], map[], {}, {});
    steps, sys := DoDurable(terms, ledger, steps, sys, D.Mark(0));
    assert sys.durable == D.System(map[id := I.Row(SUBMITTING, None)], map[0 := D.Submitter(id, D.Marked, true, false)], map[], {}, {});
    steps, sys := DoDurable(terms, ledger, steps, sys, D.Depart(0));
  }

  /** The request reaches a facilitator, which claims the nonce. */
  lemma RunToClaim(terms: Terms, ledger: Ledger, id: string, nonce: string) returns (steps: seq<Step>, sys: System)
    requires UsedPair(terms(id)) !in ledger.used
    ensures After(terms, ledger, steps) == Some(sys) && sys.durable == Submitting(id) && sys.calls == map[0 := 0]
    ensures sys.chain == S.World(0, map[0 := map[nonce := Settle.Inflight]], {0},
                                 map[0 := S.Call(0, nonce, terms(id), S.Preparing, true, None, false)], map[], {}, map[], ledger, [])
  {
    steps, sys := RunToDeparture(terms, ledger, id);
    steps, sys := DoOnChain(terms, ledger, steps, sys, S.Boot(0));
    assert sys.chain == S.World(0, map[0 := map[]], {0}, map[], map[], {}, map[], ledger, []);
    steps, sys := Do(terms, ledger, steps, sys, Forward(0, 0, 0, nonce));
    assert sys.chain == S.World(0, map[0 := map[]], {0}, map[0 := S.Call(0, nonce, terms(id), S.Arrived, false, None, false)],
                                map[], {}, map[], ledger, []);
    steps, sys := DoOnChain(terms, ledger, steps, sys, S.PassVerification(0));
    assert sys.chain == S.World(0, map[0 := map[]], {0}, map[0 := S.Call(0, nonce, terms(id), S.Verified, false, None, false)],
                                map[], {}, map[], ledger, []);
    steps, sys := DoOnChain(terms, ledger, steps, sys, S.ClaimNonce(0));
  }

  /** Its transaction is sent and taken, and its hash comes back. */
  lemma RunToBroadcast(terms: Terms, ledger: Ledger, id: string, nonce: string) returns (steps: seq<Step>, sys: System)
    requires UsedPair(terms(id)) !in ledger.used
    ensures After(terms, ledger, steps) == Some(sys) && sys.durable == Submitting(id) && sys.calls == map[0 := 0]
    ensures sys.chain.calls == map[0 := S.Call(0, nonce, terms(id), S.Awaiting("0x01"), true, Some("0x01"), true)]
    ensures sys.chain.alive == {0} && sys.chain.wire == map["0x01" := terms(id)] && "0x01" in sys.chain.pool
    ensures sys.chain.clock == 0 && sys.chain.receipts == map[] && sys.chain.ledger == ledger && sys.chain.log == []
  {
    steps, sys := RunToClaim(terms, ledger, id, nonce);
    steps, sys := DoOnChain(terms, ledger, steps, sys, S.SendDeparts(0, "0x01"));
    steps, sys := DoOnChain(terms, ledger, steps, sys, S.NodeAccepts("0x01"));
    steps, sys := DoOnChain(terms, ledger, steps, sys, S.SendReturns(0));
  }

  /** The transaction is mined and the call answered. */
  lemma RunToReply(terms: Terms, ledger: Ledger, id: string, nonce: string, now: nat) returns (steps: seq<Step>, sys: System)
    requires Admissible(ledger, terms(id), now)
    ensures After(terms, ledger, steps) == Some(sys) && sys.durable == Submitting(id) && sys.calls == map[0 := 0]
    ensures 0 in sys.chain.calls && sys.chain.calls[0].phase == S.Replied(Settle.ReceiptReply("0x01", Some(true)))
    ensures sys.chain.log == [S.Landed(terms(id), Some("0x01"))]
  {
    steps, sys := RunToBroadcast(terms, ledger, id, nonce);
    steps, sys := DoOnChain(terms, ledger, steps, sys, S.Mine("0x01", now));
    steps, sys := DoOnChain(terms, ledger, steps, sys, S.ReceiptSeen(0));
  }

  lemma SuccessIsSubmitted(txHash: string)
    requires txHash != ""
    ensures var answer := Received(Settle.ReceiptReply(txHash, Some(true)));
      DurableTarget(answer) == Some(SETTLEMENT_PENDING) && DurableHash(answer) == Some(Str(txHash))
  {
    ClassifiesReply(Settle.ReceiptReply(txHash, Some(true)));
  }

  lemma RecordSuccess(terms: Terms, ledger: Ledger, steps: seq<Step>, sys: System, id: string, txHash: string)
    returns (longer: seq<Step>, next: System)
    requires After(terms, ledger, steps) == Some(sys) && txHash != ""
    requires var answer := Received(Settle.ReceiptReply(txHash, Some(true)));
      sys.durable == Submitting(id).(submitters := map[0 := D.Submitter(id, D.Recording(answer), true, true)])
    ensures After(terms, ledger, longer) == Some(next) && next.chain == sys.chain
    ensures next.durable.rows == map[id := I.Row(SETTLEMENT_PENDING, Some(Str(txHash)))] && next.durable.unguarded == {}
  {
    SuccessIsSubmitted(txHash);
    longer, next := DoDurable(terms, ledger, steps, sys, D.Record(0, true));
  }

  /** The statement above is not empty: every order whose terms the token admits
      has a run that leaves it in SETTLEMENT_PENDING. */
  lemma OrdersGetPaid(terms: Terms, ledger: Ledger, id: string, nonce: string, now: nat) returns (steps: seq<Step>, sys: System)
    requires Admissible(ledger, terms(id), now)
    ensures After(terms, ledger, steps) == Some(sys) && sys.durable.unguarded == {}
    ensures sys.durable.rows == map[id := I.Row(SETTLEMENT_PENDING, Some(Str("0x01")))]
    ensures sys.chain.log == [S.Landed(terms(id), Some("0x01"))]
  {
    steps, sys := RunToReply(terms, ledger, id, nonce, now);
    var answer := Received(Settle.ReceiptReply("0x01", Some(true)));
    steps, sys := Do(terms, ledger, steps, sys, Answer(0));
    assert sys.durable == Submitting(id).(submitters := map[0 := D.Submitter(id, D.Recording(answer), true, true)]);
    steps, sys := RecordSuccess(terms, ledger, steps, sys, id, "0x01");
  }
}
