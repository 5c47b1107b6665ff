/**
 The payment system as a whole: durable submission and on-chain settlement in
 one run. Submitters forward their requests to facilitator calls and are given
 those calls' replies, or anything but a success when the answer is lost on the
 way. Each intent has one signed authorization.
 */
module PaymentSystem {
  import opened Wrappers
  import opened Json
  import opened Token
  import opened FacilitatorClient
  import D = DurableSubmission
  import S = Settlement
  import Safety = SettlementSafety
  import Theorems = SettlementTheorems

  /** What the signed payload of each intent asks the token to execute. */
  type Terms = string -> Authorization

  datatype System = System(durable: D.System, chain: S.World, calls: map<nat, nat>)   // submitter to its call

  datatype Step =
    | Durable(durable: D.Step)                                 // anything but an answer
    | Chain(chain: S.Step)                                   // strangers' calls included
    | Forward(s: nat, c: nat, instance: nat, nonce: string)   // the request reaches a facilitator
    | Answer(s: nat)                                          // its reply reaches the client
    | Lose(s: nat, answer: SettleAnswer)                      // or something else does

  /** The token reported, under this hash, that the authorization's nonce was used;
      the hash of a stranger's transaction is any text. */
  predicate UsedUnder(w: S.World, a: Authorization, txHash: string) {
    exists k :: 0 <= k < |w.log| && UsedPair(w.log[k].authorization) == UsedPair(a)
                && (w.log[k].via == Some(txHash) || w.log[k].via.None?)
  }

  /** What the reconciler recovers, in whatever state, is what the token reported. */
  predicate HonestRecovery(terms: Terms, w: S.World, step: D.Step) {
    step.Recover? ==> UsedUnder(w, terms(step.id), step.txHash)
  }

  predicate Enabled(terms: Terms, sys: System, step: Step) {
    match step
    case Durable(d) => !d.AnswerArrives? && HonestRecovery(terms, sys.chain, d) && D.Enabled(sys.durable, d)
    case Chain(c) => S.Enabled(sys.chain, c)
    case Forward(s, c, i, nonce) =>
      && s !in sys.calls && s in sys.durable.submitters && sys.durable.submitters[s].phase.InFlight?
      && S.Enabled(sys.chain, S.Arrive(c, i, nonce, terms(sys.durable.submitters[s].intent)))
    case Answer(s) =>
      && s in sys.calls && sys.calls[s] in sys.chain.calls && sys.chain.calls[sys.calls[s]].phase.Replied?
      && D.Enabled(sys.durable, D.AnswerArrives(s, Received(sys.chain.calls[sys.calls[s]].phase.reply)))
    case Lose(s, answer) => !Classify(answer).Submitted? && D.Enabled(sys.durable, D.AnswerArrives(s, answer))
  }

  /** The durable half of a step, and the half on chain. */
  function DurablePart(sys: System, step: Step): Option<D.Step> {
    match step
    case Durable(d) => Some(d)
    case Answer(s) =>
      if s in sys.calls && sys.calls[s] in sys.chain.calls && sys.chain.calls[sys.calls[s]].phase.Replied?
      then Some(D.AnswerArrives(s, Received(sys.chain.calls[sys.calls[s]].phase.reply))) else None
    case Lose(s, answer) => Some(D.AnswerArrives(s, answer))
    case _ => None
  }

  function ChainPart(terms: Terms, sys: System, step: Step): Option<S.Step> {
    match step
    case Chain(c) => Some(c)
    case Forward(s, c, i, nonce) =>
      if s in sys.durable.submitters then Some(S.Arrive(c, i, nonce, terms(sys.durable.submitters[s].intent))) else None
    case _ => None
  }

  function Apply(terms: Terms, sys: System, step: Step): System
    requires Enabled(terms, sys, step)
  {
    var d, c := DurablePart(sys, step), ChainPart(terms, sys, step);
    System(if d.Some? then D.Apply(sys.durable, d.value) else sys.durable,
           if c.Some? then S.Apply(sys.chain, c.value) else sys.chain,
           if step.Forward? then sys.calls[step.s := step.c] else sys.calls)
  }

  function After(terms: Terms, ledger: Ledger, steps: seq<Step>): Option<System> {
    if steps == [] then Some(System(D.START, S.Genesis(ledger), map[]))
    else
      var before := After(terms, ledger, steps[..|steps| - 1]);
      var last := steps[|steps| - 1];
      if before.Some? && Enabled(terms, before.value, last) then Some(Apply(terms, before.value, last)) else None
  }

  /** Every run of the whole is a run of each part. */
  lemma {:induction false} RunOfEachPart(terms: Terms, ledger: Ledger, steps: seq<Step>, sys: System)
    returns (durable: seq<D.Step>, chain: seq<S.Step>)
    requires After(terms, ledger, steps) == Some(sys)
    ensures D.After(durable) == Some(sys.durable) && S.After(ledger, chain) == Some(sys.chain)
  {
    if steps == [] {
      durable, chain := [], [];
    } else {
      var last := steps[|steps| - 1];
      var before := After(terms, ledger, steps[..|steps| - 1]).value;
      durable, chain := RunOfEachPart(terms, ledger, steps[..|steps| - 1], before);
      var d, c := DurablePart(before, last), ChainPart(terms, before, last);
      if d.Some? {
        D.Extend(durable, before.durable, d.value);
        durable := durable + [d.value];
      }
      if c.Some? {
        Theorems.Extend(ledger, chain, before.chain, c.value);
        chain := chain + [c.value];
      }
    }
  }

  // ---------------------------------------------------------------------
  // What ties the two parts
  // ---------------------------------------------------------------------

  /** The submitter holds a success, and it is its own call's reply. */
  predicate AnsweredByItsCall(terms: Terms, sys: System, s: nat)
    requires s in sys.durable.submitters
  {
    var me := sys.durable.submitters[s];
    HoldsAnswer(me) && Classify(me.phase.answer).Submitted? ==>
      && s in sys.calls && sys.calls[s] in sys.chain.calls
      && sys.chain.calls[sys.calls[s]].phase.Replied?
      && me.phase.answer == Received(sys.chain.calls[sys.calls[s]].phase.reply)
      && sys.chain.calls[sys.calls[s]].calldata == terms(me.intent)
  }

  /** A submitter with a call has sent its request, and the call carries its intent's terms. */
  predicate CallServes(terms: Terms, sys: System, s: nat)
    requires s in sys.durable.submitters
  {
    s in sys.calls ==> sys.durable.submitters[s].departed && sys.calls[s] in sys.chain.calls
                       && sys.chain.calls[sys.calls[s]].calldata == terms(sys.durable.submitters[s].intent)
  }

  /** The row says the payment went out, and under which hash it landed. */
  ghost predicate RowIsPaid(terms: Terms, sys: System, id: string) {
    id in sys.durable.rows && id !in sys.durable.unguarded && sys.durable.rows[id].state == SETTLEMENT_PENDING ==>
      exists h :: sys.durable.rows[id].txHash == Some(Str(h)) && Safety.LandedVia(sys.chain, h, terms(id))
  }

  /** A submitter that told its caller SUBMITTED named the hash of the landed transfer. */
  ghost predicate ToldTheTruth(terms: Terms, sys: System, s: nat)
    requires s in sys.durable.submitters
  {
    var me := sys.durable.submitters[s];
    me.phase.Finished? && me.phase.result.Submitted? ==>
      me.phase.result.txHash.Str? && Safety.LandedVia(sys.chain, me.phase.result.txHash.s, terms(me.intent))
  }

  ghost predicate Inv(terms: Terms, sys: System) {
    && (forall s :: s in sys.durable.submitters ==> ToldTheTruth(terms, sys, s))
    && sys.calls.Keys <= sys.durable.submitters.Keys
    && (forall s :: s in sys.durable.submitters ==> AnsweredByItsCall(terms, sys, s) && CallServes(terms, sys, s))
    && (forall id :: RowIsPaid(terms, sys, id))
  }

  // -- steps of the chain -------------------------------------------------

  lemma CallsKeepTerms(w: S.World, step: S.Step)
    requires Safety.CallsInv(w) && S.Enabled(w, step)
    ensures w.calls.Keys <= S.Apply(w, step).calls.Keys
    ensures forall c :: c in w.calls ==>
              && S.Apply(w, step).calls[c].calldata == w.calls[c].calldata
              && (w.calls[c].phase.Replied? ==> S.Apply(w, step).calls[c] == w.calls[c])
  {
    forall c | c in w.calls
      ensures c in S.Apply(w, step).calls && S.Apply(w, step).calls[c].calldata == w.calls[c].calldata
      ensures w.calls[c].phase.Replied? ==> S.Apply(w, step).calls[c] == w.calls[c]
    {
      Safety.EvidenceStays(w, step, c);
      CalldataStays(w, step, c);
    }
  }

  lemma CalldataStays(w: S.World, step: S.Step, c: nat)
    requires S.Enabled(w, step) && c in w.calls
    ensures c in S.Apply(w, step).calls && S.Apply(w, step).calls[c].calldata == w.calls[c].calldata
  {
  }

  lemma LandedStays(w: S.World, step: S.Step, h: string, a: Authorization)
    requires S.Enabled(w, step) && Safety.LandedVia(w, h, a)
    ensures Safety.LandedVia(S.Apply(w, step), h, a)
  {
    var k :| 0 <= k < |w.log| && w.log[k] == S.Landed(a, Some(h));
    assert S.Apply(w, step).log[k] == w.log[k];
  }

  /** A step on chain, with the durable part standing still. */
  lemma ChainKeepsInv(terms: Terms, sys: System, step: S.Step, next: System)
    requires Inv(terms, sys) && Safety.CallsInv(sys.chain) && S.Enabled(sys.chain, step)
    requires next.durable == sys.durable && next.chain == S.Apply(sys.chain, step)
    requires next.calls == sys.calls
             || exists s, c :: next.calls == sys.calls[s := c] && NewCall(terms, sys, next, s, c)
    ensures Inv(terms, next)
  {
    CallsKeepTerms(sys.chain, step);
    forall s | s in next.durable.submitters ensures AnsweredByItsCall(terms, next, s) && CallServes(terms, next, s) {
      assert AnsweredByItsCall(terms, sys, s) && CallServes(terms, sys, s);
    }
    forall s | s in next.durable.submitters ensures ToldTheTruth(terms, next, s) {
      assert ToldTheTruth(terms, sys, s);
      var me := sys.durable.submitters[s];
      if me.phase.Finished? && me.phase.result.Submitted? {
        LandedStays(sys.chain, step, me.phase.result.txHash.s, terms(me.intent));
      }
    }
    forall id ensures RowIsPaid(terms, next, id) {
      assert RowIsPaid(terms, sys, id);
      if id in sys.durable.rows && id !in sys.durable.unguarded && sys.durable.rows[id].state == SETTLEMENT_PENDING {
        var h :| sys.durable.rows[id].txHash == Some(Str(h)) && Safety.LandedVia(sys.chain, h, terms(id));
        LandedStays(sys.chain, step, h, terms(id));
      }
    }
  }

  /** `s` was given call `c` by this step. */
  predicate NewCall(terms: Terms, sys: System, next: System, s: nat, c: nat) {
    && s !in sys.calls && s in sys.durable.submitters && sys.durable.submitters[s].phase.InFlight?
    && sys.durable.submitters[s].departed && c in next.chain.calls && next.chain.calls[c].calldata == terms(sys.durable.submitters[s].intent)
  }

  // -- durable steps ------------------------------------------------------

  predicate HoldsAnswer(me: D.Submitter) {
    me.phase.Recording? || me.phase.Retrying?
  }

  /** How a durable step leaves the submitters. */
  lemma SubmittersKeep(sys: D.System, step: D.Step)
    requires D.Enabled(sys, step)
    ensures var next := D.Apply(sys, step);
      && sys.submitters.Keys <= next.submitters.Keys
      && (forall s :: s in sys.submitters ==> next.submitters[s].intent == sys.submitters[s].intent
                                              && (sys.submitters[s].departed ==> next.submitters[s].departed))
  {
    if D.Actor(step).None? {
      D.OthersMoveNoSubmitter(sys, step);
    } else {
      D.ActorMoves(sys, step, D.Actor(step).value);
    }
  }

  /** An answer in hand has just arrived or was there before. */
  lemma AnswersAreKept(sys: D.System, step: D.Step, s: nat)
    requires D.Enabled(sys, step) && s in D.Apply(sys, step).submitters && HoldsAnswer(D.Apply(sys, step).submitters[s])
    ensures var answer := D.Apply(sys, step).submitters[s].phase.answer;
      || step == D.AnswerArrives(s, answer)
      || (s in sys.submitters && HoldsAnswer(sys.submitters[s]) && sys.submitters[s].phase.answer == answer)
  {
  }

  /** SUBMITTED is told by a submitter with a success in hand, or was told before. */
  lemma OnlySuccessesAreTold(sys: D.System, step: D.Step, s: nat)
    requires D.Enabled(sys, step) && s in D.Apply(sys, step).submitters
    requires var me := D.Apply(sys, step).submitters[s]; me.phase.Finished? && me.phase.result.Submitted?
    ensures s in sys.submitters
    ensures sys.submitters[s] == D.Apply(sys, step).submitters[s]
            || (HoldsAnswer(sys.submitters[s])
                && Classify(sys.submitters[s].phase.answer) == D.Apply(sys, step).submitters[s].phase.result)
  {
  }

  /** A row newly in SETTLEMENT_PENDING was written by a submitter with a success in hand. */
  lemma OnlySuccessesPend(sys: D.System, step: D.Step, id: string)
    requires D.Enabled(sys, step) && !step.Recover?
    requires id in D.Apply(sys, step).rows && D.Apply(sys, step).rows[id].state == SETTLEMENT_PENDING
    ensures id in D.Apply(sys, step).unguarded || (id in sys.rows && id !in sys.unguarded && D.Apply(sys, step).rows[id] == sys.rows[id])
            || exists s :: s in sys.submitters && WritesSuccess(sys, step, s, id)
  {
    if (step.Record? || step.RecordThrows?) && D.Apply(sys, step).rows != sys.rows && sys.submitters[step.s].intent == id {
      assert WritesSuccess(sys, step, step.s, id);
    }
  }

  predicate WritesSuccess(sys: D.System, step: D.Step, s: nat, id: string)
    requires s in sys.submitters && D.Enabled(sys, step)
  {
    var me := sys.submitters[s];
    && me.intent == id && HoldsAnswer(me) && Classify(me.phase.answer).Submitted?
    && id in D.Apply(sys, step).rows
    && (DurableHash(me.phase.answer).Some? ==> D.Apply(sys, step).rows[id].txHash == DurableHash(me.phase.answer))
  }

  /** The answer that arrives is no success, or the reply of the submitter's own call. */
  predicate HonestArrival(sys: System, step: D.Step) {
    step.AnswerArrives? && Classify(step.answer).Submitted? ==>
      && step.s in sys.calls && sys.calls[step.s] in sys.chain.calls
      && sys.chain.calls[sys.calls[step.s]].phase.Replied?
      && step.answer == Received(sys.chain.calls[sys.calls[step.s]].phase.reply)
  }

  /** A success in hand is a landed transfer of the intent's terms, under the hash it records. */
  lemma SuccessIsLanded(terms: Terms, ledger: Ledger, chain: seq<S.Step>, sys: System, s: nat) returns (h: string)
    requires S.After(ledger, chain) == Some(sys.chain)
    requires s in sys.durable.submitters && AnsweredByItsCall(terms, sys, s) && HoldsAnswer(sys.durable.submitters[s])
    requires Classify(sys.durable.submitters[s].phase.answer).Submitted?
    ensures Classify(sys.durable.submitters[s].phase.answer) == Submitted(Str(h))
    ensures DurableHash(sys.durable.submitters[s].phase.answer) == Some(Str(h))
    ensures Safety.LandedVia(sys.chain, h, terms(sys.durable.submitters[s].intent))
  {
    var c := sys.calls[s];
    h := HashText(sys.chain.calls[c].phase.reply.body);
    ClassifiesReply(sys.chain.calls[c].phase.reply);
    Theorems.SubmittedMeansLanded(ledger, chain, sys.chain, c, h);
  }

  lemma DurableKeepsInv(terms: Terms, ledger: Ledger, chain: seq<S.Step>, sys: System, step: D.Step, next: System)
    requires Inv(terms, sys) && D.Enabled(sys.durable, step) && HonestArrival(sys, step)
    requires HonestRecovery(terms, sys.chain, step) && S.After(ledger, chain) == Some(sys.chain)
    requires next == System(D.Apply(sys.durable, step), sys.chain, sys.calls)
    ensures Inv(terms, next)
  {
    SubmittersKeep(sys.durable, step);
    forall s | s in next.durable.submitters
      ensures AnsweredByItsCall(terms, next, s) && CallServes(terms, next, s) && ToldTheTruth(terms, next, s)
    {
      SubmitterKept(terms, ledger, chain, sys, step, next, s);
    }
    forall id ensures RowIsPaid(terms, next, id) {
      RowKept(terms, ledger, chain, sys, step, next, id);
    }
  }

  lemma SubmitterKept(terms: Terms, ledger: Ledger, chain: seq<S.Step>, sys: System, step: D.Step, next: System, s: nat)
    requires Inv(terms, sys) && D.Enabled(sys.durable, step) && HonestArrival(sys, step)
    requires S.After(ledger, chain) == Some(sys.chain)
    requires next == System(D.Apply(sys.durable, step), sys.chain, sys.calls) && s in next.durable.submitters
    ensures AnsweredByItsCall(terms, next, s) && CallServes(terms, next, s) && ToldTheTruth(terms, next, s)
  {
    SubmittersKeep(sys.durable, step);
    if s in sys.durable.submitters {
      assert AnsweredByItsCall(terms, sys, s) && CallServes(terms, sys, s) && ToldTheTruth(terms, sys, s);
    }
    var me := next.durable.submitters[s];
    if HoldsAnswer(me) {
      AnswersAreKept(sys.durable, step, s);
    } else if me.phase.Finished? && me.phase.result.Submitted? {
      OnlySuccessesAreTold(sys.durable, step, s);
      if sys.durable.submitters[s] != me {
        var h := SuccessIsLanded(terms, ledger, chain, sys, s);
      }
    }
  }

  /** A payment on record has one transaction, so a recovery finds that one again. */
  lemma RecoveryFindsThePayment(ledger: Ledger, chain: seq<S.Step>, w: S.World, a: Authorization, h: string, found: string)
    requires S.After(ledger, chain) == Some(w) && Safety.LandedVia(w, h, a) && UsedUnder(w, a, found)
    ensures found == h
  {
    Theorems.AtMostOneTransfer(ledger, chain, w);
    var j :| 0 <= j < |w.log| && w.log[j] == S.Landed(a, Some(h));
    var k :| 0 <= k < |w.log| && UsedPair(w.log[k].authorization) == UsedPair(a)
             && (w.log[k].via == Some(found) || w.log[k].via.None?);
    assert j == k;
  }

  /** Recovering a hash moves no row and touches no paid one. */
  lemma RecoveryKeepsRow(terms: Terms, ledger: Ledger, chain: seq<S.Step>, sys: System, step: D.Step, next: System, id: string)
    requires RowIsPaid(terms, sys, id) && step.Recover? && HonestRecovery(terms, sys.chain, step)
    requires S.After(ledger, chain) == Some(sys.chain)
    requires next == System(D.Apply(sys.durable, step), sys.chain, sys.calls)
    ensures RowIsPaid(terms, next, id)
  {
    if id == step.id && id in sys.durable.rows && id !in sys.durable.unguarded && sys.durable.rows[id].state == SETTLEMENT_PENDING {
      var h :| sys.durable.rows[id].txHash == Some(Str(h)) && Safety.LandedVia(sys.chain, h, terms(id));
      RecoveryFindsThePayment(ledger, chain, sys.chain, terms(id), h, step.txHash);
    }
  }

  lemma RowKept(terms: Terms, ledger: Ledger, chain: seq<S.Step>, sys: System, step: D.Step, next: System, id: string)
    requires Inv(terms, sys) && D.Enabled(sys.durable, step) && HonestRecovery(terms, sys.chain, step)
    requires S.After(ledger, chain) == Some(sys.chain)
    requires next == System(D.Apply(sys.durable, step), sys.chain, sys.calls)
    ensures RowIsPaid(terms, next, id)
  {
    assert RowIsPaid(terms, sys, id);
    if step.Recover? {
      RecoveryKeepsRow(terms, ledger, chain, sys, step, next, id);
    } else if id in next.durable.rows && id !in next.durable.unguarded && next.durable.rows[id].state == SETTLEMENT_PENDING {
      OnlySuccessesPend(sys.durable, step, id);
      if s :| s in sys.durable.submitters && WritesSuccess(sys.durable, step, s, id) {
        assert AnsweredByItsCall(terms, sys, s);
        var h := SuccessIsLanded(terms, ledger, chain, sys, s);
        assert next.durable.rows[id].txHash == Some(Str(h)) && Safety.LandedVia(next.chain, h, terms(id));
      }
    }
  }

  lemma ForwardIsNewCall(terms: Terms, durable: seq<D.Step>, sys: System, s: nat, c: nat, i: nat, nonce: string)
    requires D.After(durable) == Some(sys.durable) && Enabled(terms, sys, Forward(s, c, i, nonce))
    ensures NewCall(terms, sys, Apply(terms, sys, Forward(s, c, i, nonce)), s, c)
  {
    D.EveryRunKeepsInv(durable);
    assert D.SubmitterShape(sys.durable.submitters[s]);
  }

  /** Every run of the whole system keeps the two parts tied. */
  lemma {:induction false} EveryRunKeepsInv(terms: Terms, ledger: Ledger, steps: seq<Step>, sys: System)
    requires After(terms, ledger, steps) == Some(sys)
    ensures Inv(terms, sys)
  {
    if steps != [] {
      var last := steps[|steps| - 1];
      var before := After(terms, ledger, steps[..|steps| - 1]).value;
      EveryRunKeepsInv(terms, ledger, steps[..|steps| - 1], before);
      var durable, chain := RunOfEachPart(terms, ledger, steps[..|steps| - 1], before);
      Safety.EveryRunKeepsInv(ledger, chain);
      match last {
        case Chain(c) => ChainKeepsInv(terms, before, c, sys);
        case Forward(s, c, i, nonce) =>
          ForwardIsNewCall(terms, durable, before, s, c, i, nonce);
          ChainKeepsInv(terms, before, ChainPart(terms, before, last).value, sys);
        case _ => DurableKeepsInv(terms, ledger, chain, before, DurablePart(before, last).value, sys);
      }
    }
  }

  // ---------------------------------------------------------------------
  // Promises of the whole
  // ---------------------------------------------------------------------

  /** What the database says is what the chain did: in every run, an intent in
      SETTLEMENT_PENDING that no unguarded writer touched carries the hash under
      which its own authorization landed. */
  lemma PendingIntentsArePaid(terms: Terms, ledger: Ledger, steps: seq<Step>, sys: System, id: string)
    requires After(terms, ledger, steps) == Some(sys)
    requires id in sys.durable.rows && id !in sys.durable.unguarded && sys.durable.rows[id].state == SETTLEMENT_PENDING
    ensures exists h :: sys.durable.rows[id].txHash == Some(Str(h)) && Safety.LandedVia(sys.chain, h, terms(id))
  {
    EveryRunKeepsInv(terms, ledger, steps, sys);
    assert RowIsPaid(terms, sys, id);
  }

  /** And so is whoever was told SUBMITTED, whatever became of the row. */
  lemma SubmittersTellTheTruth(terms: Terms, ledger: Ledger, steps: seq<Step>, sys: System, s: nat, txHash: Json)
    requires After(terms, ledger, steps) == Some(sys) && s in sys.durable.submitters
    requires sys.durable.submitters[s].phase == D.Finished(Submitted(txHash))
    ensures txHash.Str? && Safety.LandedVia(sys.chain, txHash.s, terms(sys.durable.submitters[s].intent))
  {
    EveryRunKeepsInv(terms, ledger, steps, sys);
    assert ToldTheTruth(terms, sys, s);
  }

  /** Entry `k` of the log spends the authorization of the intent. */
  predicate Spends(sys: System, k: nat, a: Authorization) {
    k < |sys.chain.log| && UsedPair(sys.chain.log[k].authorization) == UsedPair(a)
  }

  /** Submitter `s` of the intent reached a facilitator. */
  predicate Reached(sys: System, s: nat, id: string) {
    s in sys.calls && s in sys.durable.submitters && sys.durable.submitters[s].intent == id
  }

  /** One intent, one payment: in every run at most one landed transfer spends the
      authorization of an intent, whoever submitted it, and unless an unguarded
      writer touched the intent at most one submitter ever reached a facilitator. */
  lemma OneIntentOnePayment(terms: Terms, ledger: Ledger, steps: seq<Step>, sys: System, id: string)
    requires After(terms, ledger, steps) == Some(sys)
    ensures forall j, k :: Spends(sys, j, terms(id)) && Spends(sys, k, terms(id)) ==> j == k
    ensures id !in sys.durable.unguarded ==> forall s, t :: Reached(sys, s, id) && Reached(sys, t, id) ==> s == t
  {
    var durable, chain := RunOfEachPart(terms, ledger, steps, sys);
    Theorems.AtMostOneTransfer(ledger, chain, sys.chain);
    EveryRunKeepsInv(terms, ledger, steps, sys);
    D.OneRequestPerIntent(durable, sys.durable, id);
    if id !in sys.durable.unguarded {
      forall s, t | Reached(sys, s, id) && Reached(sys, t, id) ensures s == t {
        assert CallServes(terms, sys, s) && CallServes(terms, sys, t);
        D.SubsetSize({s, t}, D.Requests(sys.durable, id));
      }
    }
  }
}
