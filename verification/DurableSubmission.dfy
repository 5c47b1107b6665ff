/**
 Concurrent submitters over one durable store. Each await of `submit` is a
 point where other submitters, the reconciler or an unguarded writer may run,
 and each store call may fail before or after it commits.
 */
module DurableSubmission {
  import opened Wrappers
  import opened FacilitatorClient
  import opened Json
  import opened IntentStore

  datatype Phase =
    | Reading
    | Marking
    | Marked                       // this call moved the intent to SUBMITTING
    | InFlight                     // its /settle request has left
    | Recording(answer: SettleAnswer)
    | Retrying(answer: SettleAnswer)
    | Finished(result: SubmitResult)

  datatype Submitter = Submitter(intent: string, phase: Phase, marked: bool, departed: bool)

  datatype System = System(
    rows: Rows,
    submitters: map<nat, Submitter>,
    reopened: map<string, nat>,    // unguarded writes that put an intent back before SUBMITTING
    unguarded: set<string>,        // intents an unguarded write has touched
    verdicts: set<string>)         // intents the reconciler declared NOT_SETTLED

  datatype Step =
    | CreateIntent(id: string, authorized: bool)
    | Authorize(id: string)
    | Reconcile(id: string, expected: SettlementState, next: SettlementState)
    | Recover(id: string, observed: SettlementState, txHash: string)   // the reconciler found the transaction
    | UnguardedWrite(id: string, next: SettlementState)
    | Begin(s: nat, id: string)
    | ReadState(s: nat)
    | ReadThrows(s: nat)
    | Mark(s: nat)
    | MarkThrows(s: nat, committed: bool)
    | Depart(s: nat)
    | AnswerArrives(s: nat, answer: SettleAnswer)
    | RecordThrows(s: nat, committed: bool)
    | Record(s: nat, committed: bool)

  predicate BeforeSubmitting(s: SettlementState) {
    s == PENDING_SIGNATURE || s == AUTHORIZED
  }

  function StateOf(sys: System, id: string): Option<SettlementState> {
    if id in sys.rows then Some(sys.rows[id].state) else None
  }

  predicate InPhase(sys: System, s: nat) {
    s in sys.submitters && !sys.submitters[s].phase.Finished?
  }

  predicate Enabled(sys: System, step: Step) {
    match step
    case CreateIntent(id, _) => id !in sys.rows
    case Authorize(_) => true
    case Reconcile(_, expected, next) => next == SETTLED || next == NOT_SETTLED || next == RECONCILING
    case Recover(_, _, _) => true
    case UnguardedWrite(_, _) => true
    case Begin(s, _) => s !in sys.submitters
    case ReadState(s) => InPhase(sys, s) && sys.submitters[s].phase.Reading?
    case ReadThrows(s) => InPhase(sys, s) && sys.submitters[s].phase.Reading?
    case Mark(s) => InPhase(sys, s) && sys.submitters[s].phase.Marking?
    case MarkThrows(s, _) => InPhase(sys, s) && sys.submitters[s].phase.Marking?
    case Depart(s) => InPhase(sys, s) && sys.submitters[s].phase.Marked?
    case AnswerArrives(s, _) => InPhase(sys, s) && sys.submitters[s].phase.InFlight?
    case RecordThrows(s, _) => InPhase(sys, s) && sys.submitters[s].phase.Recording? && Classify(sys.submitters[s].phase.answer).Submitted?
    case Record(s, _) => InPhase(sys, s) && (sys.submitters[s].phase.Recording? || sys.submitters[s].phase.Retrying?)
  }

  function Cas(sys: System, id: string, expected: SettlementState, next: SettlementState): System {
    sys.(rows := CasRows(sys.rows, id, expected, next, None))
  }

  function Become(sys: System, s: nat, submitter: Submitter): System {
    sys.(submitters := sys.submitters[s := submitter])
  }

  /** The write of a finished request: SUBMITTING to the answer's target with its
      hash, if the store commits it. */
  function RecordAnswer(sys: System, id: string, answer: SettleAnswer, committed: bool): System {
    if committed && DurableTarget(answer).Some?
    then sys.(rows := CasRows(sys.rows, id, SUBMITTING, DurableTarget(answer).value, DurableHash(answer)))
    else sys
  }

  function MarkCas(sys: System, s: nat, lost: SubmitResult): System
    requires s in sys.submitters
  {
    var me := sys.submitters[s];
    if CasApplies(sys.rows, me.intent, AUTHORIZED)
    then Become(Cas(sys, me.intent, AUTHORIZED, SUBMITTING), s, me.(phase := Marked, marked := true))
    else Become(sys, s, me.(phase := Finished(lost)))
  }

  /** The write takes an intent past AUTHORIZED back to a state before SUBMITTING. */
  predicate Reopens(sys: System, id: string, next: SettlementState) {
    id in sys.rows && !BeforeSubmitting(sys.rows[id].state) && BeforeSubmitting(next)
  }

  function Apply(sys: System, step: Step): System
    requires Enabled(sys, step)
  {
    match step
    case CreateIntent(id, authorized) =>
      sys.(rows := sys.rows[id := Row(if authorized then AUTHORIZED else PENDING_SIGNATURE, None)])
    case Authorize(id) => Cas(sys, id, PENDING_SIGNATURE, AUTHORIZED)
    case Reconcile(id, expected, next) =>
      Cas(sys, id, expected, next).(verdicts := if next == NOT_SETTLED && CasApplies(sys.rows, id, expected) then sys.verdicts + {id} else sys.verdicts)
    case Recover(id, observed, txHash) => sys.(rows := CasRows(sys.rows, id, observed, observed, Some(Str(txHash))))
    case UnguardedWrite(id, next) =>
      sys.(rows := if id in sys.rows then sys.rows[id := sys.rows[id].(state := next)] else sys.rows,
           reopened := if Reopens(sys, id, next) then sys.reopened[id := Reopened(sys, id) + 1] else sys.reopened,
           unguarded := sys.unguarded + {id})
    case Begin(s, id) => Become(sys, s, Submitter(id, Reading, false, false))
    case ReadState(s) =>
      var me := sys.submitters[s];
      var state := StateOf(sys, me.intent);
      if state.None? then Become(sys, s, me.(phase := Finished(Rejected(Str("INTENT_NOT_FOUND in DB")))))
      else if !MayAttempt(state.value) then Become(sys, s, me.(phase := Finished(Rejected(Str("DB_STATE_GUARD")))))
      else Become(sys, s, me.(phase := Marking))
    case ReadThrows(s) => Become(sys, s, sys.submitters[s].(phase := Finished(SubmitThrew)))
    case Mark(s) => MarkCas(sys, s, Rejected(Str("CAS_FAILED")))
    case MarkThrows(s, committed) =>
      var moved := if committed then MarkCas(sys, s, SubmitThrew) else sys;
      Become(moved, s, moved.submitters[s].(phase := Finished(SubmitThrew)))
    case Depart(s) => Become(sys, s, sys.submitters[s].(phase := InFlight, departed := true))
    case AnswerArrives(s, answer) => Become(sys, s, sys.submitters[s].(phase := Recording(answer)))
    case RecordThrows(s, committed) =>
      var me := sys.submitters[s];
      Become(RecordAnswer(sys, me.intent, me.phase.answer, committed), s, me.(phase := Retrying(me.phase.answer)))
    case Record(s, committed) =>
      var me := sys.submitters[s];
      Become(RecordAnswer(sys, me.intent, me.phase.answer, committed), s, me.(phase := Finished(Classify(me.phase.answer))))
  }

  function Reopened(sys: System, id: string): nat {
    if id in sys.reopened then sys.reopened[id] else 0
  }

  const START := System(map[], map[], map[], {}, {})

  function After(steps: seq<Step>): Option<System> {
    if steps == [] then Some(START)
    else
      var before := After(steps[..|steps| - 1]);
      var last := steps[|steps| - 1];
      if before.Some? && Enabled(before.value, last) then Some(Apply(before.value, last)) else None
  }

  /** The submitter a step belongs to. */
  function Actor(step: Step): Option<nat> {
    match step
    case Begin(s, _) => Some(s)
    case ReadState(s) => Some(s)
    case ReadThrows(s) => Some(s)
    case Mark(s) => Some(s)
    case MarkThrows(s, _) => Some(s)
    case Depart(s) => Some(s)
    case AnswerArrives(s, _) => Some(s)
    case RecordThrows(s, _) => Some(s)
    case Record(s, _) => Some(s)
    case _ => None
  }

  /** A submitter's step moves that submitter alone and keeps its intent. */
  lemma ActorMoves(sys: System, step: Step, s: nat)
    requires Enabled(sys, step) && Actor(step) == Some(s)
    ensures var next := Apply(sys, step);
      && s in next.submitters && next.submitters == sys.submitters[s := next.submitters[s]]
      && (s in sys.submitters ==> next.submitters[s].intent == sys.submitters[s].intent
                                  && (sys.submitters[s].departed ==> next.submitters[s].departed))
  {
  }

  lemma OthersMoveNoSubmitter(sys: System, step: Step)
    requires Enabled(sys, step) && Actor(step).None?
    ensures Apply(sys, step).submitters == sys.submitters
  {
  }

  // ---------------------------------------------------------------------
  // Counting requests
  // ---------------------------------------------------------------------

  /** The submitters that ever moved the intent to SUBMITTING. */
  function Markers(sys: System, id: string): set<nat> {
    set s | s in sys.submitters && sys.submitters[s].intent == id && sys.submitters[s].marked
  }

  /** The submitters whose /settle request for the intent has left. */
  function Requests(sys: System, id: string): set<nat> {
    set s | s in sys.submitters && sys.submitters[s].intent == id && sys.submitters[s].departed
  }

  /** One while the intent can still be moved to SUBMITTING. */
  function Ticket(sys: System, id: string): nat {
    if id !in sys.rows || BeforeSubmitting(sys.rows[id].state) then 1 else 0
  }

  predicate SubmitterShape(s: Submitter) {
    && (s.departed ==> s.marked)
    && (s.phase.Reading? || s.phase.Marking? ==> !s.marked)
    && (s.phase.Marked? ==> s.marked && !s.departed)
    && (s.phase.InFlight? || s.phase.Recording? || s.phase.Retrying? ==> s.departed)
  }

  ghost predicate Inv(sys: System) {
    && (forall s :: s in sys.submitters ==> SubmitterShape(sys.submitters[s]))
    && (forall id :: |Markers(sys, id)| + Ticket(sys, id) <= 1 + Reopened(sys, id))
    && (forall id :: id in sys.rows && sys.rows[id].state == NOT_SETTLED ==> id in sys.verdicts + sys.unguarded)
    && (forall id :: id !in sys.unguarded ==> Reopened(sys, id) == 0)
  }

  /** A submitter that changes without marking leaves every marker set alone. */
  lemma MarkersUnchanged(sys: System, sys': System, id: string)
    requires sys.submitters.Keys <= sys'.submitters.Keys
    requires forall s :: s in sys.submitters ==>
               sys'.submitters[s].intent == sys.submitters[s].intent && sys'.submitters[s].marked == sys.submitters[s].marked
    requires forall s :: s in sys'.submitters && s !in sys.submitters ==> !sys'.submitters[s].marked
    ensures Markers(sys', id) == Markers(sys, id)
  {
  }

  lemma TicketKept(sys: System, step: Step, id: string)
    requires Enabled(sys, step) && !step.Mark? && !step.MarkThrows?
    ensures Ticket(Apply(sys, step), id) <= Ticket(sys, id) + (Reopened(Apply(sys, step), id) - Reopened(sys, id))
    ensures Reopened(Apply(sys, step), id) >= Reopened(sys, id)
  {
  }

  lemma OtherStepsMarkNothing(sys: System, step: Step)
    requires Enabled(sys, step) && !step.Mark? && !step.MarkThrows?
    ensures var sys' := Apply(sys, step);
      && sys.submitters.Keys <= sys'.submitters.Keys
      && (forall s :: s in sys.submitters ==>
            sys'.submitters[s].intent == sys.submitters[s].intent && sys'.submitters[s].marked == sys.submitters[s].marked)
      && (forall s :: s in sys'.submitters && s !in sys.submitters ==> !sys'.submitters[s].marked)
  {
    if Actor(step).None? {
      OthersMoveNoSubmitter(sys, step);
    } else {
      ActorMoves(sys, step, Actor(step).value);
      MarkIsKept(sys, step, Actor(step).value);
    }
  }

  lemma MarkIsKept(sys: System, step: Step, s: nat)
    requires Enabled(sys, step) && Actor(step) == Some(s) && !step.Mark? && !step.MarkThrows?
    ensures s in Apply(sys, step).submitters
    ensures Apply(sys, step).submitters[s].marked == (s in sys.submitters && sys.submitters[s].marked)
  {
  }

  /** What marking does: the submitter ends marked exactly when the intent moved. */
  lemma MarkEffect(sys: System, step: Step)
    requires Inv(sys) && Enabled(sys, step) && (step.Mark? || step.MarkThrows?)
    ensures var sys' := Apply(sys, step); var me := sys.submitters[step.s];
      && !me.marked && step.s in sys'.submitters
      && sys'.submitters == sys.submitters[step.s := sys'.submitters[step.s]]
      && sys'.submitters[step.s].intent == me.intent && sys'.reopened == sys.reopened
      && (sys'.submitters[step.s].marked ==>
            me.intent in sys.rows && sys.rows[me.intent].state == AUTHORIZED
            && sys'.rows == sys.rows[me.intent := Row(SUBMITTING, sys.rows[me.intent].txHash)])
      && (!sys'.submitters[step.s].marked ==> sys'.rows == sys.rows)
  {
    assert SubmitterShape(sys.submitters[step.s]);
  }

  /** Marking turns the intent's ticket into a marker, one for one. */
  lemma MarkSpendsTheTicket(sys: System, step: Step, id: string)
    requires Inv(sys) && Enabled(sys, step) && (step.Mark? || step.MarkThrows?)
    ensures var sys' := Apply(sys, step); |Markers(sys', id)| + Ticket(sys', id) <= |Markers(sys, id)| + Ticket(sys, id)
    ensures Reopened(Apply(sys, step), id) == Reopened(sys, id)
  {
    var sys' := Apply(sys, step);
    var me := sys.submitters[step.s];
    MarkEffect(sys, step);
    if sys'.submitters[step.s].marked && me.intent == id {
      assert Markers(sys', id) == Markers(sys, id) + {step.s};
    } else {
      assert Markers(sys', id) == Markers(sys, id);
    }
  }

  lemma ShapesKept(sys: System, step: Step)
    requires Inv(sys) && Enabled(sys, step)
    ensures forall s :: s in Apply(sys, step).submitters ==> SubmitterShape(Apply(sys, step).submitters[s])
  {
  }

  lemma VerdictsKept(sys: System, step: Step)
    requires Inv(sys) && Enabled(sys, step)
    ensures var sys' := Apply(sys, step);
      forall id :: id in sys'.rows && sys'.rows[id].state == NOT_SETTLED ==> id in sys'.verdicts + sys'.unguarded
  {
  }

  lemma InvKept(sys: System, step: Step)
    requires Inv(sys) && Enabled(sys, step)
    ensures Inv(Apply(sys, step))
  {
    var sys' := Apply(sys, step);
    ShapesKept(sys, step);
    VerdictsKept(sys, step);
    forall id ensures |Markers(sys', id)| + Ticket(sys', id) <= 1 + Reopened(sys', id) {
      if step.Mark? || step.MarkThrows? {
        MarkSpendsTheTicket(sys, step, id);
      } else {
        OtherStepsMarkNothing(sys, step);
        MarkersUnchanged(sys, sys', id);
        TicketKept(sys, step, id);
      }
    }
  }

  lemma {:induction false} EveryRunKeepsInv(steps: seq<Step>)
    requires After(steps).Some?
    ensures Inv(After(steps).value)
  {
    if steps == [] {
      assert forall id :: Markers(START, id) == {};
    } else {
      EveryRunKeepsInv(steps[..|steps| - 1]);
      InvKept(After(steps[..|steps| - 1]).value, steps[|steps| - 1]);
    }
  }

  // ---------------------------------------------------------------------
  // Promises
  // ---------------------------------------------------------------------

  /** One /settle request per intent over all runs, and one more at most for each
      unguarded write that reopened it; a NOT_SETTLED verdict buys none. */
  lemma OneRequestPerIntent(steps: seq<Step>, sys: System, id: string)
    requires After(steps) == Some(sys)
    ensures |Requests(sys, id)| <= 1 + Reopened(sys, id)
    ensures id !in sys.unguarded ==> |Requests(sys, id)| <= 1
    ensures |Requests(sys, id)| == 1 + Reopened(sys, id) ==> id in sys.rows && !BeforeSubmitting(sys.rows[id].state)
  {
    EveryRunKeepsInv(steps);
    RequestsAreMarked(sys, id);
  }

  lemma RequestsAreMarked(sys: System, id: string)
    requires Inv(sys)
    ensures Requests(sys, id) <= Markers(sys, id) && |Requests(sys, id)| <= |Markers(sys, id)|
  {
    forall s | s in Requests(sys, id) ensures s in Markers(sys, id) {
      assert SubmitterShape(sys.submitters[s]);
    }
    SubsetSize(Requests(sys, id), Markers(sys, id));
  }

  lemma {:induction false} SubsetSize(a: set<nat>, b: set<nat>)
    requires a <= b
    ensures |a| <= |b|
  {
    if a != {} {
      var x :| x in a;
      SubsetSize(a - {x}, b - {x});
    }
  }

  /** A request that has left leaves the intent closed: no later state allows a
      new payment or a second submission unless the reconciler or an unguarded
      writer put it there. */
  lemma RequestClosesIntent(steps: seq<Step>, sys: System, id: string)
    requires After(steps) == Some(sys) && Requests(sys, id) != {}
    ensures id !in sys.unguarded ==> id in sys.rows && !BeforeSubmitting(sys.rows[id].state)
    ensures id !in sys.unguarded && id !in sys.verdicts ==> !MayAttempt(sys.rows[id].state)
  {
    EveryRunKeepsInv(steps);
    RequestsAreMarked(sys, id);
    var s :| s in Requests(sys, id);
    assert |Markers(sys, id)| >= 1;
  }

  /** Without unguarded writes an intent has one marker at most. */
  lemma OnlyMarker(sys: System, id: string, s: nat)
    requires Inv(sys) && id !in sys.unguarded && s in Markers(sys, id)
    ensures forall other :: other in sys.submitters && other != s && sys.submitters[other].intent == id
                            ==> !sys.submitters[other].marked
  {
    forall other | other in sys.submitters && other != s && sys.submitters[other].intent == id
      ensures !sys.submitters[other].marked
    {
      if sys.submitters[other].marked {
        SubsetSize({s, other}, Markers(sys, id));
        assert false;
      }
    }
  }

  /** The two moves `submit` makes. */
  lemma SubmitMoves(sys: System, step: Step, id: string)
    requires Enabled(sys, step) && Actor(step).Some? && StateOf(Apply(sys, step), id) != StateOf(sys, id)
    requires Actor(step).value in sys.submitters && SubmitterShape(sys.submitters[Actor(step).value])
    ensures var s := Actor(step).value; var sys' := Apply(sys, step);
      && s in sys'.submitters && sys'.submitters[s].intent == id && sys'.submitters[s].marked
      && ((StateOf(sys, id) == Some(AUTHORIZED) && StateOf(sys', id) == Some(SUBMITTING))
          || (StateOf(sys, id) == Some(SUBMITTING) && sys'.submitters[s].departed
              && (StateOf(sys', id) == Some(RECONCILING) || StateOf(sys', id) == Some(SETTLEMENT_PENDING))))
      && sys'.unguarded == sys.unguarded
  {
  }

  lemma BeginMovesNothing(sys: System, step: Step, id: string)
    requires Enabled(sys, step) && Actor(step).Some? && StateOf(Apply(sys, step), id) != StateOf(sys, id)
    ensures Actor(step).value in sys.submitters
  {
  }

  /** Fencing: `submit` only ever moves its own intent, from AUTHORIZED to
      SUBMITTING or from its own SUBMITTING to a state that blocks payment. */
  lemma SubmitOverwritesNobody(steps: seq<Step>, sys: System, step: Step, id: string)
    requires After(steps) == Some(sys) && Enabled(sys, step) && Actor(step).Some?
    requires StateOf(Apply(sys, step), id) != StateOf(sys, id)
    ensures var s := Actor(step).value; var sys' := Apply(sys, step);
      && s in sys'.submitters && sys'.submitters[s].intent == id && sys'.submitters[s].marked
      && ((StateOf(sys, id) == Some(AUTHORIZED) && StateOf(sys', id) == Some(SUBMITTING))
          || (StateOf(sys, id) == Some(SUBMITTING) && sys'.submitters[s].departed
              && (StateOf(sys', id) == Some(RECONCILING) || StateOf(sys', id) == Some(SETTLEMENT_PENDING))))
      && (id !in sys.unguarded ==>
            forall other :: other in sys'.submitters && other != s && sys'.submitters[other].intent == id ==> !sys'.submitters[other].marked)
  {
    EveryRunKeepsInv(steps);
    InvKept(sys, step);
    BeginMovesNothing(sys, step, id);
    SubmitMoves(sys, step, id);
    if id !in sys.unguarded {
      OnlyMarker(Apply(sys, step), id, Actor(step).value);
    }
  }

  /** The answers that strand the intent: in any run, the recording step finishes
      its submitter by throwing exactly on a null body or a used reason without
      text, and then moves no intent at all. A failed read or mark also finishes
      one by throwing, but before any answer. */
  lemma ThrowingAnswerStrandsTheIntent(steps: seq<Step>, sys: System, s: nat, committed: bool)
    requires After(steps) == Some(sys) && Enabled(sys, Record(s, committed))
    ensures var sys' := Apply(sys, Record(s, committed)); var answer := sys.submitters[s].phase.answer;
      && s in sys'.submitters && sys'.submitters[s].phase.Finished?
      && (sys'.submitters[s].phase.result.SubmitThrew? <==>
            answer.Answered? && (!Readable(answer.body)
              || (UsesReason(answer.status, answer.body) && Textless(ReasonOf(answer.body, "HTTP")))))
      && (sys'.submitters[s].phase.result.SubmitThrew? ==> sys'.rows == sys.rows)
  {
    AnswersThatThrow(sys.submitters[s].phase.answer);
  }

  /** And there it stays: no submitter ever moves the intent on, whatever runs,
      unless the reconciler or an unguarded writer does. */
  lemma StrandedStays(steps: seq<Step>, sys: System, step: Step, s: nat)
    requires After(steps) == Some(sys) && Enabled(sys, step) && Actor(step).Some?
    requires s in sys.submitters && sys.submitters[s].phase.Finished? && sys.submitters[s].departed
    requires sys.submitters[s].intent !in sys.unguarded && StateOf(sys, sys.submitters[s].intent) == Some(SUBMITTING)
    ensures StateOf(Apply(sys, step), sys.submitters[s].intent) == Some(SUBMITTING)
    ensures s in Apply(sys, step).submitters && Apply(sys, step).submitters[s] == sys.submitters[s]
  {
    var id := sys.submitters[s].intent;
    EveryRunKeepsInv(steps);
    assert SubmitterShape(sys.submitters[s]);
    FinishedStays(sys, step, s);
    if StateOf(Apply(sys, step), id) != StateOf(sys, id) {
      SubmitOverwritesNobody(steps, sys, step, id);
    }
  }

  lemma FinishedStays(sys: System, step: Step, s: nat)
    requires Enabled(sys, step) && s in sys.submitters && sys.submitters[s].phase.Finished?
    ensures s in Apply(sys, step).submitters && Apply(sys, step).submitters[s] == sys.submitters[s]
    ensures Actor(step) != Some(s)
  {
  }

  /** Terminal states stay, whoever writes through compare-and-set. */
  lemma TerminalStays(sys: System, step: Step, id: string)
    requires Enabled(sys, step) && !step.UnguardedWrite?
    requires id in sys.rows && IsTerminal(sys.rows[id].state)
    ensures id in Apply(sys, step).rows && Apply(sys, step).rows[id].state == sys.rows[id].state
  {
  }

  lemma Extend(steps: seq<Step>, sys: System, step: Step)
    requires After(steps) == Some(sys) && Enabled(sys, step)
    ensures After(steps + [step]) == Some(Apply(sys, step))
  {
    assert (steps + [step])[..|steps|] == steps;
  }

  /** The run, one step longer. */
  lemma Do(steps: seq<Step>, sys: System, step: Step) returns (longer: seq<Step>, sys': System)
    requires After(steps) == Some(sys) && Enabled(sys, step)
    ensures longer == steps + [step] && sys' == Apply(sys, step) && After(longer) == Some(sys')
  {
    Extend(steps, sys, step);
    longer, sys' := steps + [step], Apply(sys, step);
  }

  lemma RunToMarking(steps: seq<Step>, sys: System, s: nat, id: string) returns (steps': seq<Step>, sys': System)
    requires After(steps) == Some(sys) && s !in sys.submitters && StateOf(sys, id) == Some(AUTHORIZED)
    ensures After(steps') == Some(sys')
    ensures sys' == sys.(submitters := sys.submitters[s := Submitter(id, Marking, false, false)])
  {
    steps', sys' := Do(steps, sys, Begin(s, id));
    assert sys' == sys.(submitters := sys.submitters[s := Submitter(id, Reading, false, false)]);
    steps', sys' := Do(steps', sys', ReadState(s));
  }

  /** A submitter that runs alone on an AUTHORIZED intent sends its request. */
  lemma RunToRequest(steps: seq<Step>, sys: System, s: nat, id: string) returns (steps': seq<Step>, sys': System)
    requires After(steps) == Some(sys) && s !in sys.submitters && StateOf(sys, id) == Some(AUTHORIZED)
    ensures After(steps') == Some(sys')
    ensures sys' == sys.(rows := sys.rows[id := sys.rows[id].(state := SUBMITTING)],
                         submitters := sys.submitters[s := Submitter(id, InFlight, true, true)])
  {
    steps', sys' := RunToMarking(steps, sys, s, id);
    steps', sys' := Do(steps', sys', Mark(s));
    assert sys' == sys.(rows := sys.rows[id := sys.rows[id].(state := SUBMITTING)],
                        submitters := sys.submitters[s := Submitter(id, Marked, true, false)]);
    steps', sys' := Do(steps', sys', Depart(s));
  }

  /** The bound is met: one unguarded write back to AUTHORIZED buys a second request. */
  lemma UnguardedWriteBuysARequest(id: string) returns (steps: seq<Step>, sys: System)
    ensures After(steps) == Some(sys) && Reopened(sys, id) == 1 && |Requests(sys, id)| == 2
  {
    steps, sys := [], START;
    steps, sys := Do(steps, sys, CreateIntent(id, true));
    steps, sys := RunToRequest(steps, sys, 0, id);
    steps, sys := Do(steps, sys, UnguardedWrite(id, AUTHORIZED));
    steps, sys := RunToRequest(steps, sys, 1, id);
    assert Requests(sys, id) == {0, 1};
  }
}
