/**
 The operation state machine of zeus-secretariat/src/core/operation-fsm.ts and
 the status the public API derives from it in api-server/src/routes/requests.ts.
 */
module OperationFsm {

  datatype OperationStatus =
    | CREATED | DISCOVERING | PAYMENT_REQUIRED | AWAITING_SIGNATURE | AUTHORIZED
    | PAYMENT_SUBMITTED | SETTLEMENT_PENDING | SETTLEMENT_UNKNOWN | SETTLED
    | EXECUTION_PENDING | EXECUTION_CONFIRMED | DELIVERED | SUCCESS | FAILED
    | POLICY_REJECTED | SETTLEMENT_FAILED | EXECUTION_UNKNOWN | RECOVERY_PENDING
    | RECOVERED | UNRESOLVABLE

  function ValidTransitions(from: OperationStatus): seq<OperationStatus> {
    match from
    case CREATED => [DISCOVERING, FAILED]
    case DISCOVERING => [PAYMENT_REQUIRED, SUCCESS, FAILED]
    case PAYMENT_REQUIRED => [AWAITING_SIGNATURE, AUTHORIZED, POLICY_REJECTED, FAILED]
    case AWAITING_SIGNATURE => [AUTHORIZED, FAILED]
    case AUTHORIZED => [PAYMENT_SUBMITTED, FAILED]
    case PAYMENT_SUBMITTED => [SETTLEMENT_PENDING, SETTLEMENT_UNKNOWN, SETTLED, SETTLEMENT_FAILED, UNRESOLVABLE]
    case SETTLEMENT_PENDING => [SETTLED, SETTLEMENT_UNKNOWN, SETTLEMENT_FAILED, UNRESOLVABLE]
    case SETTLEMENT_UNKNOWN => [SETTLED, SETTLEMENT_FAILED, UNRESOLVABLE]
    case SETTLED => [EXECUTION_PENDING, EXECUTION_UNKNOWN]
    case EXECUTION_PENDING => [EXECUTION_CONFIRMED, EXECUTION_UNKNOWN, FAILED]
    case EXECUTION_CONFIRMED => [DELIVERED, FAILED]
    case DELIVERED => [SUCCESS]
    case SETTLEMENT_FAILED => [FAILED]
    case EXECUTION_UNKNOWN => [RECOVERY_PENDING, FAILED]
    case RECOVERY_PENDING => [RECOVERED, SUCCESS, UNRESOLVABLE, FAILED]
    case SUCCESS => []
    case FAILED => []
    case POLICY_REJECTED => []
    case RECOVERED => []
    case UNRESOLVABLE => []
  }

  predicate IsValidTransition(from: OperationStatus, next: OperationStatus) {
    next in ValidTransitions(from)
  }

  /** The states an operation went through, each change allowed by the table. */
  predicate IsRun(run: seq<OperationStatus>) {
    |run| > 0 && forall i :: 0 <= i < |run| - 1 ==> IsValidTransition(run[i], run[i + 1])
  }

  /** How many transitions can still follow. */
  function Rank(s: OperationStatus): nat {
    match s
    case CREATED => 12
    case DISCOVERING => 11
    case PAYMENT_REQUIRED => 10
    case AWAITING_SIGNATURE => 9
    case AUTHORIZED => 8
    case PAYMENT_SUBMITTED => 7
    case SETTLEMENT_PENDING => 6
    case SETTLEMENT_UNKNOWN => 5
    case SETTLED => 4
    case EXECUTION_PENDING => 3
    case EXECUTION_UNKNOWN => 2
    case EXECUTION_CONFIRMED => 2
    case DELIVERED => 1
    case RECOVERY_PENDING => 1
    case SETTLEMENT_FAILED => 1
    case _ => 0
  }

  lemma {:induction false} RunsAreShort(run: seq<OperationStatus>)
    requires IsRun(run)
    ensures |run| - 1 + Rank(run[|run| - 1]) <= Rank(run[0]) <= 12
  {
    if |run| > 1 {
      RunsAreShort(run[..|run| - 1]);
      assert IsValidTransition(run[|run| - 2], run[|run| - 1]);
    }
  }

  /** From every state some run meets the bound, so no smaller one holds. */
  lemma {:induction false} LongestRun(s: OperationStatus) returns (run: seq<OperationStatus>)
    ensures IsRun(run) && run[0] == s && |run| - 1 == Rank(s)
    decreases Rank(s)
  {
    if Rank(s) == 0 {
      run := [s];
    } else {
      var next := ValidTransitions(s)[if s == SETTLEMENT_PENDING then 1 else 0];
      var rest := LongestRun(next);
      assert IsValidTransition(s, next);
      run := [s] + rest;
    }
  }

  /** A state that money has not left yet: nothing was submitted. */
  predicate BeforePayment(s: OperationStatus) {
    s in {CREATED, DISCOVERING, PAYMENT_REQUIRED, AWAITING_SIGNATURE, AUTHORIZED}
  }

  /** A state in which the payment's outcome is open. */
  predicate SettlementOpen(s: OperationStatus) {
    s in {PAYMENT_SUBMITTED, SETTLEMENT_PENDING, SETTLEMENT_UNKNOWN}
  }

  /** Once submitted, an operation whose settlement neither succeeded nor failed
      is still open or UNRESOLVABLE: never FAILED, never SUCCESS. */
  lemma {:induction false} SubmittedIsNeverJustFailed(run: seq<OperationStatus>)
    requires IsRun(run) && PAYMENT_SUBMITTED in run
    requires SETTLED !in run && SETTLEMENT_FAILED !in run
    ensures SettlementOpen(run[|run| - 1]) || run[|run| - 1] == UNRESOLVABLE
  {
    var last := run[|run| - 1];
    if |run| > 1 {
      var init := run[..|run| - 1];
      assert run == init + [last] && IsValidTransition(init[|init| - 1], last);
      if PAYMENT_SUBMITTED in init {
        SubmittedIsNeverJustFailed(init);
        assert last in run;
      }
    }
  }

  /** Without a submitted payment an operation is still before payment, or ended
      as SUCCESS, FAILED or POLICY_REJECTED; UNRESOLVABLE needs a payment. */
  lemma {:induction false} OutcomesNeedAPayment(run: seq<OperationStatus>)
    requires IsRun(run) && BeforePayment(run[0]) && PAYMENT_SUBMITTED !in run
    ensures BeforePayment(run[|run| - 1]) || run[|run| - 1] in {SUCCESS, FAILED, POLICY_REJECTED}
  {
    if |run| > 1 {
      var init := run[..|run| - 1];
      assert IsValidTransition(init[|init| - 1], run[|run| - 1]) && run[|run| - 1] in run;
      OutcomesNeedAPayment(init);
    }
  }

  // ---------------------------------------------------------------------
  // The public status
  // ---------------------------------------------------------------------

  datatype PublicRequestStatus = AwaitingPaymentSignature | Completed | Failed | Unresolvable | Unknown | Processing

  /** publicStatusForOperation; the flags say whether the execution or delivery state is UNKNOWN. */
  function PublicStatus(state: OperationStatus, executionUnknown: bool, deliveryUnknown: bool): PublicRequestStatus {
    if state == AWAITING_SIGNATURE then AwaitingPaymentSignature
    else if state in {SUCCESS, DELIVERED, EXECUTION_CONFIRMED, RECOVERED} then Completed
    else if state in {FAILED, POLICY_REJECTED, SETTLEMENT_FAILED} then Failed
    else if state == UNRESOLVABLE then Unresolvable
    else if state == EXECUTION_UNKNOWN || executionUnknown || deliveryUnknown then Unknown
    else Processing
  }

  /** An operation as the public API sees it at some time. */
  datatype View = View(state: OperationStatus, executionUnknown: bool, deliveryUnknown: bool) {
    function Public(): PublicRequestStatus {
      PublicStatus(state, executionUnknown, deliveryUnknown)
    }
  }

  function States(history: seq<View>): (r: seq<OperationStatus>)
    ensures |r| == |history|
    ensures forall i :: 0 <= i < |r| ==> r[i] == history[i].state
  {
    seq(|history|, i requires 0 <= i < |history| => history[i].state)
  }

  /** One transition keeps a public verdict, or fails a confirmed execution. */
  lemma VerdictStep(was: View, now: View)
    requires IsValidTransition(was.state, now.state)
    ensures was.Public() == Failed || was.Public() == Unresolvable ==> now.Public() == was.Public()
    ensures was.Public() == Completed ==>
              now.Public() == Completed || (now.Public() == Failed && was.state == EXECUTION_CONFIRMED && now.state == FAILED)
  {
  }

  lemma RunBefore(history: seq<View>)
    requires |history| > 1 && IsRun(States(history))
    ensures IsRun(States(history[..|history| - 1]))
    ensures IsValidTransition(history[|history| - 2].state, history[|history| - 1].state)
  {
    var run, init := States(history), States(history[..|history| - 1]);
    forall k | 0 <= k < |init| - 1 ensures IsValidTransition(init[k], init[k + 1]) {
      assert IsValidTransition(run[k], run[k + 1]);
    }
    assert IsValidTransition(run[|history| - 2], run[|history| - 2 + 1]);
  }

  /** Once the public status is FAILED or UNRESOLVABLE it stays so, and COMPLETED
      is only ever taken back to FAILED, by a failed delivery of a confirmed
      execution. */
  lemma {:induction false} PublicVerdictsLast(history: seq<View>, i: nat)
    requires i < |history| && IsRun(States(history))
    ensures var was, now := history[i].Public(), history[|history| - 1].Public();
      && (was == Failed || was == Unresolvable ==> now == was)
      && (was == Completed ==>
            now == Completed ||
            (now == Failed && exists k :: i <= k < |history| - 1 && history[k].state == EXECUTION_CONFIRMED && history[k + 1].state == FAILED))
  {
    if i < |history| - 1 {
      RunBefore(history);
      PublicVerdictsLast(history[..|history| - 1], i);
      VerdictStep(history[|history| - 2], history[|history| - 1]);
      assert history[|history| - 2 + 1] == history[|history| - 1];
    }
  }

  /** A public FAILED after a submitted payment is backed by a settlement verdict. */
  lemma PublicFailureIsDefinite(history: seq<View>)
    requires IsRun(States(history)) && PAYMENT_SUBMITTED in States(history)
    requires history[|history| - 1].Public() == Failed
    ensures SETTLED in States(history) || SETTLEMENT_FAILED in States(history)
  {
    if SETTLED !in States(history) && SETTLEMENT_FAILED !in States(history) {
      SubmittedIsNeverJustFailed(States(history));
    }
  }
}
