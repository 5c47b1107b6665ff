/**
 The durable intent store and the sequential `submit` over it. The contract is
 that of lib/db/src/secretariat/postgres-store.ts: every move is one
 compare-and-set on the state, and terminal states are never left.
 */
module IntentStore {
  import opened Wrappers
  import opened FacilitatorClient
  import opened Json

  datatype Row = Row(state: SettlementState, txHash: Option<Json>)

  type Rows = map<string, Row>

  /** The row a compare-and-set would move, when it applies. */
  predicate CasApplies(rows: Rows, id: string, expected: SettlementState) {
    !IsTerminal(expected) && id in rows && rows[id].state == expected
  }

  function CasRows(rows: Rows, id: string, expected: SettlementState, next: SettlementState, txHash: Option<Json>): Rows {
    if CasApplies(rows, id, expected)
    then rows[id := Row(next, if txHash.Some? then txHash else rows[id].txHash)]
    else rows
  }

  class PostgresEvidenceStore {
    var rows: Rows
    var intentOfOperation: map<string, string>

    constructor (rows: Rows, intentOfOperation: map<string, string>)
      ensures this.rows == rows && this.intentOfOperation == intentOfOperation
    {
      this.rows := rows;
      this.intentOfOperation := intentOfOperation;
    }

    method CompareAndSetState(id: string, expected: SettlementState, next: SettlementState, txHash: Option<Json>)
      returns (moved: bool)
      modifies this`rows
      ensures moved == CasApplies(old(rows), id, expected)
      ensures rows == CasRows(old(rows), id, expected, next, txHash)
    {
      if IsTerminal(expected) {
        return false;
      }
      moved := id in rows && rows[id].state == expected;
      if moved {
        rows := rows[id := Row(next, if txHash.Some? then txHash else rows[id].txHash)];
      }
    }

    method TransitionToSubmitting(id: string) returns (moved: bool)
      modifies this`rows
      ensures moved == (id in old(rows) && old(rows)[id].state == AUTHORIZED)
      ensures rows == CasRows(old(rows), id, AUTHORIZED, SUBMITTING, None)
    {
      moved := CompareAndSetState(id, AUTHORIZED, SUBMITTING, None);
    }

    method RecordSubmissionResult(id: string, next: SettlementState, txHash: Option<Json>) returns (moved: bool)
      modifies this`rows
      ensures moved == (id in old(rows) && old(rows)[id].state == SUBMITTING)
      ensures rows == CasRows(old(rows), id, SUBMITTING, next, txHash)
    {
      moved := CompareAndSetState(id, SUBMITTING, next, txHash);
    }
  }

  /** A stored state that lets `submit` go on to the SUBMITTING compare-and-set. */
  predicate MayAttempt(s: SettlementState) {
    AllowNewPayment(s) || s == AUTHORIZED
  }

  class X402FacilitatorClient {
    const store: PostgresEvidenceStore
    var submittedIntents: set<string>

    constructor (store: PostgresEvidenceStore)
      ensures this.store == store && submittedIntents == {}
    {
      this.store := store;
      submittedIntents := {};
    }

    /** One call with nobody else writing and no store failure. `sent` is true
        when a /settle request left; only an AUTHORIZED intent ever makes it so,
        and afterwards no second call can. */
    method Submit(operationId: string, id: string, answer: SettleAnswer) returns (result: SubmitResult, sent: bool)
      requires operationId in store.intentOfOperation ==> store.intentOfOperation[operationId] == id
      modifies this`submittedIntents, store`rows
      ensures sent == (operationId in store.intentOfOperation && id in old(store.rows) && old(store.rows)[id].state == AUTHORIZED)
      ensures !sent ==> result.Rejected? && store.rows == old(store.rows) && submittedIntents == old(submittedIntents)
      ensures sent ==> result == Classify(answer) && submittedIntents == old(submittedIntents) + {id}
      ensures sent ==> id in store.rows && store.rows.Keys == old(store.rows).Keys
      ensures sent ==> store.rows[id].state == DurableTarget(answer).GetOr(SUBMITTING) && !MayAttempt(store.rows[id].state)
      ensures sent && result.SubmitThrew? ==> store.rows == old(store.rows)[id := old(store.rows)[id].(state := SUBMITTING)]
      ensures sent && DurableHash(answer).Some? ==> store.rows[id].txHash == DurableHash(answer)
      ensures forall other :: other in old(store.rows) && other != id ==> other in store.rows && store.rows[other] == old(store.rows)[other]
    {
      if operationId !in store.intentOfOperation || id !in store.rows {
        return Rejected(Str("INTENT_NOT_FOUND in DB")), false;
      }
      if !AllowNewPayment(store.rows[id].state) && store.rows[id].state != AUTHORIZED {
        return Rejected(Str("DB_STATE_GUARD")), false;
      }
      var marked := store.TransitionToSubmitting(id);
      if !marked {
        return Rejected(Str("CAS_FAILED")), false;
      }
      submittedIntents := submittedIntents + {id};
      sent := true;
      result := Classify(answer);
      match result {
        case SubmitThrew =>
        case Submitted(txHash) =>
          var _ := store.RecordSubmissionResult(id, SETTLEMENT_PENDING, if Truthy(txHash) then Some(txHash) else None);
        case _ =>
          var _ := store.CompareAndSetState(id, SUBMITTING, RECONCILING, None);
      }
    }
  }

  // ---------------------------------------------------------------------
  // The live rig's in-memory store (testnet/live-rig/rig.ts, makeStore)
  // ---------------------------------------------------------------------

  /** None is the rig's PENDING, its stand-in for a signed, unsent intent. */
  datatype RigRow = RigRow(state: Option<SettlementState>, txHash: Option<Json>)

  type RigRows = map<string, RigRow>

  function RigGet(rows: RigRows, id: string): RigRow {
    if id in rows then rows[id] else RigRow(None, None)
  }

  function RigTransition(r: RigRow): RigRow {
    if r.state.None? then r.(state := Some(SUBMITTING)) else r
  }

  function RigCas(r: RigRow, expected: SettlementState, next: SettlementState, txHash: Option<Json>): RigRow {
    if r.state == Some(expected) then RigRow(Some(next), if txHash.Some? && txHash.value.Str? then txHash else r.txHash) else r
  }

  /** The rig records unconditionally. */
  function RigRecord(r: RigRow, next: SettlementState, txHash: Option<Json>): RigRow {
    RigRow(Some(next), if txHash.Some? && Truthy(txHash.value) then txHash else r.txHash)
  }

  class RigStore {
    var intents: RigRows

    constructor ()
      ensures intents == map[]
    {
      intents := map[];
    }

    method TransitionToSubmitting(id: string) returns (moved: bool)
      modifies this
      ensures moved == RigGet(old(intents), id).state.None?
      ensures intents == if moved then old(intents)[id := RigTransition(RigGet(old(intents), id))] else old(intents)
    {
      var it := if id in intents then intents[id] else RigRow(None, None);
      if it.state.Some? {
        return false;
      }
      intents := intents[id := it.(state := Some(SUBMITTING))];
      moved := true;
    }

    method CompareAndSetState(id: string, expected: SettlementState, next: SettlementState, txHash: Option<Json>)
      returns (moved: bool)
      modifies this
      ensures moved == (id in old(intents) && old(intents)[id].state == Some(expected))
      ensures intents == if moved then old(intents)[id := RigCas(old(intents)[id], expected, next, txHash)] else old(intents)
    {
      if id !in intents || intents[id].state != Some(expected) {
        return false;
      }
      intents := intents[id := RigRow(Some(next), if txHash.Some? && txHash.value.Str? then txHash else intents[id].txHash)];
      moved := true;
    }

    method RecordSubmissionResult(id: string, next: SettlementState, txHash: Option<Json>)
      modifies this
      ensures intents == old(intents)[id := RigRecord(RigGet(old(intents), id), next, txHash)]
    {
      var it := if id in intents then intents[id] else RigRow(None, None);
      it := it.(state := Some(next));
      if txHash.Some? && Truthy(txHash.value) {
        it := it.(txHash := txHash);
      }
      intents := intents[id := it];
    }
  }

  // -- the rig against the durable store ---------------------------------

  /** One store operation on one intent. */
  datatype StoreOp =
    | Transition
    | CasOp(expected: SettlementState, next: SettlementState, txHash: Option<Json>)
    | RecordOp(next: SettlementState, txHash: Option<Json>)

  function RigStep(r: RigRow, op: StoreOp): RigRow {
    match op
    case Transition => RigTransition(r)
    case CasOp(expected, next, txHash) => RigCas(r, expected, next, txHash)
    case RecordOp(next, txHash) => RigRecord(r, next, txHash)
  }

  function RowCas(row: Row, expected: SettlementState, next: SettlementState, txHash: Option<Json>): Row {
    CasRows(map["" := row], "", expected, next, txHash)[""]
  }

  function StoreStep(row: Row, op: StoreOp): Row {
    match op
    case Transition => RowCas(row, AUTHORIZED, SUBMITTING, None)
    case CasOp(expected, next, txHash) => RowCas(row, expected, next, txHash)
    case RecordOp(next, txHash) => RowCas(row, SUBMITTING, next, txHash)
  }

  /** A rig row seen through the durable contract. */
  function AsRow(r: RigRow): Row {
    Row(r.state.GetOr(AUTHORIZED), r.txHash)
  }

  /** Nothing is to be written, or it is there already. */
  predicate KeepsHash(r: RigRow, txHash: Option<Json>) {
    txHash.None? || r.txHash == txHash
  }

  /** Where the two stores do alike. */
  predicate Agrees(r: RigRow, op: StoreOp) {
    match op
    case Transition => r.state != Some(AUTHORIZED)
    case CasOp(expected, next, txHash) =>
      if r.state == Some(expected) then
        // the rig writes strings only; the durable store any hash, but never to a terminal row
        if IsTerminal(expected) then next == expected && (KeepsHash(r, txHash) || !txHash.value.Str?)
        else KeepsHash(r, txHash) || txHash.value.Str?
      else if r.state.None? && expected == AUTHORIZED then next == AUTHORIZED && KeepsHash(r, txHash)
      else true
    case RecordOp(next, txHash) =>
      // the rig records in any state and leaves empty hashes out
      if r.state == Some(SUBMITTING) then KeepsHash(r, txHash) || Truthy(txHash.value)
      else next == r.state.GetOr(AUTHORIZED) && (KeepsHash(r, txHash) || !Truthy(txHash.value))
  }

  /** The rig's step is the durable store's exactly when `Agrees`. */
  lemma RigStepsLikeTheStore(r: RigRow, op: StoreOp)
    ensures AsRow(RigStep(r, op)) == StoreStep(AsRow(r), op) <==> Agrees(r, op)
  {
  }

  function RigRun(r: RigRow, ops: seq<StoreOp>): RigRow {
    if ops == [] then r else RigStep(RigRun(r, ops[..|ops| - 1]), ops[|ops| - 1])
  }

  function StoreRun(row: Row, ops: seq<StoreOp>): Row {
    if ops == [] then row else StoreStep(StoreRun(row, ops[..|ops| - 1]), ops[|ops| - 1])
  }

  /** What `submit` asks of the store while it alone writes the intent. */
  function SubmitOps(answer: SettleAnswer): seq<StoreOp> {
    match Classify(answer)
    case SubmitThrew => [Transition]
    case Submitted(txHash) => [Transition, RecordOp(SETTLEMENT_PENDING, if Truthy(txHash) then Some(txHash) else None)]
    case _ => [Transition, CasOp(SUBMITTING, RECONCILING, None)]
  }

  /** On a fresh intent the rig answers one `submit` as the durable store does,
      and ends in the answer's durable state. */
  lemma RigServesSubmit(answer: SettleAnswer)
    ensures var rig := RigRun(RigRow(None, None), SubmitOps(answer));
      && AsRow(rig) == StoreRun(Row(AUTHORIZED, None), SubmitOps(answer))
      && AsRow(rig).state == DurableTarget(answer).GetOr(SUBMITTING)
  {
    var ops := SubmitOps(answer);
    assert RigRun(RigRow(None, None), []) == RigRow(None, None) && StoreRun(Row(AUTHORIZED, None), []) == Row(AUTHORIZED, None);
    assert ops[..1] == [Transition] && ops[..1][..0] == [];
    assert RigRun(RigRow(None, None), ops[..1]) == RigRow(Some(SUBMITTING), None);
    assert StoreRun(Row(AUTHORIZED, None), ops[..1]) == Row(SUBMITTING, None);
    if |ops| == 2 {
      assert ops[..|ops| - 1] == ops[..1];
    } else {
      assert ops == ops[..1];
    }
  }
}
