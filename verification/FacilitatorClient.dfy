/**
 zeus-secretariat/src/adapters/x402-facilitator-client.ts: what one answer of
 the facilitator makes `submit` write durably and return.
 */
module FacilitatorClient {
  import opened Wrappers
  import opened Text
  import opened Json
  import opened Wire

  /** Economic settlement states (zeus-secretariat/src/core/types.ts). */
  datatype SettlementState =
    | PENDING_SIGNATURE
    | AUTHORIZED
    | SUBMITTING
    | SUBMITTED
    | SETTLEMENT_PENDING
    | RECONCILING
    | SETTLED
    | NOT_SETTLED
    | UNRESOLVED_MANUAL

  predicate AllowNewPayment(s: SettlementState) {
    s == NOT_SETTLED
  }

  predicate IsTerminal(s: SettlementState) {
    s == SETTLED || s == NOT_SETTLED || s == UNRESOLVED_MANUAL
  }

  /** What comes back: nothing, or a status and the parsed body, where unparsable
      bodies read as the empty object. */
  datatype SettleAnswer = NetworkError(error: string) | Answered(status: nat, body: Json)

  /** The result of `submit`; hash and reason are handed on as the body has them. */
  datatype SubmitResult =
    | Submitted(txHash: Json)
    | Rejected(reason: Json)
    | Unknown(error: string)
    | SubmitThrew

  /** The first of four fields that is there. */
  function TxHashOf(body: Json): Json
    requires Readable(body)
  {
    Coalesce(Get(body, "transaction"), Coalesce(Get(body, "transactionHash"),
             Coalesce(Get(body, "txHash"), Coalesce(Get(body, "transaction_hash"), Str("")))))
  }

  function ReasonOf(body: Json, default: string): Json
    requires Readable(body)
  {
    Coalesce(Get(body, "errorReason"), Coalesce(Get(body, "error"), Coalesce(Get(body, "message"), Str(default))))
  }

  predicate Contains(text: string, part: string) {
    part <= text || (text != "" && Contains(text[1..], part))
  }

  /** Both words in a row, run together or with one underscore or blank between. */
  predicate ContainsJoined(text: string, first: string, second: string) {
    Contains(text, first + second) || Contains(text, first + "_" + second) || Contains(text, first + " " + second)
  }

  /** The reason speaks of a used authorization or a duplicate settlement, in any letter case. */
  predicate LooksReplayed(reason: string) {
    var folded := Lower(reason);
    || ContainsJoined(folded, "authorization", "used")
    || ContainsJoined(folded, "already", "used")
    || ContainsJoined(folded, "duplicate", "settlement")
  }

  predicate DefinitiveRefusal(status: nat, reason: string) {
    400 <= status < 500 && status != 408 && status != 429 && status != 409 && !LooksReplayed(reason)
  }

  predicate IsOk(status: nat) {
    200 <= status < 300
  }

  /** A refusal in so many words; its reason goes into a message. */
  function Declined(reason: Json): SubmitResult {
    if ToText(reason).None? then SubmitThrew else Rejected(reason)
  }

  function ClassifyFailure(status: nat, reason: Json): SubmitResult {
    if ToText(reason).None? then SubmitThrew
    else if DefinitiveRefusal(status, ToText(reason).value) then Rejected(reason)
    else Unknown("FACILITATOR_AMBIGUOUS: " + ToText(reason).value)
  }

  /** Reading a field of a null body throws, and so does putting a reason without text into a message. */
  function Classify(answer: SettleAnswer): SubmitResult {
    match answer
    case NetworkError(error) => Unknown("NETWORK_ERROR: " + error)
    case Answered(status, body) =>
      if !Readable(body) then SubmitThrew
      else if IsOk(status) then
        if Get(body, "success") == Bool(true) then Submitted(TxHashOf(body))
        else if Get(body, "success") == Bool(false) then Declined(ReasonOf(body, "FACILITATOR_SETTLE_FAILED"))
        else Unknown("FACILITATOR_AMBIGUOUS")
      else ClassifyFailure(status, ReasonOf(body, "HTTP"))
  }

  /** The state `submit` tries to move a SUBMITTING intent to, None when it writes nothing. */
  function DurableTarget(answer: SettleAnswer): Option<SettlementState> {
    match Classify(answer)
    case Submitted(_) => Some(SETTLEMENT_PENDING)
    case Rejected(_) => Some(RECONCILING)
    case Unknown(_) => Some(RECONCILING)
    case SubmitThrew => None
  }

  /** The hash it records beside the state; an empty one is left out. */
  function DurableHash(answer: SettleAnswer): Option<Json> {
    match Classify(answer)
    case Submitted(txHash) => if Truthy(txHash) then Some(txHash) else None
    case _ => None
  }

  /** The answer puts its reason into a message. */
  predicate UsesReason(status: nat, body: Json)
    requires Readable(body)
  {
    !IsOk(status) || Get(body, "success") == Bool(false)
  }

  /** An answer makes `submit` throw exactly when its body is null, or its reason
      is used and is, or holds in nested arrays, an object with a field named toString. */
  lemma AnswersThatThrow(answer: SettleAnswer)
    ensures Classify(answer).SubmitThrew?
        <==> answer.Answered?
             && (!Readable(answer.body)
                 || (UsesReason(answer.status, answer.body) && Textless(ReasonOf(answer.body, "HTTP"))))
  {
    if answer.Answered? && Readable(answer.body) {
      TextlessHasNoText(ReasonOf(answer.body, "HTTP"));
      TextlessHasNoText(ReasonOf(answer.body, "FACILITATOR_SETTLE_FAILED"));
    }
  }

  /** Such answers exist at any status that declines, 200 included. */
  lemma ReasonWithoutText(status: nat)
    ensures var body := Obj(map["success" := Bool(false), "errorReason" := Obj(map["toString" := Num(0.0)])]);
      Classify(Answered(status, body)) == SubmitThrew
  {
    var body := Obj(map["success" := Bool(false), "errorReason" := Obj(map["toString" := Num(0.0)])]);
    assert Textless(ReasonOf(body, "HTTP"));
    AnswersThatThrow(Answered(status, body));
  }

  /** REJECTED needs a definitive word: a 2xx that says false, or a 4xx that is
      neither transient nor about a replay; a network error is never one and never throws. */
  lemma RejectedIsDefinitive(answer: SettleAnswer)
    ensures Classify(answer).Rejected? ==>
              answer.Answered? && Readable(answer.body)
              && ((IsOk(answer.status) && Get(answer.body, "success") == Bool(false)) || 400 <= answer.status < 500)
              && answer.status !in {408, 409, 429}
    ensures answer.NetworkError? ==> Classify(answer).Unknown?
  {
  }

  // ---------------------------------------------------------------------
  // The facilitator's own replies
  // ---------------------------------------------------------------------

  const REPLY_FIELDS: set<string> := {
    "success", "transaction", "transactionHash", "txHash", "transaction_hash", "errorReason", "error", "message"
  }

  function TextOf(s: Option<string>): Option<Json> {
    if s.Some? then Some(Str(s.value)) else None
  }

  /** A field of the typed body, if it is there. */
  function FieldOf(b: Body, key: string): Option<Json> {
    if key == "success" then (if b.success.Some? then Some(Bool(b.success.value)) else None)
    else if key == "transaction" then TextOf(b.transaction)
    else if key == "transactionHash" then TextOf(b.transactionHash)
    else if key == "txHash" then TextOf(b.txHash)
    else if key == "transaction_hash" then TextOf(b.transaction_hash)
    else if key == "errorReason" then TextOf(b.errorReason)
    else if key == "error" then TextOf(b.error)
    else if key == "message" then TextOf(b.message) else None
  }

  function JsonOf(b: Body): Json {
    Obj(map key | key in REPLY_FIELDS && FieldOf(b, key).Some? :: FieldOf(b, key).value)
  }

  /** The reply as the client receives it. */
  function Received(r: HttpReply): SettleAnswer {
    Answered(r.status, JsonOf(r.body))
  }

  function HashText(b: Body): string {
    b.transaction.GetOr(b.transactionHash.GetOr(b.txHash.GetOr(b.transaction_hash.GetOr(""))))
  }

  function ReasonText(b: Body, default: string): string {
    b.errorReason.GetOr(b.error.GetOr(b.message.GetOr(default)))
  }

  /** What the client makes of a reply of the facilitator, whose fields are texts. */
  function ReplyResult(r: HttpReply): SubmitResult {
    if IsOk(r.status) then
      if r.body.success == Some(true) then Submitted(Str(HashText(r.body)))
      else if r.body.success == Some(false) then Rejected(Str(ReasonText(r.body, "FACILITATOR_SETTLE_FAILED")))
      else Unknown("FACILITATOR_AMBIGUOUS")
    else
      var reason := ReasonText(r.body, "HTTP");
      if DefinitiveRefusal(r.status, reason) then Rejected(Str(reason)) else Unknown("FACILITATOR_AMBIGUOUS: " + reason)
  }

  lemma FieldOfReply(b: Body, key: string)
    requires key in REPLY_FIELDS
    ensures Get(JsonOf(b), key) == FieldOf(b, key).GetOr(Undefined)
  {
  }

  lemma HashOfReply(b: Body)
    ensures TxHashOf(JsonOf(b)) == Str(HashText(b))
  {
    FieldOfReply(b, "transaction");
    FieldOfReply(b, "transactionHash");
    FieldOfReply(b, "txHash");
    FieldOfReply(b, "transaction_hash");
  }

  lemma ReasonOfReply(b: Body, default: string)
    ensures ReasonOf(JsonOf(b), default) == Str(ReasonText(b, default))
  {
    FieldOfReply(b, "errorReason");
    FieldOfReply(b, "error");
    FieldOfReply(b, "message");
  }

  lemma ClassifiesFields(r: HttpReply, body: Json)
    requires Readable(body) && Get(body, "success") == FieldOf(r.body, "success").GetOr(Undefined)
    requires TxHashOf(body) == Str(HashText(r.body))
    requires ReasonOf(body, "HTTP") == Str(ReasonText(r.body, "HTTP"))
    requires ReasonOf(body, "FACILITATOR_SETTLE_FAILED") == Str(ReasonText(r.body, "FACILITATOR_SETTLE_FAILED"))
    ensures Classify(Answered(r.status, body)) == ReplyResult(r)
  {
  }

  /** Over the wire nothing is lost: the parsed reply is classified by its typed
      fields, and never makes `submit` throw. */
  lemma ClassifiesReply(r: HttpReply)
    ensures Classify(Received(r)) == ReplyResult(r) && !Classify(Received(r)).SubmitThrew?
  {
    FieldOfReply(r.body, "success");
    HashOfReply(r.body);
    ReasonOfReply(r.body, "HTTP");
    ReasonOfReply(r.body, "FACILITATOR_SETTLE_FAILED");
    ClassifiesFields(r, JsonOf(r.body));
  }
}
