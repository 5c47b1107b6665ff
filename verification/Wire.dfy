/** The /settle answer as it crosses the wire; absent or null fields are None. */
module Wire {
  import opened Wrappers

  datatype Body = Body(
    success: Option<bool>,
    transaction: Option<string>,
    transactionHash: Option<string>,
    txHash: Option<string>,
    transaction_hash: Option<string>,
    errorReason: Option<string>,
    error: Option<string>,
    message: Option<string>)

  datatype HttpReply = HttpReply(status: nat, body: Body)

  const EMPTY_BODY := Body(None, None, None, None, None, None, None, None)

  /** The canonical `transaction` field names a transaction. */
  predicate NamesTransaction(r: HttpReply) {
    r.body.transaction.GetOr("") != ""
  }
}
