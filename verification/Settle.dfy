/**
 zeus-facilitator/src/settle.ts: the in-process nonce guard and one settle
 call. What the call answers at each point is a function of what it has seen;
 `Settlement` interleaves many calls over the same functions.
 */
module Settle {
  import opened Wrappers
  import opened Wire

  datatype NonceEntry = Inflight | Done(txHash: string)

  /** The guard's map, keyed by the nonce exactly as the request spells it. */
  type Entries = map<string, NonceEntry>

  function ReleaseEntry(entries: Entries, nonce: string): Entries {
    if nonce in entries && entries[nonce].Inflight? then entries - {nonce} else entries
  }

  class NonceGuard {
    var entries: Entries

    constructor ()
      ensures entries == map[]
    {
      entries := map[];
    }

    /** None when the caller now owns the nonce, else what was there before. */
    method Claim(nonce: string) returns (existing: Option<NonceEntry>)
      modifies this
      ensures existing == if nonce in old(entries) then Some(old(entries)[nonce]) else None
      ensures entries == if existing.Some? then old(entries) else old(entries)[nonce := Inflight]
    {
      if nonce in entries {
        return Some(entries[nonce]);
      }
      entries := entries[nonce := Inflight];
      existing := None;
    }

    method MarkDone(nonce: string, txHash: string)
      modifies this
      ensures entries == old(entries)[nonce := Done(txHash)]
    {
      entries := entries[nonce := Done(txHash)];
    }

    method Release(nonce: string)
      modifies this
      ensures entries == ReleaseEntry(old(entries), nonce)
    {
      if nonce in entries && entries[nonce].Inflight? {
        entries := entries - {nonce};
      }
    }
  }

  // ---------------------------------------------------------------------
  // Answers
  // ---------------------------------------------------------------------

  function Failure(status: nat, reason: string, transaction: string): HttpReply {
    HttpReply(status, EMPTY_BODY.(success := Some(false), errorReason := Some(reason), transaction := Some(transaction)))
  }

  /** 409: somebody claimed the nonce before. */
  function DuplicateReply(existing: NonceEntry): HttpReply {
    match existing
    case Inflight => Failure(409, "duplicate_settle_inflight", "")
    case Done(h) => Failure(409, "duplicate_settle_already_broadcast" + (if h != "" then ":" + h else ""), h)
  }

  /** The send, or anything before it, threw. */
  function BroadcastFailedReply(unavailable: bool, detail: string): HttpReply {
    if unavailable then Failure(503, "broadcast_unavailable:" + detail, "")
    else Failure(200, "broadcast_rejected:" + detail, "")
  }

  /** The receipt says whether the transaction succeeded; None when waiting gave up. */
  function ReceiptReply(txHash: string, receipt: Option<bool>): HttpReply {
    match receipt
    case Some(true) =>
      HttpReply(200, EMPTY_BODY.(success := Some(true), transaction := Some(txHash), transactionHash := Some(txHash)))
    case Some(false) => Failure(200, "settle_reverted", txHash)
    case None => Failure(504, "receipt_timeout", txHash)
  }

  /** What the gas nonce, gas, fee and send requests come to. */
  datatype Broadcast = BroadcastThrew(unavailable: bool, detail: string) | Broadcasted(txHash: string)

  class SettleExecutor {
    const guard: NonceGuard

    constructor ()
      ensures fresh(guard) && guard.entries == map[]
    {
      guard := new NonceGuard();
    }

    /** One call with nobody else running: it answers once, owns at most its own
        nonce, and leaves it done exactly when its send returned a hash. */
    method Settle(nonce: string, broadcast: Broadcast, receipt: Option<bool>) returns (outcome: HttpReply)
      modifies guard
      ensures nonce in old(guard.entries) ==>
                outcome == DuplicateReply(old(guard.entries)[nonce]) && guard.entries == old(guard.entries)
      ensures nonce !in old(guard.entries) && broadcast.BroadcastThrew? ==>
                outcome == BroadcastFailedReply(broadcast.unavailable, broadcast.detail) && guard.entries == old(guard.entries)
      ensures nonce !in old(guard.entries) && broadcast.Broadcasted? ==>
                outcome == ReceiptReply(broadcast.txHash, receipt)
                && guard.entries == old(guard.entries)[nonce := Done(broadcast.txHash)]
    {
      var existing := guard.Claim(nonce);
      if existing.Some? {
        return DuplicateReply(existing.value);
      }
      if broadcast.BroadcastThrew? {
        guard.Release(nonce);
        assert guard.entries == old(guard.entries);
        return BroadcastFailedReply(broadcast.unavailable, broadcast.detail);
      }
      guard.MarkDone(nonce, broadcast.txHash);
      outcome := ReceiptReply(broadcast.txHash, receipt);
    }

    /** The promise of the nonce guard: a second settle with the same nonce is
        answered 409 with the hash of the first broadcast, which it does not repeat. */
    method SettleTwice(nonce: string, txHash: string, receipt: Option<bool>, later: Broadcast, laterReceipt: Option<bool>)
      returns (first: HttpReply, second: HttpReply)
      requires nonce !in guard.entries && txHash != ""
      modifies guard
      ensures first == ReceiptReply(txHash, receipt)
      ensures second.status == 409 && second.body.success == Some(false) && second.body.transaction == Some(txHash)
      ensures guard.entries == old(guard.entries)[nonce := Done(txHash)]
    {
      first := Settle(nonce, Broadcasted(txHash), receipt);
      second := Settle(nonce, later, laterReceipt);
    }
  }
}
