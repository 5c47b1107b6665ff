/**
 The settlement system: any number of facilitator processes and concurrent
 /settle calls over one token contract. Every await of the source is a point
 where other steps may run; processes crash and lose their guard; a send may
 throw although its request has left, and a node may take the transaction at any
 time after; anybody may execute authorizations
 and move balances.
 */
module Settlement {
  import opened Wrappers
  import opened Token
  import opened Wire
  import opened Settle
  import opened Server

  datatype Phase =
    | Arrived                   // request being verified
    | Verified                  // nonce seen unused on chain, not yet claimed
    | Preparing                 // nonce claimed; gas, fee and signing pending
    | Sending(txHash: string)   // the send request has left, its answer is pending
    | Awaiting(txHash: string)  // hash known, receipt pending
    | Replied(reply: HttpReply)

  datatype Call = Call(
    instance: nat,
    nonce: string,              // the guard's key, as the request spells it
    calldata: Authorization,    // what the contract is asked to execute
    phase: Phase,
    claimed: bool,              // the guard gave this call its nonce
    sent: Option<string>,       // transaction whose send request left from this call
    returned: bool)             // and its hash came back

  datatype Landed = Landed(authorization: Authorization, via: Option<string>)

  datatype World = World(
    clock: nat,                         // time of the latest block, in seconds
    guards: map<nat, Entries>,
    alive: set<nat>,
    calls: map<nat, Call>,
    wire: map<string, Authorization>,   // what each transaction that was ever sent executes
    pool: set<string>,                  // transactions a node has taken
    receipts: map<string, bool>,        // mined transactions, true for success
    ledger: Ledger,
    log: seq<Landed>)                   // executed authorizations, oldest first

  datatype Step =
    | Boot(instance: nat)
    | Crash(instance: nat)
    | Arrive(call: nat, instance: nat, nonce: string, calldata: Authorization)
    | ExitEarly(call: nat, exit: EarlyExit)
    | PassVerification(call: nat)
    | ClaimNonce(call: nat)
    | SendDeparts(call: nat, txHash: string)
    | NodeAccepts(txHash: string)
    | SendReturns(call: nat)
    | Throws(call: nat, unavailable: bool, detail: string)
    | ReceiptSeen(call: nat)
    | ReceiptTimeout(call: nat)
    | Mine(txHash: string, now: nat)
    | Revert(txHash: string)
    | Block(now: nat)
    | ForeignSettle(executed: Authorization, now: nat)
    | ForeignMove(from: nat, to: nat, value: nat)

  predicate Running(w: World, c: nat) {
    c in w.calls && w.calls[c].instance in w.alive
  }

  predicate Enabled(w: World, s: Step) {
    match s
    case Boot(i) => i !in w.guards
    case Crash(i) => i in w.alive
    case Arrive(c, i, _, _) => c !in w.calls && i in w.alive && i in w.guards
    case ExitEarly(c, exit) =>
      Running(w, c) && w.calls[c].phase.Arrived? && (exit.AlreadyUsed? ==> UsedPair(w.calls[c].calldata) in w.ledger.used)
    case PassVerification(c) =>
      Running(w, c) && w.calls[c].phase.Arrived? && UsedPair(w.calls[c].calldata) !in w.ledger.used
    case ClaimNonce(c) => Running(w, c) && w.calls[c].phase.Verified? && w.calls[c].instance in w.guards
    case SendDeparts(c, h) =>
      Running(w, c) && w.calls[c].phase.Preparing? && h != "" && (h in w.wire ==> w.wire[h] == w.calls[c].calldata)
    case NodeAccepts(h) => h in w.wire   // a request on the wire outlives its call and its process
    case SendReturns(c) =>
      Running(w, c) && w.calls[c].phase.Sending? && w.calls[c].phase.txHash in w.pool && w.calls[c].instance in w.guards
    case Throws(c, _, _) =>
      Running(w, c) && (w.calls[c].phase.Preparing? || w.calls[c].phase.Sending?) && w.calls[c].instance in w.guards
    case ReceiptSeen(c) => Running(w, c) && w.calls[c].phase.Awaiting? && w.calls[c].phase.txHash in w.receipts
    case ReceiptTimeout(c) => Running(w, c) && w.calls[c].phase.Awaiting?
    case Mine(h, now) =>
      h in w.pool && h in w.wire && h !in w.receipts && w.clock <= now && Admissible(w.ledger, w.wire[h], now)
    case Revert(h) => h in w.pool && h !in w.receipts
    case Block(now) => w.clock <= now
    case ForeignSettle(a, now) => w.clock <= now && Admissible(w.ledger, a, now)
    case ForeignMove(from, to, value) => value <= Balance(w.ledger.balances, from)
  }

  function SetCall(w: World, c: nat, call: Call): World {
    w.(calls := w.calls[c := call])
  }

  function SetEntries(w: World, i: nat, entries: Entries): World {
    w.(guards := w.guards[i := entries])
  }

  function Apply(w: World, s: Step): World
    requires Enabled(w, s)
  {
    match s
    case Boot(i) => w.(guards := w.guards[i := map[]], alive := w.alive + {i})
    case Crash(i) => w.(alive := w.alive - {i})
    case Arrive(c, i, nonce, calldata) => SetCall(w, c, Call(i, nonce, calldata, Arrived, false, None, false))
    case ExitEarly(c, exit) => SetCall(w, c, w.calls[c].(phase := Replied(EarlyReply(exit))))
    case PassVerification(c) => SetCall(w, c, w.calls[c].(phase := Verified))
    case ClaimNonce(c) =>
      var i, nonce := w.calls[c].instance, w.calls[c].nonce;
      if nonce in w.guards[i]
      then SetCall(w, c, w.calls[c].(phase := Replied(DuplicateReply(w.guards[i][nonce]))))
      else SetCall(SetEntries(w, i, w.guards[i][nonce := Inflight]), c, w.calls[c].(phase := Preparing, claimed := true))
    case SendDeparts(c, h) =>
      SetCall(w.(wire := w.wire[h := w.calls[c].calldata]), c, w.calls[c].(phase := Sending(h), sent := Some(h)))
    case NodeAccepts(h) => w.(pool := w.pool + {h})
    case SendReturns(c) =>
      var i, nonce, h := w.calls[c].instance, w.calls[c].nonce, w.calls[c].phase.txHash;
      SetCall(SetEntries(w, i, w.guards[i][nonce := Done(h)]), c, w.calls[c].(phase := Awaiting(h), returned := true))
    case Throws(c, unavailable, detail) =>
      var i, nonce := w.calls[c].instance, w.calls[c].nonce;
      SetCall(SetEntries(w, i, ReleaseEntry(w.guards[i], nonce)), c,
              w.calls[c].(phase := Replied(BroadcastFailedReply(unavailable, detail))))
    case ReceiptSeen(c) =>
      var h := w.calls[c].phase.txHash;
      SetCall(w, c, w.calls[c].(phase := Replied(ReceiptReply(h, Some(w.receipts[h])))))
    case ReceiptTimeout(c) =>
      SetCall(w, c, w.calls[c].(phase := Replied(ReceiptReply(w.calls[c].phase.txHash, None))))
    case Mine(h, now) =>
      w.(clock := now, receipts := w.receipts[h := true], ledger := Execute(w.ledger, w.wire[h], now),
         log := w.log + [Landed(w.wire[h], Some(h))])
    case Revert(h) => w.(receipts := w.receipts[h := false])
    case Block(now) => w.(clock := now)
    case ForeignSettle(a, now) =>
      w.(clock := now, ledger := Execute(w.ledger, a, now), log := w.log + [Landed(a, None)])
    case ForeignMove(from, to, value) =>
      w.(ledger := w.ledger.(balances := Move(w.ledger.balances, from, to, value)))
  }

  function Genesis(ledger: Ledger): World {
    World(0, map[], {}, map[], map[], {}, map[], ledger, [])
  }

  /** The state a run of steps leads to, None when some step was not enabled. */
  function After(ledger: Ledger, steps: seq<Step>): Option<World> {
    if steps == [] then Some(Genesis(ledger))
    else
      var before := After(ledger, steps[..|steps| - 1]);
      var last := steps[|steps| - 1];
      if before.Some? && Enabled(before.value, last) then Some(Apply(before.value, last)) else None
  }
}
